# Verification of libAutoUpdater

libAutoUpdater checks a signed manifest, downloads changed files into a staging
directory, and hands an apply plan to a helper process that replaces the files of
an installation.  The helper survives crashes: it keeps a journal, backs up what
it replaces, and recovers whatever an earlier process left behind.  This project
models that system in Dafny and proves what it is for.

## How the model is built

- **The disk and its faults** (`InstallState.dfy`, `InstallRoot.dfy`).  Durable
  state is the install tree, the staging and backup directories, and the journal:
  plan snapshots, summaries, operation records, the active pointer and the terminal
  receipt.  A write publishes or does not and may report failure in both cases; a
  replacement over an existing file may leave the name empty.  A crash makes every
  later operation of that process fail without effect, so the contract of a method
  covers every point at which it can be cut short.  With `faulty` false nothing
  fails.  One invariant, kept by every durable step, carries crash atomicity, the
  write-ahead rule, journal closure and restart at most once; a ghost history
  remembers the tree each transaction found and every launch.
- **The apply protocol** (`Journal.dfy`, `ApplyTransaction.dfy`, `Rollback.dfy`,
  `Execution.dfy`).  The class follows `ApplyTransaction` method by method; the
  entry points follow the executor's, up to any number of process lifetimes.
- **Plans and records as JSON trees** (`Plans.dfy`, `PlanJson.dfy`,
  `JournalJson.dfy`), **paths** (`Topology.dfy`), **versions** (`Version.dfy`),
  **timestamps** (`Timestamp.dfy`) and **decimal text** (`Decimal.dfy`,
  `Strings.dfy`).
- **The updater's generations and worker queue** (`Updater.dfy`): each step is one
  section under a mutex with the posts that follow it, the worker's place in its
  task is a field, and any sequence of events is an interleaving.  The module says
  why nothing can come between a section and its posts.
- **The download path** (`UrlPolicy.dfy`, `Network.dfy`, `DownloadResume.dfy`,
  `DownloadExecutor.dfy`) and **the planner** (`Planner.dfy`).  Where an adapter,
  file, directory or store is not `faulty`, its operations succeed.
- **A whole update** (`Update.dfy`): planner, downloads, plan file and executor in
  one run, from the manifest to the installed files.

`hide` statements keep definitions a proof does not need out of the solver's way;
they change what is visible, not what is proved.

Names in the staging directory are names as the file system tells them apart: the
folding of characters is a parameter, the identity on POSIX systems and a case table
on Windows, where every name is opened without case
(src/default/RootedFileSystemWindows.cpp:176).

Three things the code does that its reader may not expect:

- A resumed download whose redirect is refused is left empty, not restored
  (src/NetworkRequest.cpp:387-400).  `Networking.DownloadWithRedirects` states the
  contents after a refused redirect in every case: the file is as it was exactly
  when nothing was resumed or there was nothing to keep.
- A staged file named like a later download's temporary file is lost although the
  download reports success (src/DownloadExecutor.cpp:48-50); where case is ignored,
  so is "A.download" before "a".  `Downloads.LosingRun` is such a run from beginning
  to end, and `Downloads.ExecuteDownloads` gives the exact condition on the list and
  on the files staged before the call.
- The plan is written into the staging directory itself (src/ApplyPlanWriter.cpp:265),
  over a staged file called "apply-plan.json", and the executor then finds the wrong
  contents and puts everything back.  `Updates.PlanTakesFile` shows it, and
  `Updates.Update` gives the exact condition under which a fault-free run updates.

## Model

| member | source | states |
|---|---|---|
| Topology.NeighboursDecide | src/Manifest.cpp:81-109 | On sorted keys, two keys collide or one lies below another exactly when two neighbours do: checking neighbours refines checking all pairs |
| Topology.ValidateSourceTopology | src/ApplyPlan.cpp:71-86 | The two-iterator loop over the sorted source keys succeeds exactly when no source is an ancestor of another, adjacent or not |
| Topology.ValidateDisjointTargets | src/util/PathUtil.cpp:137-167 | For paths in any order, sorting keys and comparing neighbours accepts exactly the lists without collisions and without ancestors |
| Topology.KeysMeanPaths | tools/gc_objects.py:262-279 | Equal keys are paths equal up to ASCII case; a key below another is a path inside that directory |
| Decimal.ParseDecimal | updater/ApplyJournal.cpp:101-124 | The digit loop with its overflow test yields the value of a canonical numeral below 2^64 and nothing else |
| Decimal.LengthThenText | src/Version.cpp:61-75 | Comparing canonical numerals by length and then by text is numeric comparison, for numbers of any size |
| Strings.SplitText | src/Version.cpp:29-41 | The splitting loop cuts at every delimiter; joining the parts gives the text back |
| Versions.ParseAfterToString | src/Version.cpp:204-213 | Reading a written version gives the same version, for every version parse can produce |
| Versions.ToStringAfterParse | src/Version.cpp:152-202 | Writing a parsed version gives the same text, and whatever parse returns is well formed |
| Versions.PrecedesTotal | src/Version.cpp:215-235 | Of two versions exactly one precedes the other unless they differ at most in build metadata |
| Versions.PrecedesTransitive | src/Version.cpp:224-235 | Precedence as section 11 of Semantic Versioning 2.0.0 defines it is transitive |
| Versions.CompareNumericIdentifier | src/Version.cpp:61-75 | The sign of the result is the order of the numeric values |
| Versions.ComparePrerelease | src/Version.cpp:104-144 | The loop decides prerelease precedence of section 11, in both directions, and gives zero only for equal text |
| Versions.LessThan | src/Version.cpp:224-235 | The operator is precedence of section 11 |
| Timestamps.CivilFromDaysIsGregorian | src/ApplyTransactionReceipt.cpp:104-119 | For every day of years 1 to 9999 the result is a valid Gregorian date whose ordinal is the input, and daysFromCivil gives the day back |
| Timestamps.DaysFromCivilIsOrdinal | src/util/Rfc3339.cpp:51-61 | Counts days as the calendar defined year by year and month by month does |
| Timestamps.FormatSpec | src/ApplyTransactionReceipt.cpp:121-159 | The written text is an instance of the Python pattern, and both readers read it back as the same instant, trailing zeroes stripped or not |
| Timestamps.FormatTimestamp | src/ApplyTransactionReceipt.cpp:121-159 | The imperative formatter, with truncating division and its sign fix, writes that text for every instant in range and refuses all others |
| Timestamps.StripZeroes | src/ApplyTransactionReceipt.cpp:144-152 | The loop leaves the fraction without its trailing zeroes and never empties it |
| Timestamps.ReadersAgree | tools/evidence_contract.py:161-185 | The Python reader, modelled on its own as the groups of its pattern, its range checks and ordinal arithmetic, accepts exactly the texts the C++ scanner accepts and gives the same instant in nanoseconds |
| PlanJson.ParseOperation | src/ApplyPlan.cpp:394-468 | Whatever is read is a valid operation of its schema version |
| PlanJson.ReadOperations | src/ApplyPlan.cpp:391-503 | The loop over the items, with its evidence map, 64-bit running total and target list, accepts exactly the items that parse and fit together, and returns them |
| PlanJson.CheckTopology | src/ApplyPlan.cpp:493-501 | With consistent evidence the two topology checks decide that shared sources agree and that targets are disjoint |
| PlanJson.Parse | src/ApplyPlan.cpp:228-507 | Yields the plan a tree spells out, exactly when its operations also fit together within the limits |
| PlanJson.PlanRoundTrip | src/ApplyPlan.cpp:509-568 | Reading a written plan gives the same plan, for every plan parse accepts, both schema versions, optional fields and preconditions |
| PlanJson.ParsedPlansRoundTrip | src/ApplyPlan.cpp:228-568 | From whatever tree a plan was read, writing and reading it again gives the same plan |
| PlanJson.OperationRoundTrip | src/ApplyPlan.cpp:536-564 | An operation the executor may write reads back as itself exactly when it is valid, and is refused otherwise |
| PlanJson.HeaderRoundTrip | src/ApplyPlan.cpp:509-535 | The plan header reads back as itself exactly when it is valid |
| PlanJson.ValidateApplyPlanResources | updater/ApplyExecutor.cpp:58-190 | The executor's own check (budgets, then writing and parsing the plan) accepts exactly the plans the parser can produce |
| PlanJson.ValidateOperationResources | updater/ApplyExecutor.cpp:127-178 | The per-operation loop decides validity of every operation and the exact total of replacement bytes |
| JournalJson.SummaryRoundTrip | updater/ApplyJournal.cpp:453-569 | Every summary the journal writes reads back as itself; the operation count is exact below 2^64 and refused from there on |
| JournalJson.RecordRoundTrip | updater/ApplyJournal.cpp:571-695 | Every valid operation record reads back as itself; index and size are exact below 2^64 and refused from there on |
| JournalJson.ReceiptRoundTrip | src/ApplyTransactionReceipt.cpp:161-234 | Every receipt reads back as itself, with or without its completion time |
| JournalJson.StateNames | updater/ApplyJournal.cpp:160-228 | Every state is recovered from its name |
| InstallState.SummaryStep | updater/ApplyExecutor.cpp:895-901 | A summary write keeps the write-ahead invariant provided it forgets no restart, no completion and no file promise |
| InstallState.RecordStep | updater/ApplyExecutor.cpp:915-921 | A record write keeps the invariant provided the record still accounts for the target as it is |
| InstallState.TargetStep | updater/ApplyExecutor.cpp:1168-1183 | A target mutation keeps the invariant provided the durable record and backup already account for the new contents (or the gap) |
| InstallState.TerminalStep | updater/ApplyExecutor.cpp:1676-1690 | Publishing the receipt of a complete summary keeps the invariant; the receipt carries the summary's time |
| InstallState.ClearStep | updater/ApplyExecutor.cpp:1692-1699 | Clearing the active pointer after RolledBack, or after Complete with its receipt, leaves the tree settled: all restored or all installed |
| InstallState.ActivateStep | updater/ApplyExecutor.cpp:694-698 | Publishing a fully prepared transaction keeps the invariant |
| InstallState.PlanStep | updater/ApplyJournal.cpp:985-1002 | A new plan snapshot starts a transaction nobody points at, and disturbs no other |
| InstallState.OrphanRecordStep | updater/ApplyExecutor.cpp:680-688 | Whatever an interrupted preparation leaves behind can be ignored |
| InstallState.StoreStep | updater/ApplyExecutor.cpp:522-617 | Adding, replacing or removing staged files and backups keeps the invariant, as long as the backups a transaction relies on stay |
| InstallState.LaunchStep | updater/ApplyExecutor.cpp:628-642 | A launch after a durable intent and before any other launch keeps at most one launch per transaction |
| InstallState.TerminalSurvivesRestore | updater/ApplyExecutor.cpp:725-786 | Rolling a later transaction back leaves the last completed one's evidence intact |
| InstallRoots.InstallRoot.WriteSummary | updater/ApplyJournal.cpp:1024-1037 | Publishes or not, may report failure either way, and the invariant holds in every case |
| InstallRoots.InstallRoot.WriteOperation | updater/ApplyJournal.cpp:1066-1076 | Publishes or not, may report failure either way, and the invariant holds in every case |
| InstallRoots.InstallRoot.CommitTarget | updater/ApplyExecutor.cpp:454-472 | The target is old, new, or over an existing file absent; the reported result alone does not tell which |
| InstallRoots.InstallRoot.ClearActive | updater/ApplyJournal.cpp:929-983 | The pointer is cleared or still there; success only if cleared |
| InstallRoots.InstallRoot.WritePlanSnapshot | updater/ApplyJournal.cpp:985-1002 | Never replaces a snapshot; the tree at this moment is what the transaction is answerable for |
| ApplyTransactions.ApplyTransaction.PrepareOne | updater/ApplyExecutor.cpp:940-1049 | Touches only this operation's record and backup slot; success means a record that describes the original, a verified backup where one is needed, the expected precondition, and bytes within both budgets; without faults it succeeds whenever the precondition, slot and budgets allow |
| ApplyTransactions.ApplyTransaction.EnsureBackup | updater/ApplyExecutor.cpp:522-617 | Success means the slot holds the recorded original; an existing backup is verified and never replaced |
| ApplyTransactions.ApplyTransaction.BackUpOriginal | updater/ApplyExecutor.cpp:987-1046 | Budget, backup and durable record together, the running byte total exact |
| ApplyTransactions.ApplyTransaction.PrepareAll | updater/ApplyExecutor.cpp:683-688 | Every operation prepared and the byte budget of the whole plan met, with nothing in the install directory touched |
| ApplyTransactions.ApplyTransaction.ApplyOne | updater/ApplyExecutor.cpp:1051-1097 | Changes only this operation's record and target; success means the source was staged with its evidence, the target is installed and its record complete; without faults it succeeds whenever the source is staged |
| ApplyTransactions.ApplyTransaction.ApplyReplacement | updater/ApplyExecutor.cpp:1099-1212 | Intent is durable before the target changes, and success is believed only after the target was seen with the prepared identity |
| ApplyTransactions.ApplyTransaction.ApplyRemoval | updater/ApplyExecutor.cpp:1214-1264 | Intent before removal, completion only after the target was seen absent |
| ApplyTransactions.ApplyTransaction.ApplyAll | updater/ApplyExecutor.cpp:710-715 | Success means every operation applied, records and backups included |
| ApplyTransactions.ApplyTransaction.LoadOperationRecords | updater/ApplyExecutor.cpp:1266-1299 | Success returns every durable record in order; without faults it succeeds on every journal this code wrote |
| ApplyTransactions.ApplyTransaction.VerifyAppliedState | updater/ApplyExecutor.cpp:1301-1360 | Success means every operation passes the check; without faults it succeeds exactly then |
| ApplyTransactions.ApplyTransaction.RollbackOne | updater/ApplyExecutor.cpp:1376-1498 | Success means the target has its original existence, contents and known permissions; without faults it always succeeds, from the original, the installed file or the gap |
| ApplyTransactions.ApplyTransaction.RestoreTarget | updater/ApplyExecutor.cpp:1405-1493 | From any state the records allow, the original is put back from the verified backup, or the target removed |
| ApplyTransactions.ApplyTransaction.RollbackAll | updater/ApplyExecutor.cpp:1362-1374 | In reverse order, every target restored; after a durable RolledBack no target is touched |
| ApplyTransactions.RollbackCases | updater/ApplyExecutor.cpp:1381-1396 | A target the record takes for the original is the original; any other is past Pending and is the installed file or the gap |
| ApplyTransactions.ApplyTransaction.FinishRestart | updater/ApplyExecutor.cpp:1587-1674 | Every restart state ends in Complete with its receipt and a cleared pointer unless something fails; the tree is untouched; the launcher is asked only from NotAttempted, and then once |
| ApplyTransactions.ApplyTransaction.AttemptRestart | updater/ApplyExecutor.cpp:1639-1673 | The launcher is asked only after the intent is durable and never twice |
| ApplyTransactions.ApplyTransaction.PersistCompletion | updater/ApplyExecutor.cpp:903-913 | A completed summary carries a completion time in range |
| ApplyTransactions.ApplyTransaction.PublishTerminalAndClear | updater/ApplyExecutor.cpp:1676-1690 | The receipt is durable before the pointer goes |
| ApplyTransactions.ApplyTransaction.RollBack | updater/ApplyExecutor.cpp:1518-1548 | RollingBack durable, everything undone, RolledBack durable, pointer cleared; without faults all of it |
| ApplyTransactions.ApplyTransaction.RecordTerminalReconciliationFailure | updater/ApplyExecutor.cpp:828-846 | After a restart may have started no file is touched and the pointer stays |
| ApplyTransactions.ApplyTransaction.Recover | updater/ApplyExecutor.cpp:725-786 | From every journal state one call without faults clears the active pointer: applied transactions complete as they stand, all others are undone; after a restart intent no target changes |
| ApplyTransactions.ApplyTransaction.ReplayTerminal | updater/ApplyExecutor.cpp:788-803 | Reports success exactly when all operations still check and no restart failure is recorded |
| ApplyTransactions.ApplyTransaction.RollbackSourceRecords | updater/ApplyExecutor.cpp:805-815 | Returns the records of a complete transaction that still checks |
| ApplyTransactions.ApplyTransaction.Draft | updater/ApplyExecutor.cpp:658-693 | Up to the active pointer the install directory is untouched |
| ApplyTransactions.ApplyTransaction.Start | updater/ApplyExecutor.cpp:658-723 | With nothing active afterwards the tree is settled; success means all installed and the rest untouched; nothing is touched unless every precondition holds; without faults nothing stays active, and a ready plan installs |
| Rollbacks.DeriveRollbackPlan | updater/ApplyExecutor.cpp:1942-2008 | Succeeds exactly when targets are disjoint and every original to restore has a durable backup, and lists the inverses last operation first |
| Rollbacks.UndoableIsDerivable | updater/ApplyExecutor.cpp:1942-2008 | Deriving never fails after a completed transaction |
| Rollbacks.UndoIsAccepted | updater/ApplyExecutor.cpp:1942-2008 | The derived plan passes the executor's own validation: disjoint targets, agreeing sources, byte budgets carried over from the forward transaction |
| Rollbacks.UndoIsReady | updater/ApplyExecutor.cpp:1971-2007 | Every derived precondition holds now, every derived source is in the forward backup with its evidence, and the undo backups fit the budgets, given an undo directory that is fresh or already holds these backups |
| Rollbacks.UndoRestores | updater/ApplyExecutor.cpp:1942-2073 | Any tree the derived plan installs has every managed target's original existence, contents and known permissions |
| Rollbacks.InverseBytes | updater/ApplyExecutor.cpp:1971-2007 | What the inverse replaces weighs exactly what the forward transaction backed up, and what it backs up at most what was replaced |
| Execution.RecoverActiveTransaction | updater/ApplyExecutor.cpp:1786-1818 | A journal this code wrote is never refused; without faults the pointer is cleared, with the transaction undone or published as its file state says; after a restart intent the tree stays |
| Execution.ReplayTerminalTransaction | updater/ApplyExecutor.cpp:1820-1857 | Without faults succeeds exactly when the restart did not fail, and then every target is installed |
| Execution.StartNewTransaction | updater/ApplyExecutor.cpp:1909-1940 | Settled whenever nothing is active afterwards, and as before unless every source was staged with its evidence; an acceptable ready plan installs |
| Execution.UndoTerminal | updater/ApplyExecutor.cpp:2053-2073 | Without faults a request that names the completed transaction restores every managed target |
| Execution.ExecuteRollbackRequest | updater/ApplyExecutor.cpp:2010-2073 | Restores the named transaction's originals, or changes nothing when it names another |
| Execution.RepeatedRequestIsRecognized | updater/ApplyExecutor.cpp:1893-1907 | A rollback request asked again after it completed is recognized as the completed one |
| Execution.ExecuteApplyPlan | updater/ApplyExecutor.cpp:2139-2222 | Keeps the invariant whatever happens; without faults nothing stays active for an acceptable plan of the same directory, a ready install is installed and published, a valid undo restores; a rollback request that first has to recover an active transaction, and then names the last completed one, restores all its targets when its undo directory is fresh; an unacceptable or already completed plan changes nothing; nothing is installed unless every source was staged with its evidence |
| Execution.UndoAhead | updater/ApplyExecutor.cpp:2010-2073 | What a rollback request names before recovery is the terminal transaction after it, and a fresh undo directory has usable slots |
| Execution.InvariantMeans | updater/ApplyExecutor.cpp:644-1715 | Crash atomicity, the write-ahead promise, restart at most once over an installed tree, and completion times on summary and receipt, all from the invariant |
| Execution.RunLifetimes | updater/ApplyExecutor.cpp:2139-2222 | All of that after any sequence of process lifetimes, each possibly cut short after any step |
| Updaters.Updater.BeginGeneration | src/Updater.cpp:178-190 | A new generation closes the old flag, drops checked and ready, and was never launched |
| Updaters.Updater.SetGenerationState | src/Updater.cpp:220-236 | Only the current generation changes the state |
| Updaters.Updater.StoreChecked | src/Updater.cpp:238-246 | Stores exactly when the generation is current, and then nothing is ready |
| Updaters.Updater.CommitReady | src/Updater.cpp:732-764 | Ready exactly when the generation is current and checked, with the pending update just persisted |
| Updaters.Updater.BeginApplying | src/Updater.cpp:1162-1178 | Consumes the ready record exactly when it is still the current one in state ReadyToApply |
| Updaters.Updater.ReportGenerationError | src/Updater.cpp:354-379 | The current generation ends with nothing checked and nothing ready |
| Updaters.Updater.CaptureApply | src/Updater.cpp:1106-1115 | A request names the current generation only while it is checked, ready and in state ReadyToApply |
| Updaters.Updater.Start | src/Updater.cpp:651-700 | Queues unless full or shutting down; whoever finds nobody draining starts a worker |
| Updaters.Updater.SpawnWorker | src/Updater.cpp:686-710 | The starter becomes the drainer, or the queue is emptied |
| Updaters.Updater.FetchTask | src/Updater.cpp:618-628 | The drainer stops only on an empty queue or at shutdown |
| Updaters.Updater.BeginTask | src/Updater.cpp:1043-1135 | No check begins while an update is applied; a download is chosen and an apply loaded exactly for the current generation that is checked and downloadable, or ready |
| Updaters.Updater.CheckStep | src/Updater.cpp:841-858 | A check opens a new generation, may reconcile the persisted pending update away before fetching, fetches only while it is current, and stores its decision or reports |
| Updaters.Updater.ChooseStep | src/Updater.cpp:713-721 | A download starts exactly for the current checked generation in state UpdateAvailable with nothing ready |
| Updaters.Updater.StartDownloadStep | src/Updater.cpp:766-779 | Transfers only while current and not shutting down |
| Updaters.Updater.TransferStep | src/Updater.cpp:784-813 | Goes on only with the pending update durable |
| Updaters.Updater.ReportStep | src/Updater.cpp:381-392 | An error of the current generation leaves nothing checked, nothing ready, state Failed |
| Updaters.Updater.PostForGeneration | src/Updater.cpp:199-208 | Posts exactly for the current generation, outside shutdown, with its flag |
| Updaters.Updater.DecideStep | src/Updater.cpp:893-908 | A download follows exactly when one is wanted and possible |
| Updaters.Updater.CommitStep | src/Updater.cpp:812-822 | A current checked generation becomes ready with the saved pending update |
| Updaters.Updater.MatchStep | src/Updater.cpp:1147-1160 | Apply goes on only when the persisted pending update is the ready one |
| Updaters.Updater.BeginApplyStep | src/Updater.cpp:1162-1188 | Launching follows exactly when the ready record was still current |
| Updaters.Updater.LaunchStep | src/Updater.cpp:1189-1197 | Logs one launch with the persisted pending update, or none at shutdown |
| Updaters.Updater.Deliver | src/Updater.cpp:199-218 | A callback starts exactly when its flags are still set |
| Updaters.Updater.Interleave | src/Updater.cpp:114-1199 | Over every interleaving: ready implies checked, current and ReadyToApply; no generation launches twice or with another pending update; no superseded callback starts; a non-empty queue has exactly one drainer and at most 64 tasks |
| UrlPolicies.Policy.ResolveAndAuthorize | src/UrlPolicy.cpp:150-165 | A resolved URL is in scope, no downgrade, and no switch between files and network |
| UrlPolicies.BoundaryMeansSegments | src/UrlPolicy.cpp:18-46 | A scope, the root included, admits exactly the paths whose segments begin with its own, up to case where Windows ignores it: no partial segment matches |
| Networking.ValidateHeadersBudget | src/NetworkLimits.cpp:66-85 | Accepts exactly header lists of at most 65536 bytes, four extra per field |
| Networking.UniqueHeader | src/NetworkLimits.cpp:87-109 | Finds the header exactly when there is one of the name, in any case, and notices a second |
| Networking.UniqueLocation | src/NetworkRequest.cpp:147-164 | The one trimmed non-empty Location, or nothing |
| Networking.ParseContentLength | src/NetworkLimits.cpp:35-54 | Exact below 2^64, refused from there on and for anything but digits |
| Networking.ValidateBodyBudget | src/NetworkLimits.cpp:111-125 | Accepts exactly when headers fit, at most one length is declared, and both it and the body are within the budget |
| Networking.NextRedirect | src/NetworkRequest.cpp:183-201 | The next hop is the resolved Location exactly when it is allowed from the current URL, unvisited, and within the limit |
| Networking.ChainGrows | src/NetworkRequest.cpp:183-201 | A chain of hops stays in scope, without repetition, and never falls back from https |
| Networking.BoundedFile.Write | src/NetworkRequest.cpp:34-46 | Refuses exactly the writes that would outgrow the limit, and leaves the file as it was then |
| Networking.RestoreFileSize | src/NetworkRequest.cpp:211-223 | Success means the file is cut to that length and positioned at its end |
| Networking.RequestOnce | src/NetworkRequest.cpp:321-386 | An answered request went to this URL and appended exactly the body of its exchange; a rejected one left the file as before wherever the code restores it |
| Networking.CheckAnswer | src/NetworkRequest.cpp:357-386 | No error exactly when headers, limit, body budget and effective URL are all in order |
| Networking.SettleAnswer | src/NetworkRequest.cpp:387-439 | An answer is followed only along an allowed unvisited hop within the limit, starts over only a resumed download and from an empty file, or ends it; the file's contents in every case, a refused redirect included |
| Networking.TakeHop | src/NetworkRequest.cpp:321-445 | One turn of the redirect loop: at most one request, to this URL; the file after it in every case; without faults a whole answer to a download from scratch ends it |
| Networking.FetchTextWithRedirects | src/NetworkRequest.cpp:239-300 | At most maxRedirects + 1 requests along a safe chain; success exactly when the last exchange answers with 200 within its budgets, and then the text is its body |
| Networking.DownloadWithRedirects | src/NetworkRequest.cpp:302-445 | At most maxRedirects + 2 requests along a safe chain; never more than the signed size; success is the kept contents (all, or none after a restart or a hop) plus exactly the body of the last exchange, which went to the reported URL and had the reported status; restoring failures give back the file before the request; a refused redirect leaves a resumed file empty and any other as it was; without faults a download from scratch that is answered in full succeeds with one request |
| DownloadResume.Coordinator.Initialize | src/DownloadExecutor.cpp:174-192 | Starts with what the store shows for the requested keys, and fails only where the store does |
| DownloadResume.Coordinator.Load | src/DownloadExecutor.cpp:194-216 | Reads what the directly updated store would hold |
| DownloadResume.Coordinator.Save | src/DownloadExecutor.cpp:218-233 | Updates the reference, keeping pending upserts and clears disjoint |
| DownloadResume.Coordinator.Clear | src/DownloadExecutor.cpp:235-250 | Updates the reference, keeping pending upserts and clears disjoint |
| DownloadResume.Coordinator.Flush | src/DownloadExecutor.cpp:252-269 | Success means the store itself shows the reference contents and none of the cleared keys, whether or not they were initialized; failure, which only a faulty store gives, keeps what is pending |
| DownloadResume.AppliedIsVisible | src/DownloadResumeStore.h:35-40 | Pruning, then clears, then upserts: what a later load sees |
| DownloadResume.RunOperations | src/DownloadExecutor.cpp:168-278 | For every sequence of calls on initialized keys the loads are those of a store updated directly, and a successful flush leaves its contents |
| Downloads.CheckBudgets | src/DownloadExecutor.cpp:285-297 | The exact total, or a refusal when a file or the total is over its limit |
| Downloads.Aggregate | src/DownloadExecutor.cpp:534-546 | Whatever the adapter reports, the aggregate never exceeds the total |
| Downloads.OpenTemporary | src/DownloadExecutor.cpp:426-528 | The temporary is never longer than the file, and empty unless it is resumed at its full length |
| Downloads.AfterTransfer | src/DownloadExecutor.cpp:607-747 | Published only with the declared size and digest; otherwise discarded |
| Downloads.PublishVerified | src/DownloadExecutor.cpp:692-736 | Success means the final name holds the verified bytes, also after a reconciled failure |
| Downloads.DownloadFile | src/DownloadExecutor.cpp:348-762 | With or without resuming, only this file's two names change, the final one at most to verified contents; success means verified, marked for removal from the resume store, and the temporary name empty unless the file was staged already, and then nothing changed; at most (maxRetries + 1)(maxRedirects + 2) requests; without faults and with nothing to resume an honest server makes it succeed |
| Downloads.DownloadAll | src/DownloadExecutor.cpp:345-765 | After the loop over the files each of them is staged exactly if the downloads that touch its name leave it there, and progress is the exact total |
| Downloads.AllStagedMeansNothingLost | src/DownloadExecutor.cpp:345-765 | Where downloads of one name agree, every file ends up staged exactly when each later download whose temporary has the name of an earlier file is already staged at its turn |
| Downloads.AgreeingNamesLoseNothing | src/DownloadExecutor.cpp:48-50 | Where names, as the file system tells them apart, do not clash, nothing is lost, whatever was staged before |
| Downloads.LoseStagedFile | src/DownloadExecutor.cpp:282-782 | From an empty staging directory, a first download named like the second one's temporary: whenever the run reports success the first file is gone and the second is verified, and without faults and with an honest server it reports success |
| Downloads.ClashIsLost | src/DownloadExecutor.cpp:48-50 | Of two files in that order the first is lost exactly when the second was not staged before |
| Downloads.CaseDecides | src/default/RootedFileSystemWindows.cpp:165-186 | a.download clashes with a everywhere; A.download followed by a loses a file exactly where the file system ignores the case of that letter |
| Downloads.LosingRun | src/DownloadExecutor.cpp:282-782 | A complete run of a.download and then a, with every input given: it succeeds, and the first file is not staged |
| Downloads.ExecuteDownloads | src/DownloadExecutor.cpp:282-782 | With or without resuming, and by names as the file system tells them apart: after success every planned file is staged with its declared size and digest if and only if downloads of one name ask for the same contents and no file is named like the temporary of a later download that still has to run; the same file by file; no resume record is left; progress ends at the exact total and never exceeds it; without faults, and with a server that has the files, it succeeds |
| Planner.BuildLocalSnapshot | src/LocalSnapshotBuilder.cpp:7-58 | One truthful record for every target, and for nothing else; fails only where reading does |
| Planner.IndexSnapshot | src/UpdatePlanner.cpp:147-158 | Every record can be found by its key; an unmanageable path is refused |
| Planner.SnapshotDecides | src/UpdatePlanner.cpp:172-174 | With collision-free targets and a truthful snapshot the lookup decides whether the installed digest differs |
| Planner.PlanFiles | src/UpdatePlanner.cpp:161-201 | Downloads and replacements are exactly the files whose installed digest differs, in manifest order |
| Planner.PlanRemovals | src/UpdatePlanner.cpp:204-217 | One removal for each listed path, or a refusal for a path outside the rules |
| Planner.PlanUpdate | src/UpdatePlanner.cpp:98-219 | Decides exactly when targets, authorization and paths allow, offers an update exactly when the versions do, and lists the incremental operations |
| Planner.IncrementalMeansFull | src/UpdatePlanner.cpp:147-219 | Carrying the list out leaves every manifest file with its declared digest, every removed path absent and every other path unchanged |
| Updates.PlanIsAccepted | src/ApplyPlanWriter.cpp:147-156 | For a parsed manifest, the plan of an authorized update is acceptable to writer and executor exactly when its operations, bounded as two lists in the manifest, are not too many as one |
| Updates.PlannedDisjoint | src/UpdatePlanner.cpp:161-217 | The targets of the plan are disjoint because the manifest's are |
| Updates.ManifestPathsAgree | src/Manifest.cpp:327-337 | Where the file system ignores no more than ASCII case, the manifest's source check makes downloads of one name agree |
| Updates.WritePlan | src/ApplyPlanWriter.cpp:141-240 | A plan is written only if it can be read back, under its own name in the staging directory, over whatever is there |
| Updates.PlanTakesFile | src/ApplyPlanWriter.cpp:260-265 | A source named apply-plan.json does not outlive the plan, unless the plan's text has its digest |
| Updates.ApartIsKept | src/Updater.cpp:783-803 | Names that clash neither with a later temporary nor with the plan are all kept |
| Updates.KeptMeansVerified | src/Updater.cpp:783-803 | All downloads are verified after the plan was written exactly if each outlives the later downloads and the plan |
| Updates.StagedIsReady | updater/ApplyExecutor.cpp:1099-1140 | With all downloads verified and room for backups, every operation of the plan is ready for the executor |
| Updates.StagedIsVerified | updater/ApplyExecutor.cpp:1099-1140 | If the executor finds a source for every operation, every download was verified |
| Updates.Prepare | src/Updater.cpp:766-822 | A plan is handed over only for an offered update, as planned and acceptable; exactly the lists that are kept in staging are then verified; without faults and with an honest server an offered, acceptable update is prepared |
| Updates.Apply | updater/ApplyExecutor.cpp:2139-2222 | Settled in every case; without faults the plan is installed if all downloads are verified, and otherwise everything is put back |
| Updates.SettledMeansUpdated | src/UpdatePlanner.cpp:161-217 | A settled tree is restored or holds the whole manifest, none of the removed paths, and the rest unchanged |
| Updates.Update | src/Updater.cpp:766-1199 | From check to installed files: whatever fails, once nothing is active the tree is as it was or wholly updated to the manifest; if the executor meets no fault it is updated exactly when no download is lost to a later temporary or to the plan; without faults and with an honest server every offered, acceptable update gets to the executor |

## Left out

- Text byte budgets of plans, journal files and receipts, JSON lexing and container limits beyond the two arrays of a plan: lexical work with easy properties.
- PlanJson.ValidateApplyPlanResources: the byte budgets of texts inside a plan are among them.
- SHA-256, signatures, TLS and URL parsing: digests and parsed URLs are values or parameters, and file contents in the apply protocol are their evidence.
- InstallState.TargetStep: paths of the install tree and of the backups are compared by their text; on a file system that ignores case a tree is to be read as one spelling per file, which the topology check ensures within a plan for ASCII letters.
- Platform handles, directory durability, locks and the physical overlap of staging, backup and install directories: a write publishes or not, a commit may leave the gap, and nobody else edits the managed tree.
- Error texts, codes and phases: only whether an error is recorded is kept, so normalizing stored errors is the identity here; checkpoint hooks are one of the ways a step can fail.
- Legacy summaries and receipts without a completion time: refused by the invariant; the branch of recover() that adds a missing time, and every other branch the invariant rules out, is not modelled.
- InstallState.LaunchStep: counts requests to the launcher, not processes.
- InstallRoots.InstallRoot.CommitTarget: temporary files are values, so their cleanup after a failure is not modelled.
- Execution.ExecuteApplyPlan: the fresh transaction id is a parameter, and success for a fresh install assumes it is not in use.
- Rollbacks.UndoIsReady: assumes the undo directory is empty for these targets or already holds what undoing would put there, as the executor refuses any other backup; Execution.UndoAhead derives it for a fresh directory.
- Updaters.Updater.Deliver: reads the two flags of a ready callback in one step.
- Updaters.Updater.Start: the overflow notification, cancellation tokens and the periodic timer are left out.
- Health confirmation, reconciliation of a pending update with a completed rollback (src/Updater.cpp:419-558) and rollbackLastUpdate: flat comparisons; they appear as changes of the persisted pending update while no task runs, and as clearing it at the start of a check.
- Networking.BoundedFile.Write: models writes at the end of the file only, because adapters append; seeking and reading through the bounded view are left out.
- DownloadResume.RunOperations: models stores with the batch capability; stores without it are called directly, and eviction beyond the store's entry limit is left out.
- Planner.PlanUpdate: identity, time and URL checks of the manifest against the configuration enter as one answer.
- Manifest parsing, the durable publication of the plan file, the launcher, the Qt adapter, the command line, and the Python evidence and release tools: easy members or input and output.
