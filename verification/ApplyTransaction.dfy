/**
  The write-ahead protocol of one transaction (updater/ApplyExecutor.cpp,
  class ApplyTransaction), over an install root whose every operation may fail
  or be the last one before a crash.
*/
module ApplyTransactions {
  import opened Wrappers
  import opened Plans
  import opened Timestamps
  import opened Journal
  import opened InstallState
  import opened InstallRoots

  // ---------- facts about one operation ----------

  /** The record preparation leaves behind. */
  predicate PreparedRecord(b: Option<File>, o: Operation, r: OperationRecord) {
    && r.error.Empty()
    && (if Idempotent(b, o) then r.rollbackState == RollbackNotRequired
        else r.applyState == ApplyPending && r.rollbackState == RollbackNotStarted)
  }

  ghost predicate PreparedAt(s: Setting, d: Durable, base: Tree, t: string, plan: Plan, i: nat)
    requires i < |plan.operations|
  {
    && OpOkAt(s, d, base, t, plan, i)
    && PreparedRecord(Lookup(base, plan.operations[i].target), plan.operations[i], d.records[(t, i)])
  }

  /** The staging directory holds what operation `i` installs. */
  predicate Staged(d: Durable, plan: Plan, i: nat)
    requires i < |plan.operations|
  {
    var o := plan.operations[i];
    o.kind == Replace && !Idempotent(Lookup(d.tree, o.target), o) ==>
      MatchesEvidence(Lookup(d.store, (plan.stagingDir, o.source)), o.size, o.sha256)
  }

  ghost predicate AllStaged(d: Durable, plan: Plan) {
    forall i: nat :: i < |plan.operations| ==> Staged(d, plan, i)
  }

  /** The file operation `i` expects to find is there. */
  predicate Expected(tree: Tree, plan: Plan, i: nat)
    requires i < |plan.operations|
  {
    var o := plan.operations[i];
    o.precondition.Some? ==> MatchesPrecondition(Lookup(tree, o.target), o.precondition.value)
  }

  ghost predicate AllExpected(tree: Tree, plan: Plan) {
    forall i: nat :: i < |plan.operations| ==> Expected(tree, plan, i)
  }

  /** What preparation and application of operation `i` need in order not to fail. */
  predicate Ready(d: Durable, plan: Plan, i: nat)
    requires i < |plan.operations|
  {
    var o := plan.operations[i];
    var f := Lookup(d.tree, o.target);
    && Expected(d.tree, plan, i)
    && (f.Some? && !Idempotent(f, o) && (plan.backupDir, o.target) in d.store ==>
          Restores(Some(d.store[(plan.backupDir, o.target)]), f))
    && Staged(d, plan, i)
  }

  ghost predicate AllReady(s: Setting, d: Durable, plan: Plan) {
    && (forall i: nat :: i < |plan.operations| ==> Ready(d, plan, i))
    && BackupBudgetOk(d.tree, plan, s.limits)
  }

  /** Only the record and the target of one operation differ. */
  ghost predicate OnlyOperation(d: Durable, e: Durable, t: string, i: nat, path: string) {
    && e == d.(tree := e.tree, records := e.records)
    && (forall k :: k != (t, i) ==> Lookup(e.records, k) == Lookup(d.records, k))
    && (forall q :: q != path ==> Lookup(e.tree, q) == Lookup(d.tree, q))
  }

  lemma OnlyOperationTransitive(d: Durable, e: Durable, g: Durable, t: string, i: nat, path: string)
    requires OnlyOperation(d, e, t, i, path) && OnlyOperation(e, g, t, i, path)
    ensures OnlyOperation(d, g, t, i, path)
  {
  }

  lemma OnlyRecord(d: Durable, e: Durable, r: OperationRecord, path: string)
    requires e == d || e == PutRecord(d, r)
    ensures OnlyOperation(d, e, r.transactionId, r.index, path)
  {
  }

  lemma OnlyTarget(d: Durable, e: Durable, g: Durable, t: string, i: nat, path: string, f: Option<File>)
    requires OnlyOperation(d, e, t, i, path) && (g == e || g == PutTarget(e, path, f) || g == PutTarget(e, path, None))
    ensures OnlyOperation(d, g, t, i, path)
  {
  }

  /** A file the record cannot tell from the original is the original, up to identity. */
  lemma OriginalIsRestored(f: Option<File>, b: Option<File>, o: Operation, r: OperationRecord, k: Option<File>)
    requires OpOk(f, b, o, r, k) && MatchesOriginal(f, r)
    ensures Restores(f, b)
  {
  }

  lemma PreparedElsewhere(s: Setting, d: Durable, e: Durable, base: Tree, t: string, plan: Plan, i: nat, j: nat)
    requires Accepted(plan, s.limits) && i < |plan.operations| && j < |plan.operations| && i != j
    requires OnlyOperation(d, e, t, i, plan.operations[i].target)
    requires PreparedAt(s, d, base, t, plan, j)
    ensures PreparedAt(s, e, base, t, plan, j)
  {
    TargetsDiffer(plan, s.limits, i, j);
    assert Lookup(e.records, (t, j)) == Lookup(d.records, (t, j));
  }

  lemma AppliedElsewhere(s: Setting, d: Durable, e: Durable, base: Tree, t: string, plan: Plan, i: nat, j: nat)
    requires Accepted(plan, s.limits) && i < |plan.operations| && j < |plan.operations| && i != j
    requires OnlyOperation(d, e, t, i, plan.operations[i].target)
    requires AppliedAt(s, d, d.tree, base, t, plan, j)
    ensures AppliedAt(s, e, e.tree, base, t, plan, j)
  {
    TargetsDiffer(plan, s.limits, i, j);
    assert Lookup(e.records, (t, j)) == Lookup(d.records, (t, j));
  }

  lemma RestoredElsewhere(d: Durable, e: Durable, base: Tree, t: string, s: Setting, plan: Plan, i: nat, j: nat)
    requires Accepted(plan, s.limits) && i < |plan.operations| && j < |plan.operations| && i != j
    requires OnlyOperation(d, e, t, i, plan.operations[i].target)
    requires RestoredAt(d.tree, base, plan, j)
    ensures RestoredAt(e.tree, base, plan, j)
  {
    TargetsDiffer(plan, s.limits, i, j);
  }

  lemma FailedRecordFits(s: Setting, d: Durable, h: History, i: nat, r: OperationRecord)
    requires CanWriteRecord(s, d, h, i, r)
    ensures CanWriteRecord(s, d, h, i, r.(error := FAILURE))
  {
    hide Lookup;
  }

  /** With a durable intent record every outcome of the commit is one the journal accounts for. */
  lemma CommitFits(s: Setting, d: Durable, h: History, i: nat, r: OperationRecord, f: Option<File>)
    requires CanWriteRecord(s, d, h, i, r) && r.applyState == ApplyPending
    requires var t := d.active.value.transactionId;
             d.summaries[t].fileState == Applying && InstalledImage(f, d.plans[t].operations[i])
    ensures var t := d.active.value.transactionId;
            var path, intent := d.plans[t].operations[i].target, r.(applyState := ApplyIntent);
            var e := PutRecord(d, intent);
            && !MatchesInstalled(Lookup(d.tree, path), d.plans[t].operations[i])
            && CanWriteRecord(s, d, h, i, intent) && CanWriteRecord(s, e, h, i, intent)
            && CanSetTarget(s, e, h, i, f) && CanWriteRecord(s, PutTarget(e, path, f), h, i, intent)
            && (r.originalExists && d.plans[t].operations[i].kind == Replace ==>
                  CanSetTarget(s, e, h, i, None) && CanWriteRecord(s, PutTarget(e, path, None), h, i, intent))
  {
    hide SetFile, ValidOperationRecord, IsLowerHexSha256;
    assert ValidOperationRecord(r.(applyState := ApplyIntent)) by { ApplyStateFits(r); }
  }

  lemma ApplyStateFits(r: OperationRecord)
    requires ValidOperationRecord(r)
    ensures forall a :: ValidOperationRecord(r.(applyState := a))
  {
  }

  /** Completing an operation whose target is as the plan installs it. */
  lemma CompletionFits(s: Setting, d: Durable, h: History, i: nat, r: OperationRecord, identity: string)
    requires CanWriteRecord(s, d, h, i, r) && r.applyState == ApplyIntent && r.rollbackState == RollbackNotStarted
    requires var o := d.plans[d.active.value.transactionId].operations[i]; InstalledImage(Lookup(d.tree, o.target), o)
    ensures var t := d.active.value.transactionId;
            var done := r.(installedIdentity := identity, applyState := ApplyComplete, error := NO_ERROR);
            && CanWriteRecord(s, d, h, i, done) && CanWriteRecord(s, PutRecord(d, done), h, i, done)
            && AppliedAt(s, PutRecord(d, done), d.tree, h.bases[t], t, d.plans[t], i)
  {
    hide Lookup, IsLowerHexSha256;
  }

  /** The record as read back is one that may be written again. */
  lemma ReadRecordFits(s: Setting, d: Durable, h: History, t: string, plan: Plan, i: nat)
    requires Inv(s, d, h) && d.active == Some(ReceiptOf(s, t, plan)) && t in d.plans && d.plans[t] == plan
    requires t in d.summaries && t in h.bases && i < |plan.operations|
    requires d.summaries[t].fileState !in {FilesApplied, Complete}
    ensures (t, i) in d.records && CanWriteRecord(s, d, h, i, d.records[(t, i)])
    ensures OpOkAt(s, d, h.bases[t], t, plan, i)
  {
    hide JournalOk, TerminalPart, RestartsOk, LastSettled, GoodSetting;
    hide OpOk, Lookup, ValidOperationRecord, Accepted, BackupBudgetOk, AppliedAt;
    assert OpOkAt(s, d, h.bases[t], t, plan, i);
  }

  /** Between preparation and application nothing moved, so the checks of applyOne pass. */
  lemma PreparedPasses(f: Option<File>, b: Option<File>, o: Operation, r: OperationRecord, k: Option<File>)
    requires OpOk(f, b, o, r, k) && PreparedRecord(b, o, r)
    ensures f == b && MatchesOriginal(f, r) && (r.originalExists ==> f.value.identity == r.originalIdentity)
    ensures Idempotent(b, o) ==>
              && r.applyState == ApplyComplete && r.rollbackState == RollbackNotRequired
              && AppliedOp(f, b, o, r, k)
    ensures !Idempotent(b, o) ==>
              && r.applyState == ApplyPending && r.rollbackState == RollbackNotStarted
              && (r.originalExists ==> r.backupState == BackupDurable) && (o.kind == Remove ==> r.originalExists)
  {
  }

  // ---------- rolling back ----------

  /** A target that is not the original can only be what this transaction put there. */
  lemma RollbackPasses(f: Option<File>, b: Option<File>, o: Operation, r: OperationRecord, k: Option<File>)
    requires OpOk(f, b, o, r, k) && !MatchesOriginal(f, r)
    ensures r.applyState != ApplyPending
    ensures MatchesInstalled(f, o) || InGap(f, b, o)
    ensures r.originalExists ==> r.backupState == BackupDurable && k.Some? && VerifiesOriginal(k.value, r)
    ensures r.originalExists == b.Some? && (!r.originalExists ==> f.Some?)
    ensures r.originalExists && f.Some? ==> o.kind == Replace
    ensures !Idempotent(b, o)
  {
  }

  function WithRollback(r: OperationRecord, state: RollbackState): OperationRecord {
    r.(rollbackState := state, error := NO_ERROR)
  }

  /** Rollback progress says nothing about the original. */
  lemma RollbackRecordFits(s: Setting, d: Durable, h: History, i: nat, r: OperationRecord, state: RollbackState)
    requires CanWriteRecord(s, d, h, i, r)
    ensures CanWriteRecord(s, d, h, i, r.(rollbackState := state)) && CanWriteRecord(s, d, h, i, WithRollback(r, state))
    ensures CanWriteRecord(s, PutRecord(d, WithRollback(r, state)), h, i, WithRollback(r, state))
    ensures forall f :: MatchesOriginal(f, WithRollback(r, state)) == MatchesOriginal(f, r)
  {
    hide Lookup, IsLowerHexSha256;
  }

  lemma OpDescribes(f: Option<File>, b: Option<File>, o: Operation, r: OperationRecord, k: Option<File>)
    requires OpOk(f, b, o, r, k)
    ensures Describes(r, b)
  {
  }

  /** A record that may be written, over a target it takes for the original: the target is restored. */
  lemma WrittenOriginalIsRestored(s: Setting, d: Durable, h: History, i: nat, r: OperationRecord)
    requires CanWriteRecord(s, d, h, i, r)
    requires MatchesOriginal(Lookup(d.tree, d.plans[d.active.value.transactionId].operations[i].target), r)
    ensures var t := d.active.value.transactionId; RestoredAt(d.tree, h.bases[t], d.plans[t], i)
  {
    hide OpOk, MatchesOriginal, Restores, Lookup, ValidOperationRecord;
    var t := d.active.value.transactionId;
    var o := d.plans[t].operations[i];
    OriginalIsRestored(Lookup(d.tree, o.target), Lookup(h.bases[t], o.target), o, r,
                       Lookup(d.store, (d.plans[t].backupDir, o.target)));
  }

  /** The two cases rollbackOne tells apart. */
  lemma RollbackCases(f: Option<File>, b: Option<File>, o: Operation, r: OperationRecord, k: Option<File>)
    requires OpOk(f, b, o, r, k)
    ensures Restores(f, b) <==> MatchesOriginal(f, r)
    ensures !MatchesOriginal(f, r) ==>
              && r.applyState != ApplyPending
              && (MatchesInstalled(f, o)
                  || (r.originalExists && f.None? && o.kind == Replace && r.backupState == BackupDurable))
  {
    hide OpOk, MatchesOriginal, Restores;
    OpDescribes(f, b, o, r, k);
    if Restores(f, b) { RestoresMatchesOriginal(f, b, r); }
    if MatchesOriginal(f, r) { OriginalIsRestored(f, b, o, r, k); } else { RollbackPasses(f, b, o, r, k); }
  }

  /** The copy of a verified backup, under a new identity. */
  function Copy(f: File, identity: string): File
    requires identity != ""
  {
    FileImage(identity, f.size, f.sha256, f.permissions)
  }

  /** Putting the original back, or leaving the gap on the way, is allowed by every record past Pending. */
  lemma RestoreFits(
    f: Option<File>, b: Option<File>, o: Operation, r: OperationRecord, k: Option<File>, identity: string)
    requires OpOk(f, b, o, r, k) && !MatchesOriginal(f, r) && identity != ""
    ensures r.originalExists && k.Some? ==>
              OpOk(Some(Copy(k.value, identity)), b, o, r, k) && MatchesOriginal(Some(Copy(k.value, identity)), r)
    ensures !r.originalExists || f.Some? ==> OpOk(None, b, o, r, k)
    ensures !r.originalExists ==> MatchesOriginal(None, r)
  {
  }

  lemma RestoreSteps(s: Setting, d: Durable, h: History, i: nat, r: OperationRecord, identity: string)
    requires CanWriteRecord(s, d, h, i, r) && identity != ""
    requires var t := d.active.value.transactionId;
             && d.summaries[t].fileState == RollingBack && (t, i) in d.records && d.records[(t, i)] == r
             && !MatchesOriginal(Lookup(d.tree, d.plans[t].operations[i].target), r)
    ensures var plan := d.plans[d.active.value.transactionId];
            var path := plan.operations[i].target;
            var k := Lookup(d.store, (plan.backupDir, path));
            && (r.originalExists ==>
                  && r.backupState == BackupDurable && k.Some? && VerifiesOriginal(k.value, r)
                  && var f := Some(Copy(k.value, identity));
                     && CanSetTarget(s, d, h, i, f) && CanWriteRecord(s, PutTarget(d, path, f), h, i, r)
                     && MatchesOriginal(f, r))
            && (!r.originalExists || path in d.tree ==>
                  CanSetTarget(s, d, h, i, None) && CanWriteRecord(s, PutTarget(d, path, None), h, i, r))
            && (!r.originalExists ==> MatchesOriginal(None, r))
  {
    hide OpOk, ValidOperationRecord, MatchesOriginal, SetFile, VerifiesOriginal;
    var t := d.active.value.transactionId;
    var o := d.plans[t].operations[i];
    var f, b, k :=
      Lookup(d.tree, o.target), Lookup(h.bases[t], o.target), Lookup(d.store, (d.plans[t].backupDir, o.target));
    RollbackPasses(f, b, o, r, k);
    RestoreFits(f, b, o, r, k, identity);
  }

  lemma AllNamed(s: Setting, d: Durable, h: History, t: string, plan: Plan)
    requires Inv(s, d, h) && d.active == Some(ReceiptOf(s, t, plan)) && t in d.plans && d.plans[t] == plan
    requires t in d.summaries && t in h.bases
    ensures forall i: nat :: i < |plan.operations| ==> NamedRecord(s, d, t, plan, i)
  {
    hide JournalOk, TerminalPart, RestartsOk, LastSettled, GoodSetting;
    hide OpOk, Lookup, ValidOperationRecord, Accepted, BackupBudgetOk, AppliedAt;
    forall i: nat | i < |plan.operations| ensures NamedRecord(s, d, t, plan, i) {
      assert OpOkAt(s, d, h.bases[t], t, plan, i);
    }
  }

  lemma RolledBackTargets(s: Setting, d: Durable, h: History, t: string, plan: Plan)
    requires Inv(s, d, h) && d.active == Some(ReceiptOf(s, t, plan)) && t in d.plans && d.plans[t] == plan
    requires t in d.summaries && t in h.bases
    ensures d.summaries[t].fileState == RolledBack ==>
              forall i: nat :: i < |plan.operations| ==> RestoredAt(d.tree, h.bases[t], plan, i)
  {
    hide JournalOk, TerminalPart, RestartsOk, LastSettled, GoodSetting;
    hide OpOkAt, Lookup, Accepted, BackupBudgetOk, AppliedAt, RestoredAt;
  }

  lemma RollbackKeepsRest(d: Durable, e: Durable, base: Tree, t: string, s: Setting, plan: Plan, i: nat)
    requires Accepted(plan, s.limits) && i < |plan.operations|
    requires OnlyOperation(d, e, t, i, plan.operations[i].target)
    ensures forall j: nat :: j < |plan.operations| && j != i && RestoredAt(d.tree, base, plan, j) ==>
              RestoredAt(e.tree, base, plan, j)
  {
    forall j: nat | j < |plan.operations| && j != i && RestoredAt(d.tree, base, plan, j)
      ensures RestoredAt(e.tree, base, plan, j)
    {
      RestoredElsewhere(d, e, base, t, s, plan, i, j);
    }
  }

  // ---------- checking an applied transaction ----------

  /** What verifyAppliedState demands of one operation. */
  predicate AppliedChecks(f: Option<File>, o: Operation, r: OperationRecord, k: Option<File>) {
    && r.applyState == ApplyComplete && r.error.Empty() && MatchesInstalled(f, o)
    && (if r.originalExists then
          || (r.backupState == BackupNotRequired && r.rollbackState == RollbackNotRequired && MatchesOriginal(f, r))
          || (r.backupState == BackupDurable && k.Some? && VerifiesOriginal(k.value, r))
        else r.backupState == BackupNotRequired)
  }

  predicate AppliedChecksAt(d: Durable, t: string, plan: Plan, i: nat)
    requires i < |plan.operations| && (t, i) in d.records
  {
    var o := plan.operations[i];
    AppliedChecks(Lookup(d.tree, o.target), o, d.records[(t, i)], Lookup(d.store, (plan.backupDir, o.target)))
  }

  lemma AppliedPasses(f: Option<File>, b: Option<File>, o: Operation, r: OperationRecord, k: Option<File>)
    requires AppliedOp(f, b, o, r, k)
    ensures AppliedChecks(f, o, r, k)
  {
    if Restores(f, b) { RestoresMatchesOriginal(f, b, r); }
  }

  lemma AppliedPassesAt(s: Setting, d: Durable, base: Tree, t: string, plan: Plan)
    requires AllApplied(s, d, d.tree, base, t, plan)
    ensures forall i: nat :: i < |plan.operations| ==>
              NamedRecord(s, d, t, plan, i) && (t, i) in d.records && AppliedChecksAt(d, t, plan, i)
  {
    forall i: nat | i < |plan.operations| ensures NamedRecord(s, d, t, plan, i) && AppliedChecksAt(d, t, plan, i) {
      hide AppliedOp, AppliedChecks, ValidOperationRecord;
      assert AppliedAt(s, d, d.tree, base, t, plan, i);
      var o := plan.operations[i];
      AppliedPasses(Lookup(d.tree, o.target), Lookup(base, o.target), o, d.records[(t, i)],
                    Lookup(d.store, (plan.backupDir, o.target)));
    }
  }

  // ---------- summaries ----------

  /** Everything but the target tree, the operation records and the journal pointers stays. */
  ghost predicate Concluding(d: Durable, e: Durable) {
    && e == d.(tree := e.tree, records := e.records, summaries := e.summaries,
               active := e.active, terminal := e.terminal)
    && (e.active == d.active || e.active.None?)
  }

  /** A valid summary may replace the durable one if it keeps restart, completion and file promises. */
  lemma SummaryFits(s: Setting, d: Durable, h: History, t: string, plan: Plan, sum: Summary)
    requires Inv(s, d, h) && d.active == Some(ReceiptOf(s, t, plan)) && t in d.plans && d.plans[t] == plan
    requires t in d.summaries && t in h.bases && SummaryOk(s, sum, t, plan)
    requires StatePromise(s, d, h.bases[t], t, plan, sum.fileState)
    requires RestartBegun(d.summaries[t].restartState) ==> RestartBegun(sum.restartState)
    requires RestartBegun(sum.restartState) ==> sum.fileState in {FilesApplied, Complete}
    requires d.summaries[t].fileState == Complete ==>
               sum.fileState == Complete && sum.completedAt == d.summaries[t].completedAt
    ensures CanWriteSummary(s, d, h, sum)
  {
    hide GoodSetting, JournalOk, ActivePart, RestartsOk, LastSettled, StatePromise, ValidSummaryRecord, AllApplied;
  }

  /** The promise of the durable file state. */
  lemma DurablePromise(s: Setting, d: Durable, h: History, t: string, plan: Plan)
    requires Inv(s, d, h) && d.active == Some(ReceiptOf(s, t, plan)) && t in d.plans && d.plans[t] == plan
    requires t in d.summaries && t in h.bases
    ensures StatePromise(s, d, h.bases[t], t, plan, d.summaries[t].fileState)
    ensures SummaryOk(s, d.summaries[t], t, plan)
  {
    hide GoodSetting, TerminalPart, RestartsOk, LastSettled, StatePromise, SummaryOk, OpOkAt;
  }

  lemma NoIntentYet(s: Setting, d: Durable, h: History, t: string)
    requires Inv(s, d, h) && t in d.summaries
    ensures t in h.intents <==> RestartBegun(d.summaries[t].restartState)
    ensures t !in h.intents ==> t !in h.launches
  {
    hide GoodSetting, TerminalPart, ActivePart, LastSettled, JournalOk, AllInstalled;
  }

  lemma SummaryNames(s: Setting, sum: Summary, t: string, plan: Plan)
    requires SummaryOk(s, sum, t, plan)
    ensures sum.transactionId == t && sum.operationCount == |plan.operations|
  {
  }

  // ---------- completion ----------

  function CompletedWith(sum: Summary, now: Instant): Summary {
    sum.(fileState := Complete, completedAt := Some(now))
  }

  /** Whether `sum` would be a valid summary once completed does not depend on the time. */
  lemma AnyTimeCompletes(s: Setting, sum: Summary, t: string, plan: Plan, now: Instant)
    requires SummaryOk(s, CompletedWith(sum, Instant(0, 0)), t, plan) && InRange(now)
    ensures SummaryOk(s, CompletedWith(sum, now), t, plan)
  {
  }

  function WithRestart(sum: Summary, state: RestartState, error: JournalError): Summary {
    sum.(restartState := state, restartError := error)
  }

  /** The summaries of a restart: its intent, and either outcome. */
  lemma RestartFits(s: Setting, sum: Summary, t: string, plan: Plan)
    requires SummaryOk(s, sum, t, plan) && sum.fileState == FilesApplied && sum.restartState == NotAttempted
    ensures sum.transactionId == t && SummaryOk(s, WithRestart(sum, RestartIntent, NO_ERROR), t, plan)
    ensures SummaryOk(s, CompletedWith(WithRestart(sum, RestartFailed, FAILURE), Instant(0, 0)), t, plan)
    ensures SummaryOk(s, CompletedWith(WithRestart(sum, Launched, NO_ERROR), Instant(0, 0)), t, plan)
  {
    hide IsLowerHexSha256;
  }

  /** Only the summary and the journal pointers differ; the launcher may have been asked. */
  ghost predicate OnlyJournal(d: Durable, e: Durable, h: History, g: History) {
    && e == d.(summaries := e.summaries, active := e.active, terminal := e.terminal)
    && (e.active == d.active || e.active.None?)
    && g.bases == h.bases && g.last == h.last
  }

  /** The transaction is over and its receipt is the latest one. */
  predicate Published(d: Durable, t: string) {
    d.active.None? && d.terminal.Some? && d.terminal.value.transactionId == t
  }

  // ---------- preparing ----------

  function InitialRecord(
    t: string, i: nat, operationId: string, o: Operation, original: Option<File>): OperationRecord {
    var already := MatchesInstalled(original, o);
    var known := original.Some? && original.value.permissions.Some?;
    OperationRecord(
      t, i, operationId, o.kind,
      original.Some?,
      if original.Some? then original.value.identity else "",
      if original.Some? then original.value.size else 0,
      if original.Some? then original.value.sha256 else "",
      known, if known then original.value.permissions.value else 0,
      if original.Some? && !already then BackupIntent else BackupNotRequired,
      if already then ApplyComplete else ApplyPending,
      if already && original.Some? then original.value.identity else "",
      if already then RollbackNotRequired else RollbackNotStarted,
      NO_ERROR)
  }

  lemma InitialRecordIsGood(s: Setting, t: string, i: nat, o: Operation, original: Option<File>)
    requires GoodSetting(s) && IsLowerHexSha256(t)
    ensures var r := InitialRecord(t, i, s.operationId(t, i, o), o, original);
            && ValidOperationRecord(r) && Describes(r, original) && PreparedRecord(original, o, r)
            && ValidOperationRecord(r.(backupState := BackupDurable))
            && PreparedRecord(original, o, r.(backupState := BackupDurable))
  {
    hide IsLowerHexSha256;
    assert IsLowerHexSha256(s.operationId(t, i, o));
  }

  /** Only the record and the backup slot of one operation differ, and nothing stored is replaced. */
  ghost predicate OnlyPreparation(d: Durable, e: Durable, t: string, i: nat, slot: (string, string)) {
    && e == d.(records := e.records, store := e.store)
    && (forall k :: k != (t, i) ==> Lookup(e.records, k) == Lookup(d.records, k))
    && (forall k :: k != slot ==> Lookup(e.store, k) == Lookup(d.store, k))
    && (forall k :: k in d.store ==> k in e.store && e.store[k] == d.store[k])
  }

  lemma OnlyPreparationTransitive(d: Durable, e: Durable, g: Durable, t: string, i: nat, slot: (string, string))
    requires OnlyPreparation(d, e, t, i, slot) && OnlyPreparation(e, g, t, i, slot)
    ensures OnlyPreparation(d, g, t, i, slot)
  {
  }

  lemma OnlyPreparedRecord(d: Durable, e: Durable, r: OperationRecord, slot: (string, string))
    requires e == d || e == PutRecord(d, r)
    ensures OnlyPreparation(d, e, r.transactionId, r.index, slot)
  {
  }

  lemma StillStaged(d: Durable, e: Durable, t: string, plan: Plan, i: nat, slot: (string, string))
    requires OnlyPreparation(d, e, t, i, slot)
    ensures forall j: nat :: j < |plan.operations| && Staged(d, plan, j) ==> Staged(e, plan, j)
  {
  }

  lemma PreparationElsewhere(s: Setting, d: Durable, e: Durable, t: string, plan: Plan, i: nat, j: nat)
    requires Accepted(plan, s.limits) && i < |plan.operations| && j < |plan.operations| && i != j
    requires OnlyPreparation(d, e, t, i, (plan.backupDir, plan.operations[i].target))
    ensures PreparedAt(s, d, d.tree, t, plan, j) ==> PreparedAt(s, e, e.tree, t, plan, j)
    ensures Ready(d, plan, j) ==> Ready(e, plan, j)
  {
    StillStaged(d, e, t, plan, i, (plan.backupDir, plan.operations[i].target));
    hide Staged;
    TargetsDiffer(plan, s.limits, i, j);
    hide Accepted, OpOk, ValidOperationRecord, MatchesPrecondition, Restores, MatchesInstalled, PreparedRecord;
    assert Lookup(e.records, (t, j)) == Lookup(d.records, (t, j));
    var slot := (plan.backupDir, plan.operations[j].target);
    assert Lookup(e.store, slot) == Lookup(d.store, slot);
    assert slot in e.store ==> e.store[slot] == d.store[slot];
  }

  lemma {:induction false} BackupBytesMonotone(base: Tree, ops: seq<Operation>, k: nat)
    requires k <= |ops|
    ensures BackupBytes(base, ops[..k]) <= BackupBytes(base, ops)
  {
    if k == |ops| {
      assert ops[..k] == ops;
    } else {
      BackupBytesMonotone(base, ops[..|ops| - 1], k);
      assert ops[..|ops| - 1][..k] == ops[..k];
    }
  }

  lemma NextBackupBytes(base: Tree, ops: seq<Operation>, i: nat)
    requires i < |ops|
    ensures BackupBytes(base, ops[..i + 1]) == BackupBytes(base, ops[..i]) + BackupSize(base, ops[i])
  {
    assert ops[..i + 1][..i] == ops[..i];
  }

  predicate BudgetAllows(limits: Limits, spent: nat, size: nat) {
    size <= limits.maxArtifactBytes && spent + size <= limits.maxTotalArtifactBytes
  }

  /** A backup slot that is empty or already holds the original. */
  predicate SlotUsable(d: Durable, slot: (string, string), original: File) {
    slot in d.store ==> Restores(Some(d.store[slot]), Some(original))
  }

  lemma SettingIsGood(s: Setting, d: Durable, h: History)
    requires Inv(s, d, h)
    ensures GoodSetting(s)
  {
  }

  lemma SameTree(d: Durable, e: Durable, t: string, i: nat, slot: (string, string))
    requires OnlyPreparation(d, e, t, i, slot)
    ensures e.tree == d.tree && e == d.(records := e.records, store := e.store)
  {
  }

  lemma NoPreparation(d: Durable, t: string, i: nat, slot: (string, string))
    ensures OnlyPreparation(d, d, t, i, slot)
  {
  }

  lemma SlotStill(d: Durable, e: Durable, slot: (string, string), original: File)
    requires e.store == d.store
    ensures SlotUsable(d, slot, original) == SlotUsable(e, slot, original)
  {
  }

  lemma StoreOnlyGrew(d: Durable, e: Durable, t: string, i: nat, slot: (string, string))
    requires OnlyPreparation(d, e, t, i, slot)
    ensures forall k :: k in d.store ==> k in e.store && e.store[k] == d.store[k]
  {
  }

  /** The record left by a successful preparation, with its backup where one is needed. */
  lemma RecordMakesPrepared(s: Setting, d: Durable, t: string, plan: Plan, i: nat, durable: bool)
    requires GoodSetting(s) && IsLowerHexSha256(t) && i < |plan.operations| && (t, i) in d.records
    requires var o := plan.operations[i];
             var original := Lookup(d.tree, o.target);
             var r0 := InitialRecord(t, i, s.operationId(t, i, o), o, original);
             var slot := (plan.backupDir, o.target);
             && durable == (original.Some? && !MatchesInstalled(original, o))
             && d.records[(t, i)] == (if durable then r0.(backupState := BackupDurable) else r0)
             && (durable ==> slot in d.store && VerifiesOriginal(d.store[slot], r0))
    ensures PreparedAt(s, d, d.tree, t, plan, i)
  {
    hide IsLowerHexSha256, MatchesInstalled, GoodSetting;
    var o := plan.operations[i];
    InitialRecordIsGood(s, t, i, o, Lookup(d.tree, o.target));
    hide ValidOperationRecord, PreparedRecord;
  }

  /** Applying one operation disturbs neither what was applied nor what is still prepared. */
  lemma ApplicationElsewhere(s: Setting, d: Durable, e: Durable, base: Tree, t: string, plan: Plan, i: nat)
    requires Accepted(plan, s.limits) && i < |plan.operations|
    requires OnlyOperation(d, e, t, i, plan.operations[i].target)
    ensures forall j: nat :: j < |plan.operations| && j != i && PreparedAt(s, d, base, t, plan, j) ==>
              PreparedAt(s, e, base, t, plan, j)
    ensures forall j: nat :: j < |plan.operations| && j != i && AppliedAt(s, d, d.tree, base, t, plan, j) ==>
              AppliedAt(s, e, e.tree, base, t, plan, j)
    ensures forall j: nat :: j < |plan.operations| && j != i ==>
              (Staged(d, plan, j) <==> Staged(e, plan, j))
  {
    hide PreparedAt, AppliedAt, Accepted, MatchesInstalled, MatchesEvidence;
    forall j: nat | j < |plan.operations| && j != i
      ensures PreparedAt(s, d, base, t, plan, j) ==> PreparedAt(s, e, base, t, plan, j)
      ensures AppliedAt(s, d, d.tree, base, t, plan, j) ==> AppliedAt(s, e, e.tree, base, t, plan, j)
      ensures Staged(d, plan, j) <==> Staged(e, plan, j)
    {
      if PreparedAt(s, d, base, t, plan, j) { PreparedElsewhere(s, d, e, base, t, plan, i, j); }
      if AppliedAt(s, d, d.tree, base, t, plan, j) { AppliedElsewhere(s, d, e, base, t, plan, i, j); }
      TargetsDiffer(plan, s.limits, i, j);
    }
  }

  lemma AllPreparationElsewhere(s: Setting, d: Durable, e: Durable, t: string, plan: Plan, i: nat)
    requires Accepted(plan, s.limits) && i < |plan.operations|
    requires OnlyPreparation(d, e, t, i, (plan.backupDir, plan.operations[i].target))
    ensures forall j: nat :: j < |plan.operations| && j != i && PreparedAt(s, d, d.tree, t, plan, j) ==>
              PreparedAt(s, e, e.tree, t, plan, j)
    ensures forall j: nat :: j < |plan.operations| && j != i && Ready(d, plan, j) ==> Ready(e, plan, j)
    ensures AllStaged(d, plan) ==> AllStaged(e, plan)
  {
    StillStaged(d, e, t, plan, i, (plan.backupDir, plan.operations[i].target));
    hide PreparedAt, Accepted, Ready, Staged;
    forall j: nat | j < |plan.operations| && j != i
      ensures PreparedAt(s, d, d.tree, t, plan, j) ==> PreparedAt(s, e, e.tree, t, plan, j)
      ensures Ready(d, plan, j) ==> Ready(e, plan, j)
    {
      PreparationElsewhere(s, d, e, t, plan, i, j);
    }
  }

  /** The budget left for operation `i` when the plan as a whole fits. */
  lemma BudgetForEach(limits: Limits, base: Tree, plan: Plan, i: nat)
    requires BackupBudgetOk(base, plan, limits) && i < |plan.operations|
    ensures BudgetAllows(limits, BackupBytes(base, plan.operations[..i]), BackupSize(base, plan.operations[i]))
  {
    NextBackupBytes(base, plan.operations, i);
    BackupBytesMonotone(base, plan.operations, i + 1);
  }

  lemma StillPrepared(s: Setting, d: Durable, e: Durable, base: Tree, t: string, plan: Plan)
    requires e == d.(summaries := e.summaries, active := e.active)
    ensures forall i: nat :: i < |plan.operations| && PreparedAt(s, d, base, t, plan, i) ==>
              PreparedAt(s, e, base, t, plan, i)
    ensures forall i: nat :: i < |plan.operations| ==> (Staged(d, plan, i) <==> Staged(e, plan, i))
  {
    hide OpOk, ValidOperationRecord, PreparedRecord, MatchesEvidence, MatchesInstalled;
  }

  lemma StillReady(s: Setting, d: Durable, e: Durable, plan: Plan)
    requires e == d.(plans := e.plans, summaries := e.summaries) && AllReady(s, d, plan)
    ensures AllReady(s, e, plan)
  {
    hide BackupBudgetOk, MatchesEvidence, MatchesInstalled, MatchesPrecondition, Restores;
    forall i: nat | i < |plan.operations| ensures Ready(e, plan, i) {
      assert Ready(d, plan, i);
    }
  }

  lemma PreparedActivates(s: Setting, d: Durable, h: History, t: string, plan: Plan)
    requires Preparing(d, h, t, plan) && Accepted(plan, s.limits) && BackupBudgetOk(d.tree, plan, s.limits)
    requires t in d.summaries && d.summaries[t].fileState == Prepared
    requires forall i: nat :: i < |plan.operations| ==> PreparedAt(s, d, d.tree, t, plan, i)
    ensures CanActivate(s, d, h, t, plan)
  {
    hide OpOkAt, Accepted, BackupBudgetOk, PreparedRecord;
    forall i: nat | i < |plan.operations| ensures OpOkAt(s, d, d.tree, t, plan, i) {
      assert PreparedAt(s, d, d.tree, t, plan, i);
    }
  }

  /** No completion time and no errors, as a new transaction starts out. */
  predicate Unmarked(sum: Summary) {
    sum.completedAt.None? && sum.applyError.Empty() && sum.rollbackError.Empty() && sum.restartError.Empty()
  }

  lemma PreparedSummaryFits(s: Setting, sum: Summary, t: string, plan: Plan)
    requires GoodSetting(s) && IsLowerHexSha256(t) && Accepted(plan, s.limits)
    requires Unmarked(sum)
    requires sum.transactionId == t && sum.planDigest == s.planDigest(plan) && sum.fileState == Prepared
    requires sum.operationCount == |plan.operations|
    requires sum.restartState == if plan.restartCommand == [] then NotRequested else NotAttempted
    ensures SummaryOk(s, sum, t, plan)
  {
    hide IsLowerHexSha256, ValidHeader, ValidOperation, SourcesAgree;
    assert IsLowerHexSha256(s.planDigest(plan));
  }

  // ---------- outcomes ----------

  /** Every target as the plan installs it, every other path as it was. */
  ghost predicate InstalledOver(tree: Tree, base: Tree, plan: Plan) {
    AllInstalled(tree, plan) && OthersUntouched(tree, base, plan)
  }

  lemma AppliedOutcome(s: Setting, d: Durable, h: History, t: string, plan: Plan)
    requires Inv(s, d, h) && d.active == Some(ReceiptOf(s, t, plan)) && t in d.plans && d.plans[t] == plan
    requires t in d.summaries && t in h.bases && AllApplied(s, d, d.tree, h.bases[t], t, plan)
    ensures InstalledOver(d.tree, h.bases[t], plan)
  {
    AppliedIsInstalled(s, d, d.tree, h.bases[t], t, plan);
    hide GoodSetting, JournalOk, TerminalPart, RestartsOk, LastSettled;
    hide AllApplied, OpOkAt, AllInstalled, OthersUntouched;
  }

  lemma ClearedIsSettled(s: Setting, d: Durable, h: History, t: string, plan: Plan)
    requires Inv(s, d, h) && d.active.None? && h.last == Some(t) && t in d.plans && d.plans[t] == plan && t in h.bases
    ensures Settled(d.tree, h.bases[t], plan)
  {
    hide GoodSetting, JournalOk, TerminalPart, RestartsOk, ActivePart, Settled;
  }

  ghost predicate AllRestored(tree: Tree, base: Tree, plan: Plan) {
    forall i: nat :: i < |plan.operations| ==> RestoredAt(tree, base, plan, i)
  }

  lemma SettledAndRestored(tree: Tree, base: Tree, plan: Plan)
    requires Settled(tree, base, plan) && AllRestored(tree, base, plan)
    ensures Restored(tree, base)
  {
    hide AllInstalled;
    if OthersUntouched(tree, base, plan) {
      forall q ensures Restores(Lookup(tree, q), Lookup(base, q)) {
        if Managed(plan, q) {
          var i: nat :| i < |plan.operations| && plan.operations[i].target == q;
          assert RestoredAt(tree, base, plan, i);
        }
      }
    }
  }

  /** Outside one directory the stored files are the same. */
  ghost predicate OnlyBackups(d: Durable, e: Durable, directory: string) {
    e.tree == d.tree && forall k: (string, string) :: k.0 != directory ==> Lookup(e.store, k) == Lookup(d.store, k)
  }

  lemma OneMoreBackup(d: Durable, e: Durable, g: Durable, t: string, i: nat, slot: (string, string))
    requires OnlyBackups(d, e, slot.0) && OnlyPreparation(e, g, t, i, slot)
    ensures OnlyBackups(d, g, slot.0)
  {
  }

  lemma NoBackups(d: Durable, directory: string)
    ensures OnlyBackups(d, d, directory)
  {
  }

  lemma ReadyIsStaged(s: Setting, d: Durable, plan: Plan)
    requires AllReady(s, d, plan)
    ensures AllStaged(d, plan) && BackupBudgetOk(d.tree, plan, s.limits)
    ensures forall i: nat :: i < |plan.operations| ==> Ready(d, plan, i)
  {
    hide BackupBudgetOk, Staged;
    assert forall i: nat :: i < |plan.operations| && Ready(d, plan, i) ==> Staged(d, plan, i);
  }

  lemma StagedBefore(d: Durable, e: Durable, plan: Plan)
    requires OnlyBackups(d, e, plan.backupDir) && plan.backupDir != plan.stagingDir && AllStaged(e, plan)
    ensures AllStaged(d, plan)
  {
    forall i: nat | i < |plan.operations| ensures Staged(d, plan, i) { assert Staged(e, plan, i); }
  }

  lemma UntouchedIsRestored(tree: Tree)
    ensures Restored(tree, tree)
  {
  }

  lemma UntouchedIsSettled(tree: Tree, plan: Plan)
    ensures Settled(tree, tree, plan)
  {
    assert Restored(tree, tree);
  }

  class ApplyTransaction {
    const root: InstallRoot
    const plan: Plan
    const staging: bool
    const id: string
    const digest: string
    var summary: Summary
    var active: bool
    var preparedBackupBytes: nat

    constructor (root: InstallRoot, plan: Plan, staging: bool, id: string, digest: string, summary: Summary)
      ensures this.root == root && this.plan == plan && this.staging == staging
      ensures this.id == id && this.digest == digest && this.summary == summary
      ensures !active && preparedBackupBytes == 0
    {
      this.root, this.plan, this.staging, this.id, this.digest := root, plan, staging, id, digest;
      this.summary, active, preparedBackupBytes := summary, false, 0;
    }

    /** This transaction is the active one. */
    ghost predicate Open() reads root {
      && root.Valid()
      && root.d.active == Some(ReceiptOf(root.s, id, plan))
      && id in root.d.plans && root.d.plans[id] == plan && id in root.d.summaries && id in root.h.bases
      && Accepted(plan, root.s.limits)
      && digest == root.s.planDigest(plan)
    }

    /** The staging directory was opened wherever a replacement needs it. */
    predicate StagingOpen() {
      forall i :: 0 <= i < |plan.operations| && plan.operations[i].kind == Replace ==> staging
    }

    // ---------- operation records ----------

    method PersistOperation(i: nat, r: OperationRecord) returns (ok: bool)
      requires Open() && i < |plan.operations| && CanWriteRecord(root.s, root.d, root.h, i, r)
      modifies root`d, root`alive
      ensures Open() && (root.alive ==> old(root.alive))
      ensures root.d == old(root.d) || root.d == PutRecord(old(root.d), r)
      ensures ok ==> root.alive && root.d == PutRecord(old(root.d), r)
      ensures old(root.Healthy()) ==> ok && root.alive
    {
      hide Inv, Accepted, OpOk, ValidOperationRecord;
      ok := root.WriteOperation(i, r);
      if ok { ok := root.Probe(); }
    }

    method FailOperation(i: nat, r: OperationRecord) returns (ok: bool)
      requires Open() && i < |plan.operations| && CanWriteRecord(root.s, root.d, root.h, i, r)
      modifies root`d, root`alive
      ensures Open() && (root.alive ==> old(root.alive)) && !ok
      ensures OnlyOperation(old(root.d), root.d, id, i, plan.operations[i].target)
      ensures root.d.tree == old(root.d.tree)
      ensures old(root.Healthy()) ==> root.alive
    {
      hide Inv, Accepted, OpOk;
      FailedRecordFits(root.s, root.d, root.h, i, r);
      var recorded := PersistOperation(i, r.(error := FAILURE));
      ok := false;
    }

    // ---------- applying ----------

    /** The temporary file: staged contents, verified, with the permissions the target will have. */
    method PrepareReplacement(i: nat, original: Option<File>) returns (temporary: Option<File>)
      requires i < |plan.operations| && plan.operations[i].kind == Replace
      requires plan.operations[i].permissions.Some? ==> plan.operations[i].permissions.value <= PERMISSION_MASK
      modifies root`alive
      ensures temporary.Some? ==> root.alive && InstalledImage(temporary, plan.operations[i])
      ensures var o := plan.operations[i];
              temporary.Some? ==>
                MatchesEvidence(Lookup(root.d.store, (plan.stagingDir, o.source)), o.size, o.sha256)
      ensures root.alive ==> old(root.alive)
      ensures old(root.Healthy()) ==> root.alive
      ensures var o := plan.operations[i];
              old(root.Healthy()) && staging ==>
              MatchesEvidence(Lookup(root.d.store, (plan.stagingDir, o.source)), o.size, o.sha256) ==>
              temporary.Some?
    {
      var o := plan.operations[i];
      var found := root.Probe();
      if !staging || !found || (plan.stagingDir, o.source) !in root.d.store { return None; }
      var source := root.d.store[(plan.stagingDir, o.source)];
      if source.size != o.size || source.sha256 != o.sha256 { return None; }
      var written := root.Probe();
      if !written { return None; }
      var identity := root.NewIdentity();
      var permissions := if o.permissions.Some? then o.permissions.value
                         else if original.Some? then PermissionBits(original.value.permissions) else 0x1a4;
      temporary := Some(FileImage(identity, source.size, source.sha256, Some(permissions)));
    }

    /** Intent record, commit, and a second look at the target; `r` is the record as last written or to be failed. */
    method CommitReplacement(i: nat, record: OperationRecord, prepared: File) returns (ok: bool, r: OperationRecord)
      requires Open() && i < |plan.operations| && plan.operations[i].kind == Replace
      requires root.d.summaries[id].fileState == Applying
      requires CanWriteRecord(root.s, root.d, root.h, i, record) && record.transactionId == id && record.index == i
      requires record.applyState == ApplyPending && InstalledImage(Some(prepared), plan.operations[i])
      modifies root`d, root`alive
      ensures Open() && (root.alive ==> old(root.alive))
      ensures OnlyOperation(old(root.d), root.d, id, i, plan.operations[i].target)
      ensures r.transactionId == id && r.index == i
      ensures r.applyState == ApplyIntent && r.rollbackState == record.rollbackState
      ensures CanWriteRecord(root.s, root.d, root.h, i, r)
      ensures ok ==> root.alive && Lookup(root.d.tree, plan.operations[i].target) == Some(prepared)
      ensures old(root.Healthy()) ==> ok && root.alive
    {
      hide Inv, Accepted, CanWriteRecord, CanSetTarget, SetFile, OnlyOperation;
      ghost var d := root.d;
      var o := plan.operations[i];
      CommitFits(root.s, root.d, root.h, i, record, Some(prepared));
      r := record.(applyState := ApplyIntent);
      ok := PersistOperation(i, r);
      ghost var e := root.d;
      OnlyRecord(d, e, r, o.target);
      if !ok { return; }
      ok := root.CommitTarget(i, o.target, prepared, r.originalExists);
      OnlyTarget(d, e, root.d, id, i, o.target, Some(prepared));
      if !ok { return; }
      ok := root.Probe();
      if !ok { return; }
      var installed := Lookup(root.d.tree, o.target);
      ok := MatchesInstalled(installed, o) && installed.value.identity == prepared.identity;
    }

    /** The completion record, for a target already as the plan installs it. */
    method FinishOperation(i: nat, record: OperationRecord, identity: string) returns (ok: bool)
      requires Open() && i < |plan.operations|
      requires CanWriteRecord(root.s, root.d, root.h, i, record) && record.transactionId == id && record.index == i
      requires record.applyState == ApplyIntent && record.rollbackState == RollbackNotStarted
      requires InstalledImage(Lookup(root.d.tree, plan.operations[i].target), plan.operations[i])
      modifies root`d, root`alive
      ensures Open() && (root.alive ==> old(root.alive))
      ensures OnlyOperation(old(root.d), root.d, id, i, plan.operations[i].target)
      ensures ok ==> root.alive && AppliedAt(root.s, root.d, root.d.tree, root.h.bases[id], id, plan, i)
      ensures old(root.Healthy()) ==> ok && root.alive
    {
      hide Inv, Accepted, CanWriteRecord, OnlyOperation, AppliedAt;
      ghost var d := root.d;
      CompletionFits(root.s, root.d, root.h, i, record, identity);
      var r := record.(installedIdentity := identity, applyState := ApplyComplete, error := NO_ERROR);
      ok := PersistOperation(i, r);
      OnlyRecord(d, root.d, r, plan.operations[i].target);
      if !ok {
        ghost var e := root.d;
        ok := FailOperation(i, r);
        OnlyOperationTransitive(d, e, root.d, id, i, plan.operations[i].target);
      }
    }

    method ApplyReplacement(i: nat, record: OperationRecord, original: Option<File>) returns (ok: bool)
      requires Open() && i < |plan.operations| && plan.operations[i].kind == Replace
      requires root.d.summaries[id].fileState == Applying
      requires CanWriteRecord(root.s, root.d, root.h, i, record) && record.transactionId == id && record.index == i
      requires record.applyState == ApplyPending && record.rollbackState == RollbackNotStarted
      modifies root`d, root`alive
      ensures Open() && (root.alive ==> old(root.alive))
      ensures OnlyOperation(old(root.d), root.d, id, i, plan.operations[i].target)
      ensures ok ==> root.alive && AppliedAt(root.s, root.d, root.d.tree, root.h.bases[id], id, plan, i)
      ensures var o := plan.operations[i];
              ok ==> MatchesEvidence(Lookup(old(root.d).store, (plan.stagingDir, o.source)), o.size, o.sha256)
      ensures old(root.Healthy()) ==> root.alive
      ensures var o := plan.operations[i];
              old(root.Healthy()) && staging ==>
              MatchesEvidence(Lookup(old(root.d).store, (plan.stagingDir, o.source)), o.size, o.sha256) ==> ok
    {
      hide Inv, CanWriteRecord, OnlyOperation, AppliedAt;
      ghost var d, path := root.d, plan.operations[i].target;
      assert ValidOperation(plan.operations[i], plan.schemaVersion, root.s.limits);
      hide Accepted;
      var temporary := PrepareReplacement(i, original);
      if temporary.None? {
        ok := FailOperation(i, record);
        return;
      }
      var r;
      ok, r := CommitReplacement(i, record, temporary.value);
      ghost var e := root.d;
      if ok {
        ok := FinishOperation(i, r, temporary.value.identity);
      } else {
        ok := FailOperation(i, r);
      }
      OnlyOperationTransitive(d, e, root.d, id, i, path);
    }

    /** Intent record, removal, and a second look. */
    method CommitRemoval(i: nat, record: OperationRecord) returns (ok: bool, r: OperationRecord)
      requires Open() && i < |plan.operations| && plan.operations[i].kind == Remove
      requires root.d.summaries[id].fileState == Applying
      requires CanWriteRecord(root.s, root.d, root.h, i, record) && record.transactionId == id && record.index == i
      requires record.applyState == ApplyPending
      modifies root`d, root`alive
      ensures Open() && (root.alive ==> old(root.alive))
      ensures OnlyOperation(old(root.d), root.d, id, i, plan.operations[i].target)
      ensures r.transactionId == id && r.index == i
      ensures r.applyState == ApplyIntent && r.rollbackState == record.rollbackState
      ensures CanWriteRecord(root.s, root.d, root.h, i, r)
      ensures ok ==> root.alive && Lookup(root.d.tree, plan.operations[i].target).None?
      ensures old(root.Healthy()) ==> root.alive && (record.originalExists ==> ok)
    {
      hide Inv, Accepted, CanWriteRecord, CanSetTarget, SetFile, OnlyOperation;
      ghost var d := root.d;
      var o := plan.operations[i];
      CommitFits(root.s, root.d, root.h, i, record, None);
      r := record.(applyState := ApplyIntent);
      ok := PersistOperation(i, r);
      ghost var e := root.d;
      OnlyRecord(d, e, r, o.target);
      if !ok { return; }
      if r.originalExists {
        ok := root.RemoveTarget(i, o.target);
        OnlyTarget(d, e, root.d, id, i, o.target, None);
        if !ok { return; }
      }
      ok := root.Probe();
      ok := ok && o.target !in root.d.tree;
    }

    method ApplyRemoval(i: nat, record: OperationRecord) returns (ok: bool)
      requires Open() && i < |plan.operations| && plan.operations[i].kind == Remove
      requires root.d.summaries[id].fileState == Applying
      requires CanWriteRecord(root.s, root.d, root.h, i, record) && record.transactionId == id && record.index == i
      requires record.applyState == ApplyPending && record.rollbackState == RollbackNotStarted
      modifies root`d, root`alive
      ensures Open() && (root.alive ==> old(root.alive))
      ensures OnlyOperation(old(root.d), root.d, id, i, plan.operations[i].target)
      ensures ok ==> root.alive && AppliedAt(root.s, root.d, root.d.tree, root.h.bases[id], id, plan, i)
      ensures old(root.Healthy()) ==> root.alive && (record.originalExists ==> ok)
    {
      hide Inv, Accepted, CanWriteRecord, OnlyOperation, AppliedAt;
      ghost var d, path := root.d, plan.operations[i].target;
      var r;
      ok, r := CommitRemoval(i, record);
      ghost var e := root.d;
      if ok {
        ok := FinishOperation(i, r, "");
      } else {
        ok := FailOperation(i, r);
      }
      OnlyOperationTransitive(d, e, root.d, id, i, path);
    }

    method ApplyOne(i: nat) returns (ok: bool)
      requires Open() && i < |plan.operations| && root.d.summaries[id].fileState == Applying
      requires PreparedAt(root.s, root.d, root.h.bases[id], id, plan, i)
      modifies root`d, root`alive
      ensures Open() && (root.alive ==> old(root.alive))
      ensures OnlyOperation(old(root.d), root.d, id, i, plan.operations[i].target)
      ensures ok ==> root.alive && AppliedAt(root.s, root.d, root.d.tree, root.h.bases[id], id, plan, i)
      ensures ok ==> Staged(old(root.d), plan, i)
      ensures old(root.Healthy()) ==> root.alive
      ensures old(root.Healthy()) && (plan.operations[i].kind == Replace ==> staging) ==>
              Staged(old(root.d), plan, i) ==> ok
    {
      hide Inv, Accepted, CanWriteRecord, OnlyOperation, OpOk, AppliedOp;
      var o := plan.operations[i];
      ReadRecordFits(root.s, root.d, root.h, id, plan, i);
      PreparedPasses(Lookup(root.d.tree, o.target), Lookup(root.h.bases[id], o.target), o, root.d.records[(id, i)],
                     Lookup(root.d.store, (plan.backupDir, o.target)));
      OnlyRecord(root.d, root.d, root.d.records[(id, i)], o.target);
      var loaded := root.Probe();
      if !loaded || (id, i) !in root.d.records || root.d.records[(id, i)].operationId != root.s.operationId(id, i, o) {
        return false;
      }
      var record := root.d.records[(id, i)];
      var observed := root.Probe();
      var original := Lookup(root.d.tree, o.target);
      var idempotent := record.applyState == ApplyComplete && record.rollbackState == RollbackNotRequired;
      var consistent := if idempotent then MatchesInstalled(original, o)
                        else record.applyState == ApplyPending && record.rollbackState == RollbackNotStarted
                             && (record.originalExists ==> record.backupState == BackupDurable);
      if !observed || !MatchesOriginal(original, record)
        || (record.originalExists && original.value.identity != record.originalIdentity) || !consistent
      {
        ok := FailOperation(i, record);
        return;
      }
      if idempotent { return true; }
      if o.kind == Replace {
        ok := ApplyReplacement(i, record, original);
      } else {
        ok := ApplyRemoval(i, record);
      }
    }

    // ---------- rolling back ----------

    method MarkRollbackOperationFailed(i: nat, r: OperationRecord) returns (ok: bool)
      requires Open() && i < |plan.operations| && r.transactionId == id && r.index == i
      requires CanWriteRecord(root.s, root.d, root.h, i, r)
      modifies root`d, root`alive
      ensures Open() && (root.alive ==> old(root.alive)) && !ok
      ensures OnlyOperation(old(root.d), root.d, id, i, plan.operations[i].target)
      ensures root.d.tree == old(root.d.tree)
    {
      hide Inv, Accepted, CanWriteRecord, OnlyOperation;
      RollbackRecordFits(root.s, root.d, root.h, i, r, RollbackFailed);
      ok := FailOperation(i, r.(rollbackState := RollbackFailed));
    }

    /** The target as recorded before, from the backup or by removal; then a second look. */
    method RestoreTarget(i: nat, r: OperationRecord, target: Option<File>) returns (ok: bool)
      requires Open() && i < |plan.operations| && root.d.summaries[id].fileState == RollingBack
      requires (id, i) in root.d.records && r == root.d.records[(id, i)] && r.transactionId == id && r.index == i
      requires CanWriteRecord(root.s, root.d, root.h, i, r)
      requires target == Lookup(root.d.tree, plan.operations[i].target) && !MatchesOriginal(target, r)
      modifies root`d, root`alive
      ensures Open() && (root.alive ==> old(root.alive))
      ensures OnlyOperation(old(root.d), root.d, id, i, plan.operations[i].target)
      ensures CanWriteRecord(root.s, root.d, root.h, i, r)
      ensures ok ==> root.alive && MatchesOriginal(Lookup(root.d.tree, plan.operations[i].target), r)
      ensures old(root.Healthy()) ==> ok && root.alive
    {
      hide Inv, Accepted, OnlyOperation, CanWriteRecord, CanSetTarget, MatchesOriginal, SetFile, VerifiesOriginal;
      ghost var d := root.d;
      var o := plan.operations[i];
      OnlyRecord(d, d, r, o.target);
      var identity := root.NewIdentity();
      RestoreSteps(root.s, d, root.h, i, r, identity);
      ok := root.Probe();
      if !ok || (r.originalExists &&
                 (r.backupState != BackupDurable || (plan.backupDir, o.target) !in root.d.store
                  || !VerifiesOriginal(root.d.store[(plan.backupDir, o.target)], r))) {
        return false;
      }
      if r.originalExists {
        var copy := Copy(root.d.store[(plan.backupDir, o.target)], identity);
        ok := root.CommitTarget(i, o.target, copy, target.Some?);
        OnlyTarget(d, d, root.d, id, i, o.target, Some(copy));
      } else {
        ok := root.RemoveTarget(i, o.target);
        OnlyTarget(d, d, root.d, id, i, o.target, None);
      }
      if !ok { return; }
      ok := root.Probe();
      ok := ok && MatchesOriginal(Lookup(root.d.tree, o.target), r);
    }

    method RollbackMutation(i: nat, record: OperationRecord, target: Option<File>) returns (ok: bool)
      requires Open() && i < |plan.operations| && root.d.summaries[id].fileState == RollingBack
      requires record.transactionId == id && record.index == i
      requires CanWriteRecord(root.s, root.d, root.h, i, record)
      requires target == Lookup(root.d.tree, plan.operations[i].target) && !MatchesOriginal(target, record)
      modifies root`d, root`alive
      ensures Open() && (root.alive ==> old(root.alive))
      ensures OnlyOperation(old(root.d), root.d, id, i, plan.operations[i].target)
      ensures ok ==> root.alive && RestoredAt(root.d.tree, root.h.bases[id], plan, i)
      ensures old(root.Healthy()) ==> ok && root.alive
    {
      hide Inv, Accepted, CanWriteRecord, OnlyOperation, MatchesOriginal, RestoredAt;
      ghost var d, path := root.d, plan.operations[i].target;
      var r := WithRollback(record, RollbackIntent);
      RollbackRecordFits(root.s, d, root.h, i, record, RollbackIntent);
      ok := PersistOperation(i, r);
      ghost var e := root.d;
      OnlyRecord(d, e, r, path);
      if !ok { return; }
      ok := RestoreTarget(i, r, target);
      ghost var g := root.d;
      OnlyOperationTransitive(d, e, g, id, i, path);
      if !ok {
        ok := MarkRollbackOperationFailed(i, r);
      } else {
        WrittenOriginalIsRestored(root.s, g, root.h, i, r);
        RollbackRecordFits(root.s, g, root.h, i, r, RollbackComplete);
        r := WithRollback(r, RollbackComplete);
        ok := PersistOperation(i, r);
        OnlyRecord(g, root.d, r, path);
      }
      OnlyOperationTransitive(d, g, root.d, id, i, path);
    }

    method RollbackOne(i: nat, record: OperationRecord) returns (ok: bool)
      requires Open() && i < |plan.operations| && root.d.summaries[id].fileState in {RollingBack, RolledBack}
      requires (id, i) in root.d.records && record == root.d.records[(id, i)]
      requires root.d.summaries[id].fileState == RolledBack ==> RestoredAt(root.d.tree, root.h.bases[id], plan, i)
      modifies root`d, root`alive
      ensures Open() && (root.alive ==> old(root.alive))
      ensures OnlyOperation(old(root.d), root.d, id, i, plan.operations[i].target)
      ensures ok ==> root.alive && RestoredAt(root.d.tree, root.h.bases[id], plan, i)
      ensures old(root.d.summaries[id].fileState) == RolledBack ==> root.d.tree == old(root.d.tree)
      ensures old(root.Healthy()) ==> ok && root.alive
    {
      hide Inv, Accepted, CanWriteRecord, OnlyOperation, OpOk, MatchesOriginal, Restores;
      ghost var d := root.d;
      var o := plan.operations[i];
      ghost var f, b := Lookup(d.tree, o.target), Lookup(root.h.bases[id], o.target);
      ghost var k := Lookup(d.store, (plan.backupDir, o.target));
      ReadRecordFits(root.s, d, root.h, id, plan, i);
      OnlyRecord(d, d, record, o.target);
      RollbackCases(f, b, o, record, k);
      hide ValidOperationRecord;

      var observed := root.Probe();
      var target := Lookup(root.d.tree, o.target);
      var mutationMayHaveRun := record.applyState != ApplyPending;
      var gap := mutationMayHaveRun && record.originalExists && target.None? && o.kind == Replace
                 && record.backupState == BackupDurable;
      var original := MatchesOriginal(target, record);
      if !observed || (!original && !(mutationMayHaveRun && (MatchesInstalled(target, o) || gap))) {
        ok := MarkRollbackOperationFailed(i, record);
        return;
      }
      if original {
        var r := WithRollback(record, if mutationMayHaveRun then RollbackComplete else RollbackNotRequired);
        RollbackRecordFits(root.s, root.d, root.h, i, record, r.rollbackState);
        ok := PersistOperation(i, r);
        OnlyRecord(d, root.d, r, o.target);
      } else {
        ok := RollbackMutation(i, record, target);
      }
    }

    // ---------- whole transactions ----------

    method LoadOperationRecords() returns (ok: bool, records: seq<OperationRecord>)
      modifies root`alive
      ensures root.alive ==> old(root.alive)
      ensures ok ==> |records| == |plan.operations|
      ensures ok ==> forall i: nat :: i < |records| ==>
                       (id, i) in root.d.records && records[i] == root.d.records[(id, i)] && records[i].index == i
      ensures old(root.Healthy()) ==> root.alive
      ensures old(root.Healthy()) && summary.operationCount == |plan.operations| ==>
              (forall i: nat :: i < |plan.operations| ==> NamedRecord(root.s, root.d, id, plan, i)) ==> ok
    {
      hide ValidOperationRecord;
      records := [];
      ok := summary.operationCount == |plan.operations|;
      var i := 0;
      while ok && i < |plan.operations|
        invariant 0 <= i <= |plan.operations|
        invariant root.alive ==> old(root.alive)
        invariant ok ==> |records| == i
        invariant forall j: nat :: j < |records| ==> (id, j) in root.d.records && records[j] == root.d.records[(id, j)]
        invariant ok ==> forall j: nat :: j < |records| ==> records[j].index == j
        invariant old(root.Healthy()) ==> root.alive
        invariant old(root.Healthy()) && summary.operationCount == |plan.operations| ==>
                  (forall j: nat :: j < |plan.operations| ==> NamedRecord(root.s, root.d, id, plan, j)) ==> ok
        decreases |plan.operations| - i, if ok then 1 else 0
      {
        ghost var named := NamedRecord(root.s, root.d, id, plan, i);
        var loaded := root.Probe();
        ok := loaded && (id, i) in root.d.records;
        if ok {
          var r := root.d.records[(id, i)];
          ok := && r.transactionId == id && r.index == i
                && r.operationId == root.s.operationId(id, i, plan.operations[i])
                && r.intent == plan.operations[i].kind;
          records := records + [r];
          i := i + 1;
        }
      }
    }

    method VerifyAppliedState() returns (ok: bool)
      modifies root`alive
      ensures root.alive ==> old(root.alive)
      ensures ok ==> forall i: nat :: i < |plan.operations| ==>
                       (id, i) in root.d.records && AppliedChecksAt(root.d, id, plan, i)
      ensures old(root.Healthy()) ==> root.alive
      ensures old(root.Healthy()) && summary.operationCount == |plan.operations| ==>
              (forall i: nat :: i < |plan.operations| ==>
                 && NamedRecord(root.s, root.d, id, plan, i)
                 && (id, i) in root.d.records && AppliedChecksAt(root.d, id, plan, i)) ==> ok
    {
      hide NamedRecord, AppliedChecks;
      var records;
      ok, records := LoadOperationRecords();
      var i := 0;
      while ok && i < |records|
        invariant 0 <= i && (ok ==> i <= |records| == |plan.operations|)
        invariant root.alive ==> old(root.alive)
        invariant ok ==> forall j: nat :: j < |records| ==>
                           (id, j) in root.d.records && records[j] == root.d.records[(id, j)]
        invariant ok ==> forall j: nat :: j < i ==> (id, j) in root.d.records && AppliedChecksAt(root.d, id, plan, j)
        invariant old(root.Healthy()) ==> root.alive
        invariant old(root.Healthy()) && summary.operationCount == |plan.operations| ==>
                  (forall j: nat :: j < |plan.operations| ==>
                     && NamedRecord(root.s, root.d, id, plan, j)
                     && (id, j) in root.d.records && AppliedChecksAt(root.d, id, plan, j)) ==> ok
        decreases |records| - i, if ok then 1 else 0
      {
        var o, r := plan.operations[i], records[i];
        var observed := root.Probe();
        ok := observed && AppliedChecks(Lookup(root.d.tree, o.target), o, r, Lookup(root.d.store, (plan.backupDir,
        o.target)));
        assert ok ==> AppliedChecksAt(root.d, id, plan, i);
        assert AppliedChecksAt(root.d, id, plan, i) && observed ==> ok;
        i := i + 1;
      }
    }

    method RollbackAll() returns (ok: bool)
      requires Open() && root.d.summaries[id].fileState in {RollingBack, RolledBack}
      requires summary.operationCount == |plan.operations|
      modifies root`d, root`alive
      ensures Open() && (root.alive ==> old(root.alive))
      ensures root.d == old(root.d).(tree := root.d.tree, records := root.d.records)
      ensures old(root.d.summaries[id].fileState) == RolledBack ==> root.d.tree == old(root.d.tree)
      ensures ok ==> forall i: nat :: i < |plan.operations| ==> RestoredAt(root.d.tree, root.h.bases[id], plan, i)
      ensures old(root.Healthy()) ==> ok && root.alive
    {
      hide Inv, Accepted;
      AllNamed(root.s, root.d, root.h, id, plan);
      RolledBackTargets(root.s, root.d, root.h, id, plan);
      hide NamedRecord, RestoredAt;
      var records;
      ok, records := LoadOperationRecords();
      if !ok { return; }
      var i := |records|;
      while ok && i > 0
        invariant 0 <= i <= |records| == |plan.operations|
        invariant Open() && (root.alive ==> old(root.alive))
        invariant root.d == old(root.d).(tree := root.d.tree, records := root.d.records)
        invariant old(root.d.summaries[id].fileState) == RolledBack ==> root.d.tree == old(root.d.tree)
        invariant forall j: nat :: j < i ==> (id, j) in root.d.records && records[j] == root.d.records[(id, j)]
        invariant ok ==> forall j: nat :: i <= j < |records| ==> RestoredAt(root.d.tree, root.h.bases[id], plan, j)
        invariant old(root.Healthy()) ==> ok && root.alive
        decreases i, if ok then 1 else 0
      {
        i := i - 1;
        ghost var d := root.d;
        ok := RollbackOne(i, records[i]);
        RollbackKeepsRest(d, root.d, root.h.bases[id], id, root.s, plan, i);
        forall j: nat | j < i ensures (id, j) in root.d.records && records[j] == root.d.records[(id, j)] {
          assert Lookup(root.d.records, (id, j)) == Lookup(d.records, (id, j));
        }
      }
    }

    method PersistSummary() returns (ok: bool)
      requires Open() && CanWriteSummary(root.s, root.d, root.h, summary) && summary.transactionId == id
      modifies root`d, root`h, root`alive
      ensures Open() && (root.alive ==> old(root.alive))
      ensures (root.d == old(root.d) && root.h == old(root.h))
              || (root.d == PutSummary(old(root.d), summary) && root.h == NoteIntent(old(root.d), old(root.h), summary))
      ensures ok ==> root.alive && root.d == PutSummary(old(root.d), summary)
                     && root.h == NoteIntent(old(root.d), old(root.h), summary)
      ensures old(root.Healthy()) ==> ok && root.alive
    {
      hide Inv, Accepted, CanWriteSummary;
      ok := root.WriteSummary(summary);
      if ok { ok := root.Probe(); }
    }

    method ClearActive() returns (ok: bool)
      requires Open() && CanClear(root.d)
      modifies this`active, root`d, root`alive
      ensures root.Valid() && (root.alive ==> old(root.alive))
      ensures root.d == old(root.d) || root.d == old(root.d).(active := None)
      ensures ok ==> root.alive && root.d.active.None?
      ensures old(root.Healthy()) ==> ok && root.alive
    {
      hide Inv, Accepted;
      ok := root.ClearActive();
      if ok {
        active := false;
        ok := root.Probe();
      }
    }

    method RecordRollbackFailure() returns (ok: bool)
      requires Open() && SummaryOk(root.s, summary, id, plan)
      requires summary.fileState != Complete && !RestartBegun(summary.restartState)
      requires root.d.summaries[id].fileState != Complete && !RestartBegun(root.d.summaries[id].restartState)
      modifies this`summary, root`d, root`h, root`alive
      ensures Open() && !ok && root.h == old(root.h) && (root.alive ==> old(root.alive))
      ensures root.d == old(root.d).(summaries := root.d.summaries)
    {
      hide Inv, Accepted, IsLowerHexSha256;
      summary := summary.(fileState := RecoveryFailed, rollbackError := FAILURE);
      SummaryFits(root.s, root.d, root.h, id, plan, summary);
      var recorded := PersistSummary();
      ok := false;
    }

    /** The common part of failAndRollback and recoverByRollback: mark, undo in reverse order, mark, clear. */
    method RollBack() returns (ok: bool)
      requires Open() && SummaryOk(root.s, summary, id, plan)
      requires summary.fileState != Complete && !RestartBegun(summary.restartState)
      requires root.d.summaries[id].fileState != Complete && !RestartBegun(root.d.summaries[id].restartState)
      modifies this`summary, this`active, root`d, root`h, root`alive
      ensures root.Valid() && root.h == old(root.h) && (root.alive ==> old(root.alive)) && !ok
      ensures Concluding(old(root.d), root.d) && root.d.terminal == old(root.d.terminal)
      ensures root.d.active.None? ==>
                forall i: nat :: i < |plan.operations| ==> RestoredAt(root.d.tree, root.h.bases[id], plan, i)
      ensures old(root.Healthy()) ==> root.alive && root.d.active.None?
    {
      hide Inv, Accepted, IsLowerHexSha256, CanWriteSummary, RestoredAt, OpOkAt, AppliedAt;
      summary := summary.(fileState := RollingBack, rollbackError := NO_ERROR);
      SummaryFits(root.s, root.d, root.h, id, plan, summary);
      var marked := PersistSummary();
      if !marked { return false; }
      var rolledBack := RollbackAll();
      if !rolledBack {
        ok := RecordRollbackFailure();
        return;
      }
      ok := FinishRollBack();
    }

    method FinishRollBack() returns (ok: bool)
      requires Open() && SummaryOk(root.s, summary, id, plan)
      requires summary.fileState == RollingBack && root.d.summaries[id] == summary
      requires forall i: nat :: i < |plan.operations| ==> RestoredAt(root.d.tree, root.h.bases[id], plan, i)
      modifies this`summary, this`active, root`d, root`h, root`alive
      ensures root.Valid() && root.h == old(root.h) && (root.alive ==> old(root.alive)) && !ok
      ensures root.d == old(root.d).(summaries := root.d.summaries, active := root.d.active)
      ensures root.d.active == old(root.d.active) || root.d.active.None?
      ensures old(root.Healthy()) ==> root.alive && root.d.active.None?
    {
      hide Inv, Accepted, IsLowerHexSha256, CanWriteSummary, RestoredAt;
      summary := summary.(fileState := RolledBack);
      SummaryFits(root.s, root.d, root.h, id, plan, summary);
      var completed := PersistSummary();
      if completed { var cleared := ClearActive(); }
      ok := false;
    }

    // ---------- completion and restart ----------

    method PersistCompletion() returns (ok: bool)
      requires Open() && SummaryOk(root.s, CompletedWith(summary, Instant(0, 0)), id, plan)
      requires root.d.summaries[id].fileState == FilesApplied
      requires RestartBegun(root.d.summaries[id].restartState) ==> RestartBegun(summary.restartState)
      modifies this`summary, root`d, root`h, root`alive
      ensures Open() && (root.alive ==> old(root.alive)) && OnlyJournal(old(root.d), root.d, old(root.h), root.h)
      ensures root.d.active == old(root.d.active) && root.h.launches == old(root.h.launches)
      ensures ok ==> summary.fileState == Complete && summary.completedAt.Some? && root.d.summaries[id] == summary
      ensures old(root.Healthy()) ==> ok && root.alive
    {
      hide Inv, Accepted, CanWriteSummary, SummaryOk, AllApplied;
      assert summary.transactionId == id by { SummaryNames(root.s, CompletedWith(summary, Instant(0, 0)), id, plan); }
      var now;
      ok, now := root.Clock();
      if !ok { return; }
      AnyTimeCompletes(root.s, summary, id, plan, now);
      summary := CompletedWith(summary, now);
      DurablePromise(root.s, root.d, root.h, id, plan);
      SummaryFits(root.s, root.d, root.h, id, plan, summary);
      ok := PersistSummary();
    }

    method PublishTerminalAndClear() returns (ok: bool)
      requires Open() && root.d.summaries[id] == summary
      requires summary.fileState == Complete && summary.completedAt.Some?
      modifies this`active, root`d, root`alive
      ensures root.Valid() && (root.alive ==> old(root.alive)) && OnlyJournal(old(root.d), root.d, root.h, root.h)
      ensures ok ==> root.alive && Published(root.d, id)
      ensures old(root.Healthy()) ==> ok && root.alive
    {
      hide Inv, Accepted;
      ok := root.WriteTerminal(Receipt(id, digest, summary.completedAt));
      if !ok { return; }
      ok := root.Probe();
      if !ok { return; }
      ok := ClearActive();
    }

    method CompleteTransaction() returns (ok: bool)
      requires Open() && SummaryOk(root.s, CompletedWith(summary, Instant(0, 0)), id, plan)
      requires root.d.summaries[id].fileState == FilesApplied
      requires RestartBegun(root.d.summaries[id].restartState) ==> RestartBegun(summary.restartState)
      modifies this`summary, this`active, root`d, root`h, root`alive
      ensures root.Valid() && (root.alive ==> old(root.alive)) && OnlyJournal(old(root.d), root.d, old(root.h), root.h)
      ensures root.h.launches == old(root.h.launches)
      ensures ok ==> root.alive && Published(root.d, id)
      ensures old(root.Healthy()) ==> ok && root.alive
    {
      hide Inv, Accepted, SummaryOk;
      ok := PersistCompletion();
      if ok { ok := PublishTerminalAndClear(); }
    }

    /** Restart intent, one launch, and the recorded outcome. */
    method AttemptRestart() returns (ok: bool)
      requires Open() && root.d.summaries[id] == summary && SummaryOk(root.s, summary, id, plan)
      requires summary.fileState == FilesApplied && summary.restartState == NotAttempted
      modifies this`summary, this`active, root`d, root`h, root`alive
      ensures root.Valid() && (root.alive ==> old(root.alive)) && OnlyJournal(old(root.d), root.d, old(root.h), root.h)
      ensures ok ==> root.alive && Published(root.d, id)
      ensures old(root.Healthy()) ==> root.alive && Published(root.d, id)
      ensures old(root.Healthy()) || ok ==> root.h.launches[id] == 1
    {
      hide Inv, Accepted, CanWriteSummary, AllApplied, SummaryOk;
      RestartFits(root.s, summary, id, plan);
      NoIntentYet(root.s, root.d, root.h, id);
      summary := WithRestart(summary, RestartIntent, NO_ERROR);
      DurablePromise(root.s, root.d, root.h, id, plan);
      SummaryFits(root.s, root.d, root.h, id, plan, summary);
      ok := PersistSummary();
      if !ok { return; }
      var launched := root.Launch(id);
      if !launched {
        summary := WithRestart(summary, RestartFailed, FAILURE);
        var recorded := CompleteTransaction();
        return false;
      }
      ok := root.Probe();
      if !ok { return; }
      summary := WithRestart(summary, Launched, NO_ERROR);
      ok := CompleteTransaction();
    }

    method FinishRestart() returns (ok: bool)
      requires Open() && root.d.summaries[id] == summary && summary.fileState == FilesApplied
      modifies this`summary, this`active, root`d, root`h, root`alive
      ensures root.Valid() && (root.alive ==> old(root.alive)) && OnlyJournal(old(root.d), root.d, old(root.h), root.h)
      ensures ok ==> root.alive && Published(root.d, id)
      ensures old(root.Healthy()) ==> root.alive && Published(root.d, id)
      ensures old(root.Healthy()) && old(summary.restartState) == NotAttempted ==> root.h.launches[id] == 1
      ensures old(summary.restartState) != NotAttempted ==> root.h.launches == old(root.h.launches)
      ensures ok ==> old(summary.restartState) in {NotRequested, Launched, NotAttempted}
    {
      hide Inv, Accepted, IsLowerHexSha256, AllApplied;
      DurablePromise(root.s, root.d, root.h, id, plan);
      ok := false;
      if plan.restartCommand == [] {
        summary := summary.(restartState := NotRequested);
        ok := CompleteTransaction();
      } else if summary.restartState == RestartIntent {
        summary := summary.(restartState := OutcomeUnknown, restartError := FAILURE);
        var completed := CompleteTransaction();
      } else if summary.restartState in {Launched, RestartFailed, OutcomeUnknown} {
        var failure := summary.restartState != Launched;
        ok := CompleteTransaction();
        ok := ok && !failure;
      } else if summary.restartState == NotAttempted {
        ok := AttemptRestart();
      }
    }

    // ---------- recovery ----------

    method RecordTerminalReconciliationFailure() returns (ok: bool)
      requires Open() && root.d.summaries[id] == summary && summary.fileState in {FilesApplied, Complete}
      modifies this`summary, root`d, root`h, root`alive
      ensures Open() && (root.alive ==> old(root.alive)) && OnlyJournal(old(root.d), root.d, old(root.h), root.h) && !ok
      ensures root.d.active == old(root.d.active)
    {
      hide Inv, Accepted, IsLowerHexSha256, AllApplied;
      DurablePromise(root.s, root.d, root.h, id, plan);
      summary := summary.(applyError := FAILURE);
      if summary.restartState == RestartIntent {
        summary := summary.(restartState := OutcomeUnknown, restartError := FAILURE);
      }
      SummaryFits(root.s, root.d, root.h, id, plan, summary);
      var recorded := PersistSummary();
      ok := false;
    }

    predicate CompletedRestartFailure(
      ) reads this { summary.restartState in {RestartFailed, OutcomeUnknown, RestartIntent} }

    /** recover() of a transaction whose files are all in place. */
    method RecoverApplied() returns (ok: bool)
      requires Open() && root.d.summaries[id] == summary && summary.fileState in {FilesApplied, Complete}
      modifies this`summary, this`active, root`d, root`h, root`alive
      ensures root.Valid() && (root.alive ==> old(root.alive)) && root.h.bases == old(root.h.bases)
      ensures root.h.last == old(root.h.last) && Concluding(old(root.d), root.d)
      ensures RestartBegun(old(summary.restartState)) || old(summary.fileState) == Complete ==>
                root.d.tree == old(root.d.tree)
      ensures ok ==> Published(root.d, id) && root.d.tree == old(root.d.tree)
      ensures old(root.Healthy()) ==> root.alive && Published(root.d, id) && root.d.tree == old(root.d.tree)
    {
      hide Inv, Accepted, NamedRecord, AppliedChecksAt, RestoredAt, AppliedAt, IsLowerHexSha256;
      DurablePromise(root.s, root.d, root.h, id, plan);
      AppliedPassesAt(root.s, root.d, root.h.bases[id], id, plan);
      var verified := VerifyAppliedState();
      if verified && summary.fileState == Complete {
        var failure := CompletedRestartFailure();
        ok := PublishTerminalAndClear();
        ok := ok && !failure;
      } else if verified {
        ok := FinishRestart();
      } else if summary.fileState == Complete || RestartMayHaveStarted(summary.restartState) {
        ok := RecordTerminalReconciliationFailure();
      } else {
        ok := RecoverByRollback();
      }
    }

    method RecoverByRollback() returns (ok: bool)
      requires Open() && root.d.summaries[id] == summary
      requires summary.fileState != Complete && !RestartBegun(summary.restartState)
      modifies this`summary, this`active, root`d, root`h, root`alive
      ensures root.Valid() && root.h == old(root.h) && (root.alive ==> old(root.alive)) && !ok
      ensures Concluding(old(root.d), root.d) && root.d.terminal == old(root.d.terminal)
      ensures root.d.active.None? ==>
                forall i: nat :: i < |plan.operations| ==> RestoredAt(root.d.tree, root.h.bases[id], plan, i)
      ensures old(root.Healthy()) ==> root.alive && root.d.active.None?
    {
      hide Inv, Accepted, RestoredAt, IsLowerHexSha256, StatePromise;
      DurablePromise(root.s, root.d, root.h, id, plan);
      if summary.applyError.Empty() { summary := summary.(applyError := FAILURE); }
      ok := RollBack();
    }

    /** A rollback that was already durable: look again, then let go of the transaction. */
    method RecoverRolledBack() returns (ok: bool)
      requires Open() && root.d.summaries[id] == summary && summary.fileState == RolledBack
      modifies this`summary, this`active, root`d, root`h, root`alive
      ensures root.Valid() && root.h == old(root.h) && (root.alive ==> old(root.alive)) && !ok
      ensures Concluding(old(root.d), root.d) && root.d.terminal == old(root.d.terminal)
      ensures root.d.active.None? ==>
                forall i: nat :: i < |plan.operations| ==> RestoredAt(root.d.tree, root.h.bases[id], plan, i)
      ensures old(root.Healthy()) ==> root.alive && root.d.active.None?
    {
      hide Inv, Accepted, RestoredAt, IsLowerHexSha256, StatePromise;
      DurablePromise(root.s, root.d, root.h, id, plan);
      var reconciled := RollbackAll();
      if reconciled {
        var cleared := ClearActive();
      } else {
        var recorded := RecordRollbackFailure();
      }
      ok := false;
    }

    /**
      recover(): whatever journal state a crash left, one call without faults
      clears the active pointer; a transaction whose files were all applied is
      completed as it stands, any other is undone.
    */
    method Recover() returns (ok: bool)
      requires Open() && root.d.summaries[id] == summary
      modifies this`summary, this`active, root`d, root`h, root`alive
      ensures root.Valid() && (root.alive ==> old(root.alive)) && root.h.bases == old(root.h.bases)
      ensures root.h.last == old(root.h.last) && Concluding(old(root.d), root.d)
      ensures RestartBegun(old(summary.restartState)) || old(summary.fileState) == Complete ==>
                root.d.tree == old(root.d.tree)
      ensures ok ==> Published(root.d, id) && root.d.tree == old(root.d.tree)
      ensures old(root.Healthy()) ==> root.alive && root.d.active.None?
      ensures old(root.Healthy()) ==>
                if old(summary.fileState) in {FilesApplied, Complete}
                then Published(root.d, id) && root.d.tree == old(root.d.tree)
                else root.d.terminal == old(root.d.terminal)
                     && forall i: nat :: i < |plan.operations| ==> RestoredAt(root.d.tree, root.h.bases[id], plan, i)
    {
      hide Inv, Accepted, RestoredAt, IsLowerHexSha256, StatePromise;
      active := true;
      DurablePromise(root.s, root.d, root.h, id, plan);
      if summary.fileState in {FilesApplied, Complete} {
        ok := RecoverApplied();
      } else if summary.fileState == RolledBack {
        ok := RecoverRolledBack();
      } else {
        ok := RecoverByRollback();
      }
    }

    /** A finished transaction is only looked at again. */
    method ReplayTerminal() returns (ok: bool)
      modifies root`alive
      ensures root.alive ==> old(root.alive)
      ensures ok ==> summary.fileState == Complete && !CompletedRestartFailure()
      ensures ok ==> forall i: nat :: i < |plan.operations| ==>
                       (id, i) in root.d.records && AppliedChecksAt(root.d, id, plan, i)
      ensures old(root.Healthy()) ==> root.alive
      ensures old(root.Healthy()) && summary.fileState == Complete && summary.operationCount == |plan.operations| ==>
              (forall i: nat :: i < |plan.operations| ==>
                 && NamedRecord(root.s, root.d, id, plan, i)
                 && (id, i) in root.d.records && AppliedChecksAt(root.d, id, plan, i)) ==>
              (ok <==> !CompletedRestartFailure())
    {
      hide NamedRecord, AppliedChecks;
      ok := summary.fileState == Complete;
      if ok { ok := VerifyAppliedState(); }
      if ok { ok := !CompletedRestartFailure(); }
    }

    method RollbackSourceRecords() returns (ok: bool, records: seq<OperationRecord>)
      modifies root`alive
      ensures root.alive ==> old(root.alive)
      ensures ok ==> summary.fileState == Complete && |records| == |plan.operations|
      ensures ok ==> forall i: nat :: i < |records| ==>
                       (id, i) in root.d.records && records[i] == root.d.records[(id, i)] && records[i].index == i
      ensures ok ==> forall i: nat :: i < |plan.operations| ==>
                       (id, i) in root.d.records && AppliedChecksAt(root.d, id, plan, i)
      ensures old(root.Healthy()) ==> root.alive
      ensures old(root.Healthy()) && summary.fileState == Complete && summary.operationCount == |plan.operations| ==>
              (forall i: nat :: i < |plan.operations| ==>
                 && NamedRecord(root.s, root.d, id, plan, i)
                 && (id, i) in root.d.records && AppliedChecksAt(root.d, id, plan, i)) ==> ok
    {
      hide NamedRecord, AppliedChecks;
      records := [];
      ok := summary.fileState == Complete;
      if ok { ok := VerifyAppliedState(); }
      if ok { ok, records := LoadOperationRecords(); }
    }

    // ---------- preparing ----------

    /** The transaction's plan is durable and nobody points at it yet. */
    ghost predicate Drafted() reads root {
      && root.Valid() && Preparing(root.d, root.h, id, plan)
      && Accepted(plan, root.s.limits) && IsLowerHexSha256(id) && digest == root.s.planDigest(plan)
    }

    method PersistPrepared(i: nat, r: OperationRecord) returns (ok: bool)
      requires Drafted() && i < |plan.operations| && r.transactionId == id && r.index == i
      modifies root`d, root`alive
      ensures Drafted() && (root.alive ==> old(root.alive))
      ensures root.d == old(root.d) || root.d == PutRecord(old(root.d), r)
      ensures OnlyPreparation(old(root.d), root.d, id, i, (plan.backupDir, plan.operations[i].target))
      ensures ok ==> root.alive && root.d == PutRecord(old(root.d), r)
      ensures old(root.Healthy()) ==> ok && root.alive
    {
      hide Inv, Accepted, OnlyPreparation, IsLowerHexSha256;
      ghost var d := root.d;
      ok := root.WritePreparedOperation(plan, r);
      OnlyPreparedRecord(d, root.d, r, (plan.backupDir, plan.operations[i].target));
      if ok { ok := root.Probe(); }
    }

    /** An existing backup must verify; otherwise the original is copied and looked at again. */
    method EnsureBackup(i: nat, record: OperationRecord, source: File) returns (ok: bool)
      requires Drafted() && i < |plan.operations| && Describes(record, Some(source))
      modifies root`d, root`alive
      ensures Drafted() && (root.alive ==> old(root.alive))
      ensures OnlyPreparation(old(root.d), root.d, id, i, (plan.backupDir, plan.operations[i].target))
      ensures root.d.records == old(root.d.records)
      ensures var slot := (plan.backupDir, plan.operations[i].target);
              ok ==> root.alive && slot in root.d.store && VerifiesOriginal(root.d.store[slot], record)
      ensures old(root.Healthy()) ==> root.alive
      ensures old(root.Healthy()) && SlotUsable(old(root.d), (plan.backupDir, plan.operations[i].target), source) ==> ok
    {
      hide Inv, Accepted, IsLowerHexSha256;
      var slot := (plan.backupDir, plan.operations[i].target);
      ok := root.Probe();
      if !ok { return; }
      if slot in root.d.store {
        ok := VerifiesOriginal(root.d.store[slot], record);
        return;
      }
      var identity := root.NewIdentity();
      ok := root.WriteBackup(plan.backupDir, plan.operations[i].target, Copy(source, identity));
      if !ok { return; }
      ok := root.Probe();
      ok := ok && VerifiesOriginal(root.d.store[slot], record);
    }

    /** Byte budget, backup, and the record that the backup is durable. */
    method BackUpOriginal(i: nat, record: OperationRecord, source: File) returns (ok: bool, r: OperationRecord)
      requires Drafted() && i < |plan.operations| && Describes(record, Some(source))
      requires record.transactionId == id && record.index == i
      requires Lookup(root.d.tree, plan.operations[i].target) == Some(source)
      modifies this`preparedBackupBytes, root`d, root`alive
      ensures Drafted() && (root.alive ==> old(root.alive))
      ensures OnlyPreparation(old(root.d), root.d, id, i, (plan.backupDir, plan.operations[i].target))
      ensures r.transactionId == id && r.index == i
      ensures var slot := (plan.backupDir, plan.operations[i].target);
              ok ==> && root.alive && (id, i) in root.d.records
                     && root.d.records[(id, i)] == record.(backupState := BackupDurable)
                     && slot in root.d.store && VerifiesOriginal(root.d.store[slot], record)
      ensures ok ==> && preparedBackupBytes == old(preparedBackupBytes) + source.size
                     && BudgetAllows(root.s.limits, old(preparedBackupBytes), source.size)
      ensures old(root.Healthy()) ==> root.alive
      ensures old(root.Healthy()) && BudgetAllows(root.s.limits, old(preparedBackupBytes), source.size) ==>
              SlotUsable(old(root.d), (plan.backupDir, plan.operations[i].target), source) ==> ok
    {
      hide Inv, Accepted, IsLowerHexSha256, OnlyPreparation, VerifiesOriginal, SlotUsable;
      ghost var d := root.d;
      ghost var slot := (plan.backupDir, plan.operations[i].target);
      OnlyPreparedRecord(d, d, record, slot);
      r := record;
      ok := false;
      if record.originalSize > root.s.limits.maxArtifactBytes
        || preparedBackupBytes > root.s.limits.maxTotalArtifactBytes
        || record.originalSize > root.s.limits.maxTotalArtifactBytes - preparedBackupBytes
      {
        return;
      }
      preparedBackupBytes := preparedBackupBytes + record.originalSize;
      var found := root.Probe();
      if !found || plan.operations[i].target !in root.d.tree
        || root.d.tree[plan.operations[i].target].identity != record.originalIdentity
      {
        return;
      }
      var backedUp := EnsureBackup(i, record, root.d.tree[plan.operations[i].target]);
      ghost var e := root.d;
      if !backedUp { return; }
      var after := root.Probe();
      if !after { return; }
      r := r.(backupState := BackupDurable);
      ok := PersistPrepared(i, r);
      StoreOnlyGrew(e, root.d, id, i, slot);
      OnlyPreparationTransitive(d, e, root.d, id, i, slot);
    }

    /** Initial record, then the backup unless nothing has to be kept. */
    method DraftOperation(i: nat, original: Option<File>) returns (ok: bool, r: OperationRecord)
      requires Drafted() && i < |plan.operations| && original == Lookup(root.d.tree, plan.operations[i].target)
      modifies this`preparedBackupBytes, root`d, root`alive
      ensures Drafted() && (root.alive ==> old(root.alive))
      ensures OnlyPreparation(old(root.d), root.d, id, i, (plan.backupDir, plan.operations[i].target))
      ensures root.d.tree == old(root.d.tree) && r.transactionId == id && r.index == i
      ensures ok ==> root.alive && PreparedAt(root.s, root.d, root.d.tree, id, plan, i)
      ensures var size := BackupSize(root.d.tree, plan.operations[i]);
              ok ==> && preparedBackupBytes == old(preparedBackupBytes) + size
                     && (size == 0 || BudgetAllows(root.s.limits, old(preparedBackupBytes), size))
      ensures old(root.Healthy()) ==> root.alive
      ensures old(root.Healthy())
              && BudgetAllows(root.s.limits, old(preparedBackupBytes), BackupSize(root.d.tree, plan.operations[i])) ==>
              (original.Some? && !Idempotent(original, plan.operations[i]) ==>
                 SlotUsable(old(root.d), (plan.backupDir, plan.operations[i].target), original.value)) ==> ok
    {
      hide Inv, Accepted, IsLowerHexSha256, OnlyPreparation, VerifiesOriginal, PreparedAt, MatchesInstalled, SlotUsable;
      hide BudgetAllows;
      var o := plan.operations[i];
      ghost var d, slot := root.d, (plan.backupDir, o.target);
      SettingIsGood(root.s, root.d, root.h);
      hide GoodSetting;
      r := InitialRecord(id, i, root.s.operationId(id, i, o), o, original);
      InitialRecordIsGood(root.s, id, i, o, original);
      hide ValidOperationRecord, PreparedRecord, Describes;
      ok := PersistPrepared(i, r);
      ghost var e := root.d;
      SameTree(d, e, id, i, slot);
      if !ok { return; }
      if original.Some? && !MatchesInstalled(original, o) {
        SlotStill(d, e, slot, original.value);
        ok, r := BackUpOriginal(i, r, original.value);
        SameTree(e, root.d, id, i, slot);
        OnlyPreparationTransitive(d, e, root.d, id, i, slot);
        if ok { RecordMakesPrepared(root.s, root.d, id, plan, i, true); }
      } else {
        RecordMakesPrepared(root.s, root.d, id, plan, i, false);
      }
    }

    method PrepareOne(i: nat) returns (ok: bool)
      requires Drafted() && i < |plan.operations|
      modifies this`preparedBackupBytes, root`d, root`alive
      ensures Drafted() && (root.alive ==> old(root.alive))
      ensures OnlyPreparation(old(root.d), root.d, id, i, (plan.backupDir, plan.operations[i].target))
      ensures root.d == old(root.d).(records := root.d.records, store := root.d.store)
      ensures ok ==>
                root.alive && PreparedAt(root.s, root.d, root.d.tree, id, plan, i) && Expected(root.d.tree, plan, i)
      ensures var size := BackupSize(root.d.tree, plan.operations[i]);
              ok ==> && preparedBackupBytes == old(preparedBackupBytes) + size
                     && (size == 0 || BudgetAllows(root.s.limits, old(preparedBackupBytes), size))
      ensures old(root.Healthy()) ==> root.alive
      ensures old(root.Healthy()) && Ready(old(root.d), plan, i) ==>
              BudgetAllows(root.s.limits, old(preparedBackupBytes), BackupSize(root.d.tree, plan.operations[i])) ==> ok
    {
      hide Inv, Accepted, IsLowerHexSha256, OnlyPreparation, PreparedAt, MatchesInstalled, MatchesPrecondition;
      hide BudgetAllows, Restores, MatchesEvidence;
      var o := plan.operations[i];
      ghost var d, slot := root.d, (plan.backupDir, o.target);
      var observed := root.Probe();
      var original := Lookup(root.d.tree, o.target);
      if !observed || (o.precondition.Some? && !MatchesPrecondition(original, o.precondition.value)) {
        NoPreparation(d, id, i, slot);
        return false;
      }
      var r;
      ok, r := DraftOperation(i, original);
      if !ok {
        ghost var g := root.d;
        var failed := PersistPrepared(i, r.(error := FAILURE));
        OnlyPreparationTransitive(d, g, root.d, id, i, slot);
      }
      SameTree(d, root.d, id, i, slot);
    }

    method PrepareAll() returns (ok: bool)
      requires Drafted() && preparedBackupBytes == 0
      modifies this`preparedBackupBytes, root`d, root`alive
      ensures Drafted() && (root.alive ==> old(root.alive))
      ensures root.d == old(root.d).(records := root.d.records, store := root.d.store)
      ensures ok ==> BackupBudgetOk(root.d.tree, plan, root.s.limits) && AllExpected(root.d.tree, plan)
      ensures ok ==> forall i: nat :: i < |plan.operations| ==> PreparedAt(root.s, root.d, root.d.tree, id, plan, i)
      ensures OnlyBackups(old(root.d), root.d, plan.backupDir)
      ensures old(root.Healthy()) ==> root.alive
      ensures old(root.Healthy()) && AllReady(root.s, old(root.d), plan) ==>
              ok && AllStaged(root.d, plan)
    {
      hide Inv, Accepted, IsLowerHexSha256, PreparedAt, BackupSize, OnlyPreparation, Preparing;
      ghost var start := root.d;
      ghost var tree := root.d.tree;
      ghost var ready := root.Healthy() && AllReady(root.s, root.d, plan);
      if ready { ReadyIsStaged(root.s, root.d, plan); }
      NoBackups(start, plan.backupDir);
      hide Ready, Expected, AllStaged, OnlyBackups, AllReady;
      ok := true;
      var i := 0;
      while ok && i < |plan.operations|
        invariant 0 <= i <= |plan.operations|
        invariant Drafted() && (root.alive ==> old(root.alive))
        invariant root.d == old(root.d).(records := root.d.records, store := root.d.store)
        invariant ok ==> preparedBackupBytes == BackupBytes(tree, plan.operations[..i])
        invariant ok ==> preparedBackupBytes <= root.s.limits.maxTotalArtifactBytes
        invariant ok ==>
                    forall j :: 0 <= j < i ==> BackupSize(tree, plan.operations[j]) <= root.s.limits.maxArtifactBytes
        invariant ok ==>
                    forall j: nat :: j < i ==> PreparedAt(root.s, root.d, tree, id, plan, j) && Expected(tree, plan, j)
        invariant OnlyBackups(start, root.d, plan.backupDir)
        invariant old(root.Healthy()) ==> root.alive
        invariant ready ==> ok && AllStaged(root.d, plan)
        invariant ready ==> forall j: nat :: i <= j < |plan.operations| ==> Ready(root.d, plan, j)
        decreases |plan.operations| - i, if ok then 1 else 0
      {
        ghost var d := root.d;
        NextBackupBytes(tree, plan.operations, i);
        if ready { BudgetForEach(root.s.limits, tree, plan, i); }
        ok := PrepareOne(i);
        OneMoreBackup(start, d, root.d, id, i, (plan.backupDir, plan.operations[i].target));
        AllPreparationElsewhere(root.s, d, root.d, id, plan, i);
        i := i + 1;
      }
      assert plan.operations[..|plan.operations|] == plan.operations;
    }

    method ApplyAll() returns (ok: bool)
      requires Open() && root.d.summaries[id].fileState == Applying
      requires forall i: nat :: i < |plan.operations| ==> PreparedAt(root.s, root.d, root.h.bases[id], id, plan, i)
      modifies root`d, root`alive
      ensures Open() && (root.alive ==> old(root.alive))
      ensures root.d == old(root.d).(tree := root.d.tree, records := root.d.records)
      ensures ok ==> AllApplied(root.s, root.d, root.d.tree, root.h.bases[id], id, plan)
      ensures ok ==> AllStaged(old(root.d), plan)
      ensures old(root.Healthy()) ==> root.alive
      ensures old(root.Healthy()) && StagingOpen() ==>
              AllStaged(old(root.d), plan) ==> ok
    {
      hide Inv, Accepted, IsLowerHexSha256, PreparedAt, AppliedAt, Staged;
      ghost var base := root.h.bases[id];
      ghost var ready := root.Healthy() && AllStaged(root.d, plan) && StagingOpen();
      ghost var start := root.d;
      ok := true;
      var i := 0;
      while ok && i < |plan.operations|
        invariant 0 <= i <= |plan.operations|
        invariant Open() && (root.alive ==> old(root.alive))
        invariant root.d == old(root.d).(tree := root.d.tree, records := root.d.records)
        invariant ok ==> forall j: nat :: j < i ==> AppliedAt(root.s, root.d, root.d.tree, base, id, plan, j)
        invariant ok ==> forall j: nat :: i <= j < |plan.operations| ==> PreparedAt(root.s, root.d, base, id, plan, j)
        invariant old(root.Healthy()) ==> root.alive
        invariant forall j: nat :: i <= j < |plan.operations| ==> (Staged(root.d, plan, j) <==> Staged(start, plan, j))
        invariant ok ==> forall j: nat :: j < i ==> Staged(start, plan, j)
        invariant ready ==> ok
        decreases |plan.operations| - i, if ok then 1 else 0
      {
        ghost var d := root.d;
        ok := ApplyOne(i);
        ApplicationElsewhere(root.s, d, root.d, base, id, plan, i);
        i := i + 1;
      }
    }

    // ---------- starting ----------

    method FailAndRollback() returns (ok: bool)
      requires Open() && SummaryOk(root.s, summary, id, plan)
      requires summary.fileState != Complete && !RestartBegun(summary.restartState)
      requires root.d.summaries[id].fileState != Complete && !RestartBegun(root.d.summaries[id].restartState)
      modifies this`summary, this`active, root`d, root`h, root`alive
      ensures root.Valid() && root.h == old(root.h) && (root.alive ==> old(root.alive)) && !ok
      ensures Concluding(old(root.d), root.d)
      ensures root.d.active.None? ==> AllRestored(root.d.tree, root.h.bases[id], plan)
      ensures old(root.Healthy()) ==> root.alive && root.d.active.None?
    {
      hide Inv, Accepted, IsLowerHexSha256, RestoredAt;
      summary := summary.(applyError := FAILURE);
      ok := RollBack();
    }

    /** From the durable `Applying` on: every target, then `FilesApplied`. */
    method ApplyFiles() returns (ok: bool)
      requires Open() && root.d.summaries[id] == summary && summary.fileState == Prepared
      requires forall i: nat :: i < |plan.operations| ==> PreparedAt(root.s, root.d, root.h.bases[id], id, plan, i)
      modifies this`summary, root`d, root`h, root`alive
      ensures Open() && root.h == old(root.h) && (root.alive ==> old(root.alive))
      ensures SummaryOk(root.s, summary, id, plan) && summary.fileState != Complete
      ensures !RestartBegun(summary.restartState)
      ensures root.d.summaries[id].fileState != Complete && !RestartBegun(root.d.summaries[id].restartState)
      ensures Concluding(old(root.d), root.d) && root.d.active == old(root.d.active)
      ensures ok ==> root.d.summaries[id] == summary && summary.fileState == FilesApplied
      ensures ok ==> InstalledOver(root.d.tree, root.h.bases[id], plan)
      ensures ok ==> AllStaged(old(root.d), plan)
      ensures old(root.Healthy()) ==> root.alive
      ensures old(root.Healthy()) && StagingOpen() ==>
              AllStaged(old(root.d), plan) ==> ok
    {
      hide Inv, Accepted, IsLowerHexSha256, PreparedAt, Staged, CanWriteSummary, InstalledOver, AllApplied;
      DurablePromise(root.s, root.d, root.h, id, plan);
      ghost var base := root.h.bases[id];
      summary := summary.(fileState := Applying);
      SummaryFits(root.s, root.d, root.h, id, plan, summary);
      ghost var d := root.d;
      ok := PersistSummary();
      StillPrepared(root.s, d, root.d, base, id, plan);
      if !ok { return; }
      ok := ApplyAll();
      if !ok { return; }
      AppliedOutcome(root.s, root.d, root.h, id, plan);
      summary := summary.(fileState := FilesApplied);
      SummaryFits(root.s, root.d, root.h, id, plan, summary);
      ok := PersistSummary();
    }

    /** start(), after the active pointer is durable. */
    method RunActive() returns (ok: bool)
      requires Open() && root.d.summaries[id] == summary && summary.fileState == Prepared
      requires forall i: nat :: i < |plan.operations| ==> PreparedAt(root.s, root.d, root.h.bases[id], id, plan, i)
      modifies this`summary, this`active, root`d, root`h, root`alive
      ensures root.Valid() && root.h.bases == old(root.h.bases) && root.h.last == old(root.h.last)
      ensures (root.alive ==> old(root.alive)) && Concluding(old(root.d), root.d)
      ensures ok ==> Published(root.d, id) && InstalledOver(root.d.tree, root.h.bases[id], plan)
      ensures root.d.active.None? ==>
                AllStaged(old(root.d), plan) || AllRestored(root.d.tree, root.h.bases[id], plan)
      ensures old(root.Healthy()) ==> root.alive && root.d.active.None?
      ensures old(root.Healthy()) && StagingOpen() ==>
              AllStaged(old(root.d), plan) ==>
              Published(root.d, id) && InstalledOver(root.d.tree, root.h.bases[id], plan)
    {
      hide Inv, Accepted, IsLowerHexSha256, PreparedAt, Staged, InstalledOver, StatePromise;
      DurablePromise(root.s, root.d, root.h, id, plan);
      active := true;
      ok := root.Probe();
      if ok { ok := ApplyFiles(); }
      if ok {
        ok := FinishRestart();
      } else {
        ok := FailAndRollback();
      }
    }

    /** The plan snapshot and the `Prepared` summary. */
    method Snapshot() returns (ok: bool)
      requires root.Valid() && root.d.active.None? && Accepted(plan, root.s.limits) && IsLowerHexSha256(id)
      requires digest == root.s.planDigest(plan)
      requires Unmarked(summary)
      modifies this`summary, root`d, root`h, root`alive
      ensures root.Valid() && (root.alive ==> old(root.alive)) && root.d.active.None? && root.h.last == old(root.h.last)
      ensures root.d == old(root.d).(plans := root.d.plans, summaries := root.d.summaries)
      ensures ok ==>
                Drafted() && id in root.d.summaries && root.d.summaries[id] == summary && summary.fileState == Prepared
      ensures old(root.Healthy()) ==> root.alive
      ensures old(root.Healthy()) && id !in old(root.d.plans) ==> ok
    {
      hide Inv, GoodSetting, IsLowerHexSha256, SummaryOk, Accepted, Preparing;
      SettingIsGood(root.s, root.d, root.h);
      ok := root.WritePlanSnapshot(id, plan);
      if !ok { return; }
      ok := root.Probe();
      if !ok { return; }
      ok := PersistPreparedSummary();
    }

    method PersistPreparedSummary() returns (ok: bool)
      requires Drafted() && GoodSetting(root.s)
      requires Unmarked(summary)
      modifies this`summary, root`d, root`alive
      ensures Drafted() && (root.alive ==> old(root.alive))
      ensures root.d == old(root.d).(summaries := root.d.summaries)
      ensures ok ==> id in root.d.summaries && root.d.summaries[id] == summary && summary.fileState == Prepared
      ensures old(root.Healthy()) ==> ok && root.alive
    {
      hide Inv, GoodSetting, IsLowerHexSha256, SummaryOk, Accepted, Preparing;
      summary := Summary(id, digest, Prepared, summary.completedAt, |plan.operations|, summary.applyError,
                         summary.rollbackError,
                         if plan.restartCommand == [] then NotRequested else NotAttempted, summary.restartError);
      PreparedSummaryFits(root.s, summary, id, plan);
      ok := root.WritePreparedSummary(plan, summary);
      if ok { ok := root.Probe(); }
    }

    /** start(), up to the active pointer: nothing in the install directory is touched. */
    method Draft() returns (ok: bool)
      requires root.Valid() && root.d.active.None? && Accepted(plan, root.s.limits) && IsLowerHexSha256(id)
      requires digest == root.s.planDigest(plan) && preparedBackupBytes == 0
      requires Unmarked(summary)
      modifies this`summary, this`preparedBackupBytes, root`d, root`h, root`alive
      ensures root.Valid() && (root.alive ==> old(root.alive)) && root.d.tree == old(root.d.tree) && root.d.active.None?
      ensures root.h.last == old(root.h.last)
      ensures ok ==> Drafted() && CanActivate(root.s, root.d, root.h, id, plan) && AllExpected(root.d.tree, plan)
      ensures ok ==> id in root.d.summaries && root.d.summaries[id] == summary && summary.fileState == Prepared
      ensures ok ==> forall i: nat :: i < |plan.operations| ==> PreparedAt(root.s, root.d, root.d.tree, id, plan, i)
      ensures OnlyBackups(old(root.d), root.d, plan.backupDir)
      ensures old(root.Healthy()) ==> root.alive
      ensures old(root.Healthy()) && id !in old(root.d.plans) && AllReady(root.s, old(root.d), plan) ==>
              ok && AllStaged(root.d, plan)
    {
      hide Inv, Accepted, IsLowerHexSha256, PreparedAt, BackupBudgetOk;
      hide Ready, Staged, AllReady, CanActivate, AllExpected;
      ghost var d := root.d;
      ok := Snapshot();
      if !ok { return; }
      if AllReady(root.s, d, plan) { StillReady(root.s, d, root.d, plan); }
      ok := PrepareAll();
      if !ok { return; }
      PreparedActivates(root.s, root.d, root.h, id, plan);
      ok := root.Probe();
    }

    method Activate() returns (ok: bool)
      requires Drafted() && CanActivate(root.s, root.d, root.h, id, plan)
      requires id in root.d.summaries && root.d.summaries[id] == summary
      requires forall i: nat :: i < |plan.operations| ==> PreparedAt(root.s, root.d, root.d.tree, id, plan, i)
      modifies root`d, root`h, root`alive
      ensures root.Valid() && (root.alive ==> old(root.alive)) && root.d.tree == old(root.d.tree)
      ensures root.d.store == old(root.d.store)
      ensures ok ==>
                Open() && root.h.last == Some(id) && root.h.bases[id] == root.d.tree && root.d.summaries[id] == summary
      ensures ok ==> forall i: nat :: i < |plan.operations| ==> PreparedAt(root.s, root.d, root.d.tree, id, plan, i)
      ensures forall i: nat :: i < |plan.operations| ==> (Staged(old(root.d), plan, i) <==> Staged(root.d, plan, i))
      ensures old(root.Healthy()) ==> ok && root.alive
    {
      hide Inv, Accepted, IsLowerHexSha256, PreparedAt, Staged, KnownTransaction, OpOkAt;
      ghost var d := root.d;
      ok := root.WriteActive(id, plan, Receipt(id, digest, None));
      StillPrepared(root.s, d, root.d, d.tree, id, plan);
    }

    /**
      start(): the tree is settled whenever nothing is active afterwards, success
      means everything is installed, and without faults nothing stays active.
    */
    method Start() returns (ok: bool)
      requires root.Valid() && root.d.active.None? && Accepted(plan, root.s.limits) && IsLowerHexSha256(id)
      requires digest == root.s.planDigest(plan) && preparedBackupBytes == 0
      requires Unmarked(summary)
      modifies this`summary, this`preparedBackupBytes, this`active, root`d, root`h, root`alive
      ensures root.Valid() && (root.alive ==> old(root.alive))
      ensures root.d.active.None? ==> Settled(root.d.tree, old(root.d.tree), plan)
      ensures root.d.active.None? && plan.backupDir != plan.stagingDir ==>
                Restored(root.d.tree, old(root.d.tree)) || AllStaged(old(root.d), plan)
      ensures ok ==> Published(root.d, id) && InstalledOver(root.d.tree, old(root.d.tree), plan)
      ensures ok || root.d.active.Some? || root.d.tree != old(root.d.tree) ==> AllExpected(old(root.d.tree), plan)
      ensures old(root.Healthy()) ==> root.alive && root.d.active.None?
      ensures && old(root.Healthy()) && id !in old(root.d.plans) && AllReady(root.s, old(root.d), plan)
              && StagingOpen()
              ==> Published(root.d, id) && InstalledOver(root.d.tree, old(root.d.tree), plan)
    {
      hide Inv, Accepted, IsLowerHexSha256, PreparedAt, Staged;
      hide InstalledOver, AllReady, Settled, CanActivate, AllExpected;
      ghost var d := root.d;
      UntouchedIsSettled(root.d.tree, plan);
      ok := Draft();
      if !ok { return; }
      ok := Activate();
      if !ok { return; }
      ghost var e := root.d;
      ok := RunActive();
      if root.d.active.None? {
        ClearedIsSettled(root.s, root.d, root.h, id, plan);
        if AllRestored(root.d.tree, d.tree, plan) { SettledAndRestored(root.d.tree, d.tree, plan); }
        if AllStaged(e, plan) && plan.backupDir != plan.stagingDir { StagedBefore(d, e, plan); }
      }
    }
  }
}
