/**
  The entry points of the executor (updater/ApplyExecutor.cpp): recovery of an
  active transaction, replay of a finished one, a new transaction, a rollback
  request, and any number of process lifetimes of these.
*/
module Execution {
  import opened Wrappers
  import opened Topology
  import opened Plans
  import opened PlanJson
  import opened Journal
  import opened InstallState
  import opened InstallRoots
  import opened ApplyTransactions
  import opened Rollbacks

  /** lexically_normal equality. */
  predicate SamePath(s: Setting, a: string, b: string) { s.normalPath(a) == s.normalPath(b) }

  lemma ActiveKnown(s: Setting, d: Durable, h: History)
    requires Inv(s, d, h) && d.active.Some?
    ensures var rc := d.active.value;
            var t := rc.transactionId;
            && t in d.plans && t in d.summaries && t in h.bases && rc == ReceiptOf(s, t, d.plans[t])
            && Accepted(d.plans[t], s.limits) && ValidRecoveredSummary(d.plans[t], rc, d.summaries[t])
            && h.last == Some(t)
  {
    hide GoodSetting, TerminalPart, RestartsOk, LastSettled, Accepted, OpOkAt, ValidSummaryRecord, StatePromise;
  }

  lemma TerminalKnown(s: Setting, d: Durable, h: History)
    requires Inv(s, d, h) && d.terminal.Some?
    ensures var rc := d.terminal.value;
            var t := rc.transactionId;
            && t in d.plans && t in d.summaries && t in h.bases && rc.planDigest == s.planDigest(d.plans[t])
            && Accepted(d.plans[t], s.limits) && BackupBudgetOk(h.bases[t], d.plans[t], s.limits)
            && d.summaries[t].fileState == Complete && d.summaries[t].completedAt == rc.completedAt
            && d.summaries[t].operationCount == |d.plans[t].operations|
            && ValidRecoveredSummary(d.plans[t], rc, d.summaries[t])
            && (d.active.None? ==> AllApplied(s, d, d.tree, h.bases[t], t, d.plans[t]))
  {
    hide GoodSetting, ActivePart, RestartsOk, LastSettled, Accepted, AllApplied, ValidSummaryRecord, BackupBudgetOk;
  }

  // ---------- recovery and replay ----------

  /** A journal this code wrote is never refused: recovery fails only on reads, or for another directory. */
  method RecoverActiveTransaction(requested: Plan, root: InstallRoot) returns (ok: bool)
    requires root.Valid() && root.d.active.Some?
    modifies root`d, root`h, root`alive
    ensures root.Valid() && (root.alive ==> old(root.alive))
    ensures Concluding(old(root.d), root.d) && root.h.bases == old(root.h.bases) && root.h.last == old(root.h.last)
    ensures ok ==> Published(root.d, old(root.d).active.value.transactionId) && root.d.tree == old(root.d.tree)
    ensures var t := old(root.d).active.value.transactionId;
            t in old(root.d.summaries) && RestartBegun(old(root.d.summaries)[t].restartState) ==>
              root.d.tree == old(root.d.tree)
    ensures old(root.Healthy()) ==> root.alive
    ensures var t := old(root.d).active.value.transactionId;
            old(root.Healthy()) && t in old(root.d.plans) ==>
            SamePath(root.s, old(root.d.plans)[t].installDir, requested.installDir) ==>
            && root.d.active.None? && t in old(root.d.summaries) && t in old(root.h.bases)
            && if old(root.d.summaries)[t].fileState in {FilesApplied, Complete}
               then Published(root.d, t) && root.d.tree == old(root.d.tree)
               else root.d.terminal == old(root.d.terminal)
                    && forall i: nat :: i < |old(root.d.plans)[t].operations| ==>
                         RestoredAt(root.d.tree, old(root.h.bases)[t], old(root.d.plans)[t], i)
  {
    hide Inv, Accepted, AllApplied, RestoredAt;
    ActiveKnown(root.s, root.d, root.h);
    var active := root.d.active.value;
    var t := active.transactionId;
    ok := root.Probe();
    if !ok || root.s.planDigest(root.d.plans[t]) != active.planDigest
      || !SamePath(root.s, root.d.plans[t].installDir, requested.installDir)
    {
      return false;
    }
    var plan := root.d.plans[t];
    ok := root.Probe();
    if !ok || !ValidRecoveredSummary(plan, active, root.d.summaries[t]) { return false; }
    ok := root.Probe();
    if !ok { return; }
    var transaction := new ApplyTransaction(root, plan, false, t, active.planDigest, root.d.summaries[t]);
    ok := transaction.Recover();
  }

  method ReplayTerminalTransaction(requested: Plan, root: InstallRoot, terminal: Receipt) returns (ok: bool)
    requires root.Valid() && root.d.active.None? && root.d.terminal == Some(terminal)
    modifies root`alive
    ensures root.Valid() && (root.alive ==> old(root.alive))
    ensures terminal.transactionId in root.d.plans && terminal.transactionId in root.d.summaries
    ensures ok ==> AllInstalled(root.d.tree, root.d.plans[terminal.transactionId])
    ensures old(root.Healthy()) ==> root.alive
    ensures var t := terminal.transactionId;
            old(root.Healthy()) && SamePath(root.s, root.d.plans[t].installDir, requested.installDir) ==>
            (ok <==> root.d.summaries[t].restartState in {NotRequested, Launched})
  {
    hide Inv, Accepted, AllApplied, AppliedChecksAt, BackupBudgetOk, NamedRecord;
    TerminalKnown(root.s, root.d, root.h);
    var t := terminal.transactionId;
    AppliedIsInstalled(root.s, root.d, root.d.tree, root.h.bases[t], t, root.d.plans[t]);
    AppliedPassesAt(root.s, root.d, root.h.bases[t], t, root.d.plans[t]);
    ok := root.Probe();
    if !ok || root.s.planDigest(root.d.plans[t]) != terminal.planDigest
      || !SamePath(root.s, root.d.plans[t].installDir, requested.installDir)
    {
      return false;
    }
    var plan := root.d.plans[t];
    ok := root.Probe();
    if !ok || !ValidRecoveredSummary(plan, terminal, root.d.summaries[t])
      || terminal.completedAt != root.d.summaries[t].completedAt
    {
      return false;
    }
    ok := root.Probe();
    if !ok { return; }
    var transaction := new ApplyTransaction(root, plan, false, t, terminal.planDigest, root.d.summaries[t]);
    ok := transaction.ReplayTerminal();
  }

  // ---------- a new transaction ----------

  predicate HasReplace(plan: Plan) { exists i :: 0 <= i < |plan.operations| && plan.operations[i].kind == Replace }

  /** `id` is the fresh random transaction id. */
  method StartNewTransaction(plan: Plan, root: InstallRoot, id: string) returns (ok: bool)
    requires root.Valid() && root.d.active.None? && IsLowerHexSha256(id)
    modifies root`d, root`h, root`alive
    ensures root.Valid() && (root.alive ==> old(root.alive))
    ensures root.d.active.None? ==> Settled(root.d.tree, old(root.d.tree), plan)
    ensures root.d.active.None? && plan.backupDir != plan.stagingDir ==>
              Restored(root.d.tree, old(root.d).tree) || AllStaged(old(root.d), plan)
    ensures ok ==> Published(root.d, id) && InstalledOver(root.d.tree, old(root.d.tree), plan)
    ensures ok || root.d.active.Some? || root.d.tree != old(root.d.tree) ==>
              Accepted(plan, root.s.limits) && AllExpected(old(root.d.tree), plan)
    ensures old(root.Healthy()) ==> root.alive && root.d.active.None?
    ensures old(root.Healthy()) && Accepted(plan, root.s.limits) && id !in old(root.d.plans) ==>
            AllReady(root.s, old(root.d), plan) ==>
            Published(root.d, id) && InstalledOver(root.d.tree, old(root.d.tree), plan)
  {
    hide Inv, Accepted, IsLowerHexSha256, AllReady, InstalledOver, Settled, AllExpected, AllStaged;
    UntouchedIsSettled(root.d.tree, plan);
    UntouchedIsRestored(root.d.tree);
    hide Restored;
    ok := ValidateApplyPlanResources(plan, root.s.limits);
    if !ok { return; }
    ok := root.Probe();
    if !ok { return; }
    var none := JournalError("", "");
    var transaction := new ApplyTransaction(
      root, plan, HasReplace(plan), id, root.s.planDigest(plan),
      Summary("", "", Prepared, None, 0, none, none, NotRequested, none));
    ok := transaction.Start();
  }

  // ---------- rolling back a completed transaction ----------

  predicate OperationFreeRequest(request: Plan) {
    && request.schemaVersion == 2 && request.intent == Rollback && request.rollbackOf.Some?
    && request.operations == [] && request.restartCommand == []
  }

  predicate ValidRollbackRequest(s: Setting, request: Plan, source: Plan)
    requires request.rollbackOf.Some?
  {
    && OperationFreeRequest(request) && request.toVersion == "" && request.manifestSha256 == ""
    && source.intent == Install && source.rollbackOf.None?
    && SamePath(s, request.installDir, source.installDir) && SamePath(s, request.stagingDir, source.backupDir)
    && SamePath(s, request.backupDir, s.undoRoot(request.installDir, request.rollbackOf.value.transactionId))
    && (request.appId == "" || request.appId == source.appId)
    && request.fromVersion == source.toVersion && request.releaseId == source.releaseId
  }

  predicate ValidCompletedRollbackPlan(s: Setting, request: Plan, completed: Plan)
    requires request.rollbackOf.Some?
  {
    && completed.intent == Rollback && completed.rollbackOf == request.rollbackOf
    && SamePath(s, completed.installDir, request.installDir) && SamePath(s, completed.stagingDir, request.stagingDir)
    && SamePath(s, completed.backupDir, request.backupDir)
    && SamePath(s, request.backupDir, s.undoRoot(request.installDir, request.rollbackOf.value.transactionId))
    && (request.appId == "" || request.appId == completed.appId)
    && request.fromVersion == completed.fromVersion && request.releaseId == completed.releaseId
    && request.toVersion == "" && request.manifestSha256 == ""
  }

  /** The request names the terminal transaction and everything validateRollbackRequest compares agrees. */
  predicate UndoesTerminal(s: Setting, d: Durable, request: Plan) {
    && d.terminal.Some?
    && request.rollbackOf == Some(Reference(d.terminal.value.transactionId, d.terminal.value.planDigest))
    && d.terminal.value.transactionId in d.plans
    && ValidRollbackRequest(s, request, d.plans[d.terminal.value.transactionId])
  }

  /** The verified records of the completed transaction. */
  method ReadSourceRecords(root: InstallRoot) returns (ok: bool, records: seq<OperationRecord>)
    requires root.Valid() && root.d.active.None? && root.d.terminal.Some?
    modifies root`alive
    ensures root.alive ==> old(root.alive)
    ensures var t := root.d.terminal.value.transactionId;
            ok ==> t in root.h.bases && t in root.d.plans
                   && Undoable(root.s, root.d, root.h.bases[t], t, root.d.plans[t], records)
    ensures old(root.Healthy()) ==> ok && root.alive
  {
    hide Inv, AllApplied, AppliedChecksAt, BackupBudgetOk, NamedRecord, Accepted, ValidRecoveredSummary;
    TerminalKnown(root.s, root.d, root.h);
    var rc := root.d.terminal.value;
    var t := rc.transactionId;
    AppliedPassesAt(root.s, root.d, root.h.bases[t], t, root.d.plans[t]);
    ok := root.Probe();
    records := [];
    if ok {
      var transaction := new ApplyTransaction(root, root.d.plans[t], false, t, rc.planDigest, root.d.summaries[t]);
      ok, records := transaction.RollbackSourceRecords();
    }
  }

  /**
    Without faults, a request that names the completed transaction restores
    every managed target's existence, contents and known permissions.
  */
  method UndoTerminal(request: Plan, root: InstallRoot, id: string) returns (ok: bool)
    requires root.Valid() && root.d.active.None? && IsLowerHexSha256(id)
    requires UndoesTerminal(root.s, root.d, request) && Accepted(request, root.s.limits)
    modifies root`d, root`h, root`alive
    ensures root.Valid() && (root.alive ==> old(root.alive))
    ensures old(root.d).terminal.value.transactionId in old(root.h).bases
    ensures var t := old(root.d).terminal.value.transactionId;
            var source, base := old(root.d).plans[t], old(root.h).bases[t];
            ok ==> && Published(root.d, id)
                   && (forall i: nat :: i < |source.operations| ==> RestoredAt(root.d.tree, base, source, i))
                   && (OthersUntouched(old(root.d).tree, base, source) ==> Restored(root.d.tree, base))
    ensures old(root.Healthy()) ==> root.alive && root.d.active.None?
    ensures var t := old(root.d).terminal.value.transactionId;
            var source, base := old(root.d).plans[t], old(root.h).bases[t];
            old(root.Healthy()) && id !in old(root.d).plans ==>
            UndoSlotsUsable(old(root.d), source, request.backupDir) ==>
            && Published(root.d, id)
            && (forall i: nat :: i < |source.operations| ==> RestoredAt(root.d.tree, base, source, i))
            && (OthersUntouched(old(root.d).tree, base, source) ==> Restored(root.d.tree, base))
  {
    hide Inv, AllApplied, AppliedChecksAt, BackupBudgetOk, NamedRecord;
    hide Restored, RestoredAt, AllReady, InstalledOver, OthersUntouched;
    RequestIsUndo(request, root.s.limits);
    hide Undoable, Accepted, IsLowerHexSha256, UndoRequest, Derivable;
    hide Disjoint, UndoSlotsUsable, ValidRollbackRequest, ValidRecoveredSummary;
    TerminalKnown(root.s, root.d, root.h);
    var rc := root.d.terminal.value;
    var t := rc.transactionId;
    ghost var d, base := root.d, root.h.bases[t];
    var source := root.d.plans[t];
    var records;
    ok, records := ReadSourceRecords(root);
    if !ok { return; }
    UndoableIsDerivable(root.s, d, base, t, source, records);
    DerivableIsIndexed(source, records);
    var plan := DeriveRollbackPlan(request, source, records);
    UndoIsAccepted(root.s, d, base, t, source, records, request);
    if UndoSlotsUsable(d, source, request.backupDir) { UndoIsReady(root.s, d, base, t, source, records, request); }
    ok := StartNewTransaction(plan.value, root, id);
    if InstalledOver(root.d.tree, d.tree, plan.value) {
      UndoRestores(root.s, d, base, t, source, records, request, root.d.tree);
    }
  }

  lemma RequestIsUndo(request: Plan, limits: Limits)
    requires Accepted(request, limits) && request.rollbackOf.Some?
    ensures UndoRequest(request)
  {
  }

  lemma DerivableIsIndexed(source: Plan, records: seq<OperationRecord>)
    requires Derivable(source, records)
    ensures Indexed(source.operations, records)
  {
  }

  method ExecuteRollbackRequest(
    request: Plan, root: InstallRoot, terminal: Option<Receipt>, id: string) returns (ok: bool)
    requires root.Valid() && root.d.active.None? && root.d.terminal == terminal && IsLowerHexSha256(id)
    requires Accepted(request, root.s.limits)
    modifies root`d, root`h, root`alive
    ensures root.Valid() && (root.alive ==> old(root.alive))
    ensures old(root.Healthy()) ==> root.alive && root.d.active.None?
    ensures !UndoesTerminal(root.s, old(root.d), request) ==> root.d == old(root.d)
    ensures UndoesTerminal(root.s, old(root.d), request) ==>
              var t := old(root.d).terminal.value.transactionId;
              && t in old(root.h).bases
              && var source, base := old(root.d).plans[t], old(root.h).bases[t];
                 ok || (old(root.Healthy()) && id !in old(root.d).plans
                        && UndoSlotsUsable(old(root.d), source, request.backupDir)) ==>
                 && Published(root.d, id)
                 && (forall i: nat :: i < |source.operations| ==> RestoredAt(root.d.tree, base, source, i))
                 && (OthersUntouched(old(root.d).tree, base, source) ==> Restored(root.d.tree, base))
  {
    hide Inv, Accepted, IsLowerHexSha256, ValidRecoveredSummary;
    hide ValidRollbackRequest, ValidCompletedRollbackPlan, Restored, RestoredAt;
    hide OthersUntouched, UndoSlotsUsable, AllApplied, BackupBudgetOk;
    RollbackShape(root.s, root.d, request);
    if !OperationFreeRequest(request) || terminal.None? { return false; }
    TerminalKnown(root.s, root.d, root.h);
    var rc := terminal.value;
    var t := rc.transactionId;
    ok := root.Probe();
    if !ok || root.s.planDigest(root.d.plans[t]) != rc.planDigest
      || !ValidRecoveredSummary(root.d.plans[t], rc, root.d.summaries[t])
      || rc.completedAt != root.d.summaries[t].completedAt
    {
      ok := false;
      return;
    }
    if request.rollbackOf != Some(Reference(t, rc.planDigest)) {
      if !ValidCompletedRollbackPlan(root.s, request, root.d.plans[t]) { return false; }
      ok := ReplayTerminalTransaction(request, root, rc);
      return;
    }
    if !ValidRollbackRequest(root.s, request, root.d.plans[t]) { return false; }
    ok := UndoTerminal(request, root, id);
  }

  /** Asked again after it completed, the same request finds its own rollback and only looks at it. */
  lemma RepeatedRequestIsRecognized(s: Setting, request: Plan, source: Plan, records: seq<OperationRecord>)
    requires request.rollbackOf.Some? && ValidRollbackRequest(s, request, source) && Indexed(source.operations, records)
    ensures ValidCompletedRollbackPlan(s, request, Undo(request, source, records))
  {
    hide Inverses;
  }

  lemma RollbackShape(s: Setting, d: Durable, request: Plan)
    ensures UndoesTerminal(s, d, request) ==> OperationFreeRequest(request)
  {
  }

  // ---------- the executor ----------

  /** An active transaction belongs to the directory the request is for. */
  predicate ForActiveDirectory(s: Setting, d: Durable, request: Plan) {
    d.active.Some? && d.active.value.transactionId in d.plans ==>
      SamePath(s, d.plans[d.active.value.transactionId].installDir, request.installDir)
  }

  /** The transaction a fault-free recovery leaves as the last completed one. */
  function LastCompleted(d: Durable): Option<string> {
    if d.active.Some? && d.active.value.transactionId in d.summaries
       && d.summaries[d.active.value.transactionId].fileState in {FilesApplied, Complete}
    then Some(d.active.value.transactionId)
    else if d.terminal.Some? then Some(d.terminal.value.transactionId) else None
  }

  /** The request names the transaction that is, or after recovery will be, the last completed one. */
  predicate NamesLastCompleted(s: Setting, d: Durable, request: Plan) {
    && request.rollbackOf.Some? && LastCompleted(d) == Some(request.rollbackOf.value.transactionId)
    && var t := request.rollbackOf.value.transactionId;
       && t in d.plans && request.rollbackOf.value.planDigest == s.planDigest(d.plans[t])
       && ValidRollbackRequest(s, request, d.plans[t])
  }

  /** Nothing is stored under the directory yet. */
  predicate FreshDirectory(d: Durable, directory: string) { forall k :: k in d.store ==> k.0 != directory }

  lemma FreshDirectoryIsUsable(d: Durable, plan: Plan, directory: string)
    requires FreshDirectory(d, directory)
    ensures UndoSlotsUsable(d, plan, directory)
  {
  }

  /** After recovery, or without any, the request is one to undo the terminal transaction. */
  lemma NamedIsTerminal(s: Setting, d: Durable, e: Durable, h: History, request: Plan)
    requires NamesLastCompleted(s, d, request) && Inv(s, e, h) && e.plans == d.plans
    requires e.terminal.Some? && LastCompleted(d) == Some(e.terminal.value.transactionId)
    ensures UndoesTerminal(s, e, request)
  {
    hide Inv, ValidRollbackRequest;
    TerminalKnown(s, e, h);
  }

  /** What the state the request meets says about the undoing ahead. */
  lemma UndoAhead(s: Setting, d: Durable, e: Durable, h: History, request: Plan)
    requires Inv(s, e, h) && e.plans == d.plans && e.store == d.store
    ensures NamesLastCompleted(s, d, request) && e.terminal.Some?
            && LastCompleted(d) == Some(e.terminal.value.transactionId) ==>
              && UndoesTerminal(s, e, request)
              && e.terminal.value.transactionId == request.rollbackOf.value.transactionId
    ensures FreshDirectory(d, request.backupDir) && UndoesTerminal(s, e, request) ==>
              UndoSlotsUsable(e, e.plans[e.terminal.value.transactionId], request.backupDir)
  {
    hide Inv, ValidRollbackRequest, UndoSlotsUsable;
    if NamesLastCompleted(s, d, request) && e.terminal.Some?
       && LastCompleted(d) == Some(e.terminal.value.transactionId)
    {
      NamedIsTerminal(s, d, e, h, request);
    }
    if FreshDirectory(d, request.backupDir) && UndoesTerminal(s, e, request) {
      FreshDirectoryIsUsable(e, e.plans[e.terminal.value.transactionId], request.backupDir);
    }
  }

  /** Without faults, the request installs or replays what it asks for, or undoes what it names. */
  method ExecuteApplyPlan(plan: Plan, root: InstallRoot, id: string) returns (ok: bool)
    requires root.Valid() && IsLowerHexSha256(id)
    modifies root`d, root`h, root`alive
    ensures root.Valid() && (root.alive ==> old(root.alive))
    ensures old(root.d).active.Some? ==> old(root.d).active.value.transactionId in old(root.d).plans
    ensures old(root.Healthy()) && Accepted(plan, root.s.limits) ==>
              ForActiveDirectory(root.s, old(root.d), plan) ==> root.d.active.None?
    ensures old(root.d).active.None? && plan.intent == Install && root.d.active.None? ==>
              Settled(root.d.tree, old(root.d).tree, plan)
    // nothing is installed that was not all staged
    ensures old(root.d).active.None? && plan.intent == Install && root.d.active.None? ==>
              plan.backupDir != plan.stagingDir ==>
              Restored(root.d.tree, old(root.d).tree) || AllStaged(old(root.d), plan)
    ensures old(root.d).active.None? && plan.intent == Install && old(root.Healthy()) ==>
              Accepted(plan, root.s.limits) ==>
              (old(root.d).terminal.Some? ==> old(root.d).terminal.value.planDigest != root.s.planDigest(plan)) ==>
              AllReady(root.s, old(root.d), plan) && id !in old(root.d).plans ==>
              Published(root.d, id) && InstalledOver(root.d.tree, old(root.d).tree, plan)
    ensures old(root.d).active.None? && plan.intent == Rollback && old(root.Healthy()) ==>
              Accepted(plan, root.s.limits) ==>
              UndoesTerminal(root.s, old(root.d), plan) ==>
              var t := old(root.d).terminal.value.transactionId;
              && t in old(root.h).bases
              && var source, base := old(root.d).plans[t], old(root.h).bases[t];
                 id !in old(root.d).plans && UndoSlotsUsable(old(root.d), source, plan.backupDir) ==>
                 && Published(root.d, id)
                 && (forall i: nat :: i < |source.operations| ==> RestoredAt(root.d.tree, base, source, i))
    // a rollback request, whether or not another transaction has to be recovered first
    ensures old(root.Healthy()) && Accepted(plan, root.s.limits) && plan.intent == Rollback ==>
              NamesLastCompleted(root.s, old(root.d), plan) && FreshDirectory(old(root.d), plan.backupDir) ==>
              id !in old(root.d).plans && ForActiveDirectory(root.s, old(root.d), plan) ==>
              var t := plan.rollbackOf.value.transactionId;
              && t in old(root.h).bases && Published(root.d, id)
              && forall i: nat :: i < |old(root.d).plans[t].operations| ==>
                   RestoredAt(root.d.tree, old(root.h).bases[t], old(root.d).plans[t], i)
    ensures old(root.d).active.None? && plan.intent == Install && ok ==>
              AllInstalled(root.d.tree, plan) || root.d == old(root.d)
    ensures old(root.d).active.None? && plan.intent == Install && old(root.d).terminal.Some? ==>
              old(root.d).terminal.value.planDigest == root.s.planDigest(plan) ==> root.d == old(root.d)
    ensures !Accepted(plan, root.s.limits) ==> root.d == old(root.d) && !ok
  {
    hide Inv, Accepted, IsLowerHexSha256, Settled, AllInstalled, InstalledOver, AllReady, RestoredAt, UndoSlotsUsable;
    UntouchedIsRestored(root.d.tree);
    hide ValidRollbackRequest, Restored, OthersUntouched;
    hide FreshDirectory, AllStaged;
    ghost var d := root.d;
    if root.d.active.Some? { ActiveKnown(root.s, root.d, root.h); }
    UntouchedIsSettled(root.d.tree, plan);
    ok := ValidateApplyPlanResources(plan, root.s.limits);
    if !ok { return; }
    ok := root.Probe();
    if !ok { return; }
    if root.d.active.Some? {
      var recovered := RecoverActiveTransaction(plan, root);
      if plan.intent != Rollback || root.d.active.Some? { return recovered; }
      ok := root.Probe();
      if !ok { return; }
      UndoAhead(root.s, d, root.d, root.h, plan);
      ok := ExecuteRollbackRequest(plan, root, root.d.terminal, id);
      return;
    }
    if plan.intent == Rollback {
      UndoAhead(root.s, d, root.d, root.h, plan);
      ok := ExecuteRollbackRequest(plan, root, root.d.terminal, id);
    } else if root.d.terminal.Some? && root.d.terminal.value.planDigest == root.s.planDigest(plan) {
      ok := ReplayTerminalTransaction(plan, root, root.d.terminal.value);
    } else {
      ok := StartNewTransaction(plan, root, id);
      if ok { InstalledMeansAll(root.d.tree, old(root.d).tree, plan); }
    }
  }

  lemma InstalledMeansAll(tree: Tree, base: Tree, plan: Plan)
    requires InstalledOver(tree, base, plan)
    ensures AllInstalled(tree, plan)
  {
  }

  // ---------- any number of lifetimes ----------

  /** One process: what downloads did before it ran, its plan, its fresh id, and whether anything may fail. */
  datatype Lifetime = Lifetime(
    staged: map<(string, string), File>, removed: set<(string, string)>, plan: Plan, id: string, faulty: bool)

  /** The write-ahead promise while a transaction is active, and that recovery will accept its journal. */
  ghost predicate JournalIsOpen(s: Setting, d: Durable, h: History) {
    d.active.Some? ==>
      var t := d.active.value.transactionId;
      && t in d.plans && t in d.summaries && t in h.bases
      && ValidRecoveredSummary(d.plans[t], d.active.value, d.summaries[t])
      && OthersUntouched(d.tree, h.bases[t], d.plans[t])
      && (forall i: nat :: i < |d.plans[t].operations| ==> OpOkAt(s, d, h.bases[t], t, d.plans[t], i))
      && (d.summaries[t].fileState in {FilesApplied, Complete} ==> AllInstalled(d.tree, d.plans[t]))
      && (d.summaries[t].fileState == RolledBack ==>
            forall i: nat :: i < |d.plans[t].operations| ==> RestoredAt(d.tree, h.bases[t], d.plans[t], i))
  }

  /** Restart at most once, only over an installed tree, which then stays as it is. */
  ghost predicate RestartsOnce(d: Durable, h: History) {
    && (forall t :: h.launches[t] <= 1)
    && (forall t :: t in h.launches ==> t in h.intents)
    && (forall t :: t in h.intents ==> t in d.plans && AllInstalled(h.intents[t], d.plans[t]))
    && (d.active.Some? && d.active.value.transactionId in h.intents ==>
          d.tree == h.intents[d.active.value.transactionId])
  }

  /** Completion times: on a summary exactly when it is complete, and the same on its receipt. */
  ghost predicate ReceiptsAgree(d: Durable) {
    && (forall t :: t in d.summaries ==>
          ValidSummaryRecord(d.summaries[t], false)
          && (d.summaries[t].completedAt.Some? <==> d.summaries[t].fileState == Complete))
    && (d.terminal.Some? ==>
          var t := d.terminal.value.transactionId;
          && t in d.summaries && d.terminal.value.completedAt == d.summaries[t].completedAt
          && d.summaries[t].fileState == Complete)
  }

  /** What holds between lifetimes, however each of them ended. */
  ghost predicate Quiescent(s: Setting, d: Durable, h: History) {
    LastSettled(d, h) && JournalIsOpen(s, d, h) && RestartsOnce(d, h) && ReceiptsAgree(d)
  }

  lemma InvariantMeans(s: Setting, d: Durable, h: History)
    requires Inv(s, d, h)
    ensures Quiescent(s, d, h)
  {
    JournalMeans(s, d, h);
    ReceiptsMean(s, d, h);
    hide GoodSetting, JournalOk, ActivePart, TerminalPart, JournalIsOpen, ReceiptsAgree, AllInstalled, Settled;
  }

  lemma JournalMeans(s: Setting, d: Durable, h: History)
    requires Inv(s, d, h)
    ensures JournalIsOpen(s, d, h)
  {
    hide GoodSetting, TerminalPart, LastSettled, JournalOk, RestartsOk;
    hide OpOkAt, AllApplied, AllInstalled, ValidRecoveredSummary, RestoredAt, Accepted, BackupBudgetOk;
    if d.active.Some? {
      var t := d.active.value.transactionId;
      ActiveKnown(s, d, h);
      if d.summaries[t].fileState in {FilesApplied, Complete} {
        AppliedIsInstalled(s, d, d.tree, h.bases[t], t, d.plans[t]);
      }
    }
  }

  lemma ReceiptsMean(s: Setting, d: Durable, h: History)
    requires Inv(s, d, h)
    ensures ReceiptsAgree(d)
  {
    hide GoodSetting, ActivePart, TerminalPart, RestartsOk, LastSettled;
    hide ValidRecoveredSummary, AllApplied, Accepted, BackupBudgetOk;
    hide IsLowerHexSha256;
    if d.terminal.Some? { TerminalKnown(s, d, h); }
    forall t | t in d.summaries
      ensures ValidSummaryRecord(d.summaries[t], false)
      ensures d.summaries[t].completedAt.Some? <==> d.summaries[t].fileState == Complete
    {
      assert SummaryOk(s, d.summaries[t], t, d.plans[t]);
    }
  }

  /**
    Any sequence of lifetimes, each of which may be cut short after any step:
    what holds between lifetimes holds at the end, and after every one of them.
  */
  method RunLifetimes(root: InstallRoot, lifetimes: seq<Lifetime>)
    requires root.Valid() && forall i :: 0 <= i < |lifetimes| ==> IsLowerHexSha256(lifetimes[i].id)
    modifies root`d, root`h, root`alive, root`faulty
    ensures root.Valid() && Quiescent(root.s, root.d, root.h)
  {
    hide Inv, IsLowerHexSha256, Quiescent;
    var i := 0;
    while i < |lifetimes|
      invariant 0 <= i <= |lifetimes| && root.Valid()
    {
      root.Reboot(lifetimes[i].faulty);
      root.Stage(lifetimes[i].staged, lifetimes[i].removed);
      var ok := ExecuteApplyPlan(lifetimes[i].plan, root, lifetimes[i].id);
      i := i + 1;
    }
    InvariantMeans(root.s, root.d, root.h);
  }
}
