/**
  Everything the apply transaction leaves on disk, and the write-ahead invariant
  that every durable step keeps (updater/ApplyExecutor.cpp, ApplyTransaction).

  File contents are their evidence (size and SHA-256).  Only the holder of the
  install lock changes the managed tree.
*/
module InstallState {
  import opened Wrappers
  import opened Topology
  import opened Plans
  import opened Timestamps
  import opened Journal

  type Tree = map<string, File>

  /**
    What the executor is given: limits, planDigest and operationId for the
    SHA-256 of canonical text, lexical path normalisation, and the directory
    that keeps what undoing a given transaction replaces.
  */
  datatype Setting = Setting(
    limits: Limits, planDigest: Plan -> string, operationId: (string, nat, Operation) -> string,
    normalPath: string -> string, undoRoot: (string, string) -> string)

  ghost predicate GoodSetting(s: Setting) {
    && (forall p :: IsLowerHexSha256(s.planDigest(p)))
    && (forall t, i, o :: IsLowerHexSha256(s.operationId(t, i, o)))
  }

  /**
    `store` holds the staging and backup directories, keyed by directory and
    path; the journal files are keyed by transaction and operation index.
  */
  datatype Durable = Durable(
    tree: Tree, store: map<(string, string), File>,
    plans: map<string, Plan>, summaries: map<string, Summary>, records: map<(string, nat), OperationRecord>,
    active: Option<Receipt>, terminal: Option<Receipt>)

  /**
    What happened, for stating properties: the tree each transaction found when
    it began, the tree at the moment its restart intent became durable, the
    restarts asked for, and the last transaction that was published as active.
  */
  datatype History = History(
    bases: map<string, Tree>, intents: map<string, Tree>, launches: multiset<string>, last: Option<string>)

  function Lookup<K, V>(m: map<K, V>, k: K): Option<V> {
    if k in m then Some(m[k]) else None
  }

  function SetFile(tree: Tree, path: string, f: Option<File>): (r: Tree)
    ensures forall q :: Lookup(r, q) == if q == path then f else Lookup(tree, q)
  {
    match f case None => tree - {path} case Some(x) => tree[path := x]
  }

  predicate Managed(plan: Plan, path: string) {
    exists i :: 0 <= i < |plan.operations| && plan.operations[i].target == path
  }

  // ---------- one operation ----------

  /** Preparation found the target already as the plan wants it. */
  predicate Idempotent(b: Option<File>, o: Operation) { MatchesInstalled(b, o) }

  /** The record and the backup of an operation whose target was `b` at preparation. */
  predicate RecordOk(b: Option<File>, o: Operation, r: OperationRecord, k: Option<File>) {
    && Describes(r, b)
    && (if Idempotent(b, o) then r.backupState == BackupNotRequired && r.applyState == ApplyComplete
        else if b.Some? then r.backupState == BackupDurable && k.Some? && VerifiesOriginal(k.value, r)
        else r.backupState == BackupNotRequired)
  }

  /** A replacement commit over an existing file may leave the name empty for a moment. */
  predicate InGap(f: Option<File>, b: Option<File>, o: Operation) {
    f.None? && b.Some? && o.kind == Replace
  }

  predicate OpOk(f: Option<File>, b: Option<File>, o: Operation, r: OperationRecord, k: Option<File>) {
    && RecordOk(b, o, r, k)
    && (if Idempotent(b, o) then f == b
        else
          && (Restores(f, b) || InstalledImage(f, o) || InGap(f, b, o))
          && (r.applyState == ApplyPending ==> f == b))
  }

  predicate AppliedOp(f: Option<File>, b: Option<File>, o: Operation, r: OperationRecord, k: Option<File>) {
    && RecordOk(b, o, r, k)
    && MatchesInstalled(f, o)
    && r.applyState == ApplyComplete && r.error.Empty()
    && (if Idempotent(b, o) then Restores(f, b) && r.rollbackState == RollbackNotRequired
        else InstalledImage(f, o) && r.rollbackState == RollbackNotStarted)
  }

  // ---------- one operation of a transaction on disk ----------

  ghost predicate NamedRecord(s: Setting, d: Durable, t: string, plan: Plan, i: nat)
    requires i < |plan.operations|
  {
    && (t, i) in d.records
    && var r := d.records[(t, i)];
       && ValidOperationRecord(r) && r.transactionId == t && r.index == i
       && r.operationId == s.operationId(t, i, plan.operations[i]) && r.intent == plan.operations[i].kind
  }

  ghost predicate OpOkAt(s: Setting, d: Durable, base: Tree, t: string, plan: Plan, i: nat)
    requires i < |plan.operations|
  {
    && NamedRecord(s, d, t, plan, i)
    && var o := plan.operations[i];
       OpOk(Lookup(d.tree, o.target), Lookup(base, o.target), o, d.records[(t, i)],
            Lookup(d.store, (plan.backupDir, o.target)))
  }

  ghost predicate AppliedAt(s: Setting, d: Durable, tree: Tree, base: Tree, t: string, plan: Plan, i: nat)
    requires i < |plan.operations|
  {
    && NamedRecord(s, d, t, plan, i)
    && var o := plan.operations[i];
       AppliedOp(Lookup(tree, o.target), Lookup(base, o.target), o, d.records[(t, i)],
                 Lookup(d.store, (plan.backupDir, o.target)))
  }

  ghost predicate AllApplied(s: Setting, d: Durable, tree: Tree, base: Tree, t: string, plan: Plan) {
    forall i: nat :: i < |plan.operations| ==> AppliedAt(s, d, tree, base, t, plan, i)
  }

  ghost predicate RestoredAt(tree: Tree, base: Tree, plan: Plan, i: nat)
    requires i < |plan.operations|
  {
    Restores(Lookup(tree, plan.operations[i].target), Lookup(base, plan.operations[i].target))
  }

  ghost predicate InstalledAt(tree: Tree, plan: Plan, i: nat)
    requires i < |plan.operations|
  {
    MatchesInstalled(Lookup(tree, plan.operations[i].target), plan.operations[i])
  }

  /** Every target is as the plan installs it. */
  ghost predicate AllInstalled(tree: Tree, plan: Plan) {
    forall i: nat :: i < |plan.operations| ==> InstalledAt(tree, plan, i)
  }

  ghost predicate OthersUntouched(tree: Tree, base: Tree, plan: Plan) {
    forall q :: !Managed(plan, q) ==> Lookup(tree, q) == Lookup(base, q)
  }

  /** Every path has its earlier existence, contents and known permissions. */
  ghost predicate Restored(tree: Tree, base: Tree) {
    forall q :: Restores(Lookup(tree, q), Lookup(base, q))
  }

  /** Never a mixture: everything as before, or everything as the plan installs it and the rest untouched. */
  ghost predicate Settled(tree: Tree, base: Tree, plan: Plan) {
    Restored(tree, base) || (AllInstalled(tree, plan) && OthersUntouched(tree, base, plan))
  }

  // ---------- backup budget ----------

  function BackupSize(base: Tree, o: Operation): nat {
    var b := Lookup(base, o.target);
    if b.Some? && !Idempotent(b, o) then b.value.size else 0
  }

  function BackupBytes(base: Tree, ops: seq<Operation>): nat {
    if |ops| == 0 then 0 else BackupBytes(base, ops[..|ops| - 1]) + BackupSize(base, ops[|ops| - 1])
  }

  ghost predicate BackupBudgetOk(base: Tree, plan: Plan, limits: Limits) {
    && (forall i :: 0 <= i < |plan.operations| ==> BackupSize(base, plan.operations[i]) <= limits.maxArtifactBytes)
    && BackupBytes(base, plan.operations) <= limits.maxTotalArtifactBytes
  }

  // ---------- the invariant ----------

  predicate RestartBegun(r: RestartState) { r in {RestartIntent, Launched, RestartFailed, OutcomeUnknown} }

  function ReceiptOf(s: Setting, t: string, plan: Plan): Receipt { Receipt(t, s.planDigest(plan), None) }

  /** A summary the journal accepts, and recovery will accept again. */
  ghost predicate SummaryOk(s: Setting, sum: Summary, t: string, plan: Plan) {
    && ValidSummaryRecord(sum, false)
    && ValidRecoveredSummary(plan, ReceiptOf(s, t, plan), sum)
    && sum.operationCount <= s.limits.maxContainerEntries
  }

  /** What a durable file state promises about the files. */
  ghost predicate StatePromise(s: Setting, d: Durable, base: Tree, t: string, plan: Plan, state: FileState) {
    match state
    case Prepared => forall q :: Lookup(d.tree, q) == Lookup(base, q)
    case RolledBack => forall i: nat :: i < |plan.operations| ==> RestoredAt(d.tree, base, plan, i)
    case FilesApplied => AllApplied(s, d, d.tree, base, t, plan)
    case Complete => AllApplied(s, d, d.tree, base, t, plan)
    case _ => true
  }

  ghost predicate KnownTransaction(s: Setting, d: Durable, h: History, t: string) {
    && t in d.plans && t in d.summaries && t in h.bases
    && Accepted(d.plans[t], s.limits)
    && BackupBudgetOk(h.bases[t], d.plans[t], s.limits)
  }

  ghost predicate ActiveOk(s: Setting, d: Durable, h: History, t: string) {
    && KnownTransaction(s, d, h, t)
    && h.last == Some(t)
    && var plan, base := d.plans[t], h.bases[t];
       && (forall i: nat :: i < |plan.operations| ==> OpOkAt(s, d, base, t, plan, i))
       && OthersUntouched(d.tree, base, plan)
       && StatePromise(s, d, base, t, plan, d.summaries[t].fileState)
  }

  /** The tree the last completed transaction is answerable for. */
  ghost function TerminalTree(d: Durable, h: History, t: string): Tree {
    if d.active.Some? && d.active.value.transactionId != t && d.active.value.transactionId in h.bases
    then h.bases[d.active.value.transactionId] else d.tree
  }

  ghost predicate TerminalOk(s: Setting, d: Durable, h: History, rc: Receipt) {
    var t := rc.transactionId;
    && KnownTransaction(s, d, h, t)
    && rc.planDigest == s.planDigest(d.plans[t])
    && d.summaries[t].fileState == Complete
    && rc.completedAt.Some? && d.summaries[t].completedAt == rc.completedAt
    && AllApplied(s, d, TerminalTree(d, h, t), h.bases[t], t, d.plans[t])
  }

  ghost predicate JournalOk(s: Setting, d: Durable) {
    && (forall t :: t in d.summaries ==> t in d.plans && SummaryOk(s, d.summaries[t], t, d.plans[t]))
    && (forall k :: k in d.records ==> k.0 in d.plans)
  }

  ghost predicate RestartsOk(d: Durable, h: History) {
    && (forall t :: t in h.intents <==> t in d.summaries && RestartBegun(d.summaries[t].restartState))
    && (forall t :: t in h.intents ==> t in d.plans && AllInstalled(h.intents[t], d.plans[t]))
    && (d.active.Some? && d.active.value.transactionId in h.intents ==>
          d.tree == h.intents[d.active.value.transactionId])
    && (forall t :: h.launches[t] <= 1)
    && (forall t :: t in h.launches ==> t in h.intents)
  }

  /** Crash atomicity: with nothing active, the last transaction's targets are all restored or all installed. */
  ghost predicate LastSettled(d: Durable, h: History) {
    d.active.None? && h.last.Some? ==>
      var t := h.last.value;
      t in d.plans && t in h.bases && Settled(d.tree, h.bases[t], d.plans[t])
  }

  ghost predicate ActivePart(s: Setting, d: Durable, h: History) {
    d.active.Some? ==>
      && ActiveOk(s, d, h, d.active.value.transactionId)
      && d.active.value == ReceiptOf(s, d.active.value.transactionId, d.plans[d.active.value.transactionId])
  }

  ghost predicate TerminalPart(s: Setting, d: Durable, h: History) {
    d.terminal.Some? ==> TerminalOk(s, d, h, d.terminal.value)
  }

  ghost predicate Inv(s: Setting, d: Durable, h: History) {
    && GoodSetting(s)
    && JournalOk(s, d)
    && ActivePart(s, d, h)
    && TerminalPart(s, d, h)
    && RestartsOk(d, h)
    && LastSettled(d, h)
  }

  // Each part of the invariant depends on little of the state.

  lemma JournalSame(s: Setting, d: Durable, e: Durable)
    requires JournalOk(s, d) && e.summaries == d.summaries && e.plans == d.plans && e.records == d.records
    ensures JournalOk(s, e)
  {
  }

  lemma RestartsSame(d: Durable, e: Durable, h: History, g: History)
    requires RestartsOk(d, h) && e.summaries == d.summaries && e.plans == d.plans
    requires g.intents == h.intents && g.launches == h.launches
    requires e.active.Some? && e.active.value.transactionId in h.intents ==>
               e.tree == h.intents[e.active.value.transactionId]
    ensures RestartsOk(e, g)
  {
  }

  lemma RestartTree(d: Durable, h: History)
    requires RestartsOk(d, h)
    ensures d.active.Some? && d.active.value.transactionId in h.intents ==>
              d.tree == h.intents[d.active.value.transactionId]
  {
  }

  /** What a plan backed up is still where it was. */
  ghost predicate SlotsKept(d: Durable, e: Durable, plan: Plan) {
    forall i: nat :: i < |plan.operations| ==>
      var slot := (plan.backupDir, plan.operations[i].target);
      slot in d.store ==> slot in e.store && e.store[slot] == d.store[slot]
  }

  lemma ActiveSame(s: Setting, d: Durable, e: Durable, h: History, g: History)
    requires ActivePart(s, d, h) && g.bases == h.bases && g.last == h.last
    requires e == d.(store := e.store, terminal := e.terminal)
    requires d.active.Some? ==> SlotsKept(d, e, d.plans[d.active.value.transactionId])
    ensures ActivePart(s, e, g)
  {
    hide Accepted, BackupBudgetOk, ValidOperationRecord, AppliedOp;
    if d.active.Some? {
      var t := d.active.value.transactionId;
      var plan, base := d.plans[t], h.bases[t];
      forall i: nat | i < |plan.operations| ensures OpOkAt(s, e, base, t, plan, i) {
        assert OpOkAt(s, d, base, t, plan, i);
      }
      if d.summaries[t].fileState in {FilesApplied, Complete} {
        forall i: nat | i < |plan.operations| ensures AppliedAt(s, e, d.tree, base, t, plan, i) {
          assert AppliedAt(s, d, d.tree, base, t, plan, i);
          AppliedSame(s, d, e, d.tree, base, t, plan, i);
        }
      }
    }
  }

  lemma LastWhileActive(d: Durable, h: History)
    requires d.active.Some?
    ensures LastSettled(d, h)
  {
  }

  /** Terminal evidence is untouched when its plan, summary, records, backups and tree are. */
  lemma TerminalSame(s: Setting, d: Durable, e: Durable, h: History, g: History, rc: Receipt)
    requires TerminalOk(s, d, h, rc)
    requires var t := rc.transactionId;
             && Lookup(e.plans, t) == Lookup(d.plans, t) && Lookup(g.bases, t) == Lookup(h.bases, t)
             && (forall i :: Lookup(e.records, (t, i)) == Lookup(d.records, (t, i)))
             && SlotsKept(d, e, d.plans[t])
             && t in e.summaries && e.summaries[t].fileState == Complete
             && e.summaries[t].completedAt == d.summaries[t].completedAt
             && TerminalTree(e, g, t) == TerminalTree(d, h, t)
    ensures TerminalOk(s, e, g, rc)
  {
    hide Accepted, BackupBudgetOk, AppliedOp, ValidOperationRecord, TerminalTree;
    var t := rc.transactionId;
    assert t in d.plans && t in h.bases;
    var tree, plan, base := TerminalTree(d, h, t), d.plans[t], h.bases[t];
    assert Lookup(d.plans, t) == Some(plan) && Lookup(h.bases, t) == Some(base);
    assert Lookup(e.plans, t) == Some(plan) && Lookup(g.bases, t) == Some(base);
    forall i: nat | i < |plan.operations| ensures AppliedAt(s, e, tree, base, t, plan, i) {
      assert AppliedAt(s, d, tree, base, t, plan, i);
      AppliedSame(s, d, e, tree, base, t, plan, i);
    }
  }

  lemma AppliedSame(s: Setting, d: Durable, e: Durable, tree: Tree, base: Tree, t: string, plan: Plan, i: nat)
    requires i < |plan.operations| && AppliedAt(s, d, tree, base, t, plan, i)
    requires Lookup(e.records, (t, i)) == Lookup(d.records, (t, i)) && SlotsKept(d, e, plan)
    ensures AppliedAt(s, e, tree, base, t, plan, i)
  {
  }

  // ---------- durable steps of the active transaction ----------

  /** A summary write for the active transaction may not forget a promise. */
  ghost predicate CanWriteSummary(s: Setting, d: Durable, h: History, sum: Summary) {
    && d.active.Some? && var t := d.active.value.transactionId;
    && sum.transactionId == t && t in d.plans && t in d.summaries && t in h.bases
    && SummaryOk(s, sum, t, d.plans[t])
    && StatePromise(s, d, h.bases[t], t, d.plans[t], sum.fileState)
    && (RestartBegun(d.summaries[t].restartState) ==> RestartBegun(sum.restartState))
    && (RestartBegun(sum.restartState) ==> sum.fileState in {FilesApplied, Complete})
    && (d.terminal.Some? && d.terminal.value.transactionId == t ==>
          sum.fileState == Complete && sum.completedAt == d.summaries[t].completedAt)
  }

  function PutSummary(d: Durable, sum: Summary): Durable {
    d.(summaries := d.summaries[sum.transactionId := sum])
  }

  /** The first durable restart intent is remembered with the tree it was written over. */
  function NoteIntent(d: Durable, h: History, sum: Summary): History {
    if RestartBegun(sum.restartState) && sum.transactionId !in h.intents
    then h.(intents := h.intents[sum.transactionId := d.tree]) else h
  }

  lemma AppliedIsInstalled(s: Setting, d: Durable, tree: Tree, base: Tree, t: string, plan: Plan)
    requires AllApplied(s, d, tree, base, t, plan)
    ensures AllInstalled(tree, plan)
  {
    forall i: nat | i < |plan.operations| ensures InstalledAt(tree, plan, i) {
      assert AppliedAt(s, d, tree, base, t, plan, i);
    }
  }

  lemma SummaryStep(s: Setting, d: Durable, h: History, sum: Summary)
    requires Inv(s, d, h) && CanWriteSummary(s, d, h, sum)
    ensures Inv(s, PutSummary(d, sum), NoteIntent(d, h, sum))
  {
    hide GoodSetting, JournalOk, ActivePart, TerminalPart, RestartsOk,
         LastSettled, StatePromise, SummaryOk;
    SummaryStepJournal(s, d, h, sum);
    SummaryStepActive(s, d, h, sum);
    SummaryStepTerminal(s, d, h, sum);
    SummaryStepRestarts(s, d, h, sum);
    LastWhileActive(PutSummary(d, sum), NoteIntent(d, h, sum));
  }

  lemma SummaryStepTerminal(s: Setting, d: Durable, h: History, sum: Summary)
    requires TerminalPart(s, d, h) && CanWriteSummary(s, d, h, sum)
    ensures TerminalPart(s, PutSummary(d, sum), NoteIntent(d, h, sum))
  {
    hide StatePromise, SummaryOk, AllApplied, Accepted, BackupBudgetOk;
    if d.terminal.Some? { TerminalSame(s, d, PutSummary(d, sum), h, NoteIntent(d, h, sum), d.terminal.value); }
  }

  lemma SummaryStepJournal(s: Setting, d: Durable, h: History, sum: Summary)
    requires JournalOk(s, d) && CanWriteSummary(s, d, h, sum)
    ensures JournalOk(s, PutSummary(d, sum))
  {
    hide StatePromise, SummaryOk;
  }

  lemma SummaryStepActive(s: Setting, d: Durable, h: History, sum: Summary)
    requires ActivePart(s, d, h) && CanWriteSummary(s, d, h, sum)
    ensures ActivePart(s, PutSummary(d, sum), NoteIntent(d, h, sum))
  {
    hide Accepted, BackupBudgetOk, ValidOperationRecord, SummaryOk;
    var t := d.active.value.transactionId;
    var e := PutSummary(d, sum);
    var plan, base := d.plans[t], h.bases[t];
    forall i: nat | i < |plan.operations| ensures OpOkAt(s, e, base, t, plan, i) {
      assert OpOkAt(s, d, base, t, plan, i);
    }
    PromiseIgnoresSummaries(s, d, e, base, t, plan, sum.fileState);
  }

  lemma SummaryStepRestarts(s: Setting, d: Durable, h: History, sum: Summary)
    requires RestartsOk(d, h) && CanWriteSummary(s, d, h, sum)
    ensures RestartsOk(PutSummary(d, sum), NoteIntent(d, h, sum))
  {
    var t := d.active.value.transactionId;
    if RestartBegun(sum.restartState) {
      AppliedIsInstalled(s, d, d.tree, h.bases[t], t, d.plans[t]);
    }
    RestartsAfterSummary(d, h, t, sum);
  }

  lemma RestartsAfterSummary(d: Durable, h: History, t: string, sum: Summary)
    requires RestartsOk(d, h)
    requires t in d.plans && t in d.summaries && sum.transactionId == t
    requires d.active.Some? && d.active.value.transactionId == t
    requires RestartBegun(d.summaries[t].restartState) ==> RestartBegun(sum.restartState)
    requires RestartBegun(sum.restartState) ==> AllInstalled(d.tree, d.plans[t])
    ensures RestartsOk(PutSummary(d, sum), NoteIntent(d, h, sum))
  {
    hide AllInstalled;
    var e, g := PutSummary(d, sum), NoteIntent(d, h, sum);
    assert g.launches == h.launches;
    forall u ensures u in g.intents <==> u in e.summaries && RestartBegun(e.summaries[u].restartState) {
      assert u != t ==> (u in g.intents <==> u in h.intents);
    }
    forall u | u in g.intents ensures u in e.plans && AllInstalled(g.intents[u], e.plans[u]) {
      assert u in h.intents || u == t;
    }
  }

  lemma AppliedIgnoresSummaries(s: Setting, d: Durable, e: Durable, tree: Tree, base: Tree, t: string, plan: Plan)
    requires d.records == e.records && d.store == e.store && AllApplied(s, d, tree, base, t, plan)
    ensures AllApplied(s, e, tree, base, t, plan)
  {
    forall i: nat | i < |plan.operations| ensures AppliedAt(s, e, tree, base, t, plan, i) {
      assert AppliedAt(s, d, tree, base, t, plan, i);
    }
  }

  lemma PromiseIgnoresSummaries(s: Setting, d: Durable, e: Durable, base: Tree, t: string, plan: Plan, state: FileState)
    requires d.records == e.records && d.store == e.store && d.tree == e.tree
    requires StatePromise(s, d, base, t, plan, state)
    ensures StatePromise(s, e, base, t, plan, state)
  {
    if state in {FilesApplied, Complete} { AppliedIgnoresSummaries(s, d, e, d.tree, base, t, plan); }
  }

  // ---------- record writes ----------

  ghost predicate CanWriteRecord(s: Setting, d: Durable, h: History, i: nat, r: OperationRecord) {
    && d.active.Some? && var t := d.active.value.transactionId;
    && t in d.plans && t in d.summaries && t in h.bases && i < |d.plans[t].operations|
    && d.summaries[t].fileState !in {FilesApplied, Complete}
    && var o := d.plans[t].operations[i];
    && ValidOperationRecord(r) && r.transactionId == t && r.index == i
    && r.operationId == s.operationId(t, i, o) && r.intent == o.kind
    && OpOk(Lookup(d.tree, o.target), Lookup(h.bases[t], o.target), o, r,
            Lookup(d.store, (d.plans[t].backupDir, o.target)))
  }

  function PutRecord(d: Durable, r: OperationRecord): Durable {
    d.(records := d.records[(r.transactionId, r.index) := r])
  }

  lemma RecordStep(s: Setting, d: Durable, h: History, i: nat, r: OperationRecord)
    requires Inv(s, d, h) && CanWriteRecord(s, d, h, i, r)
    ensures Inv(s, PutRecord(d, r), h)
  {
    hide GoodSetting, JournalOk, ActivePart, TerminalPart, RestartsOk, LastSettled;
    hide OpOk, ValidOperationRecord;
    RecordStepJournal(s, d, r);
    RecordStepActive(s, d, h, i, r);
    RecordStepTerminal(s, d, h, i, r);
    assert RestartsOk(PutRecord(d, r), h) by { RestartTree(d, h); RestartsSame(d, PutRecord(d, r), h, h); }
    LastWhileActive(PutRecord(d, r), h);
  }

  lemma RecordStepJournal(s: Setting, d: Durable, r: OperationRecord)
    requires JournalOk(s, d) && r.transactionId in d.plans
    ensures JournalOk(s, PutRecord(d, r))
  {
    hide SummaryOk;
  }

  lemma RecordStepTerminal(s: Setting, d: Durable, h: History, i: nat, r: OperationRecord)
    requires TerminalPart(s, d, h) && CanWriteRecord(s, d, h, i, r)
    ensures TerminalPart(s, PutRecord(d, r), h)
  {
    hide AllApplied, Accepted, BackupBudgetOk, OpOk, ValidOperationRecord;
    if d.terminal.Some? { TerminalSame(s, d, PutRecord(d, r), h, h, d.terminal.value); }
  }

  lemma RecordStepActive(s: Setting, d: Durable, h: History, i: nat, r: OperationRecord)
    requires ActivePart(s, d, h) && CanWriteRecord(s, d, h, i, r)
    ensures ActivePart(s, PutRecord(d, r), h)
  {
    hide Accepted, BackupBudgetOk;
    var t := d.active.value.transactionId;
    var e := PutRecord(d, r);
    var plan, base := d.plans[t], h.bases[t];
    forall j: nat | j < |plan.operations| ensures OpOkAt(s, e, base, t, plan, j) {
      assert OpOkAt(s, d, base, t, plan, j);
    }
    assert StatePromise(s, e, base, t, plan, d.summaries[t].fileState);
  }

  // ---------- target mutations ----------

  ghost predicate CanSetTarget(s: Setting, d: Durable, h: History, i: nat, f: Option<File>) {
    && d.active.Some? && var t := d.active.value.transactionId;
    && t in d.plans && t in d.summaries && t in h.bases && i < |d.plans[t].operations|
    && d.summaries[t].fileState in {Applying, RollingBack}
    && (t, i) in d.records
    && var o := d.plans[t].operations[i];
       OpOk(f, Lookup(h.bases[t], o.target), o, d.records[(t, i)], Lookup(d.store, (d.plans[t].backupDir, o.target)))
  }

  function PutTarget(d: Durable, path: string, f: Option<File>): Durable { d.(tree := SetFile(d.tree, path, f)) }

  lemma TargetStep(s: Setting, d: Durable, h: History, i: nat, f: Option<File>)
    requires Inv(s, d, h) && CanSetTarget(s, d, h, i, f)
    ensures var t := d.active.value.transactionId;
            Inv(s, PutTarget(d, d.plans[t].operations[i].target, f), h)
  {
    hide GoodSetting, JournalOk, ActivePart, TerminalPart, RestartsOk, LastSettled;
    hide OpOk, SetFile;
    var t := d.active.value.transactionId;
    var e := PutTarget(d, d.plans[t].operations[i].target, f);
    TargetStepActive(s, d, h, i, f);
    NotBegun(s, d, h, t);
    JournalSame(s, d, e);
    TerminalIgnoresTree(s, d, e, h);
    RestartsSame(d, e, h, h);
    LastWhileActive(e, h);
  }

  lemma NotBegun(s: Setting, d: Durable, h: History, t: string)
    requires JournalOk(s, d) && RestartsOk(d, h) && t in d.summaries
    requires d.summaries[t].fileState !in {FilesApplied, Complete}
    ensures t !in h.intents
  {
    hide AllInstalled, ValidSummaryRecord;
    assert SummaryOk(s, d.summaries[t], t, d.plans[t]);
  }

  lemma TargetStepActive(s: Setting, d: Durable, h: History, i: nat, f: Option<File>)
    requires ActivePart(s, d, h) && CanSetTarget(s, d, h, i, f)
    ensures var t := d.active.value.transactionId;
            ActivePart(s, PutTarget(d, d.plans[t].operations[i].target, f), h)
  {
    hide Accepted, BackupBudgetOk, ValidOperationRecord;
    var t := d.active.value.transactionId;
    var plan, base := d.plans[t], h.bases[t];
    var e := PutTarget(d, plan.operations[i].target, f);
    forall j: nat | j < |plan.operations| ensures OpOkAt(s, e, base, t, plan, j) {
      assert OpOkAt(s, d, base, t, plan, j);
      if j != i { TargetsDiffer(plan, s.limits, i, j); }
    }
    assert Managed(plan, plan.operations[i].target);
    assert OthersUntouched(e.tree, base, plan);
  }

  /** While another transaction is unfinished, the terminal one answers for the tree that transaction found. */
  lemma TerminalIgnoresTree(s: Setting, d: Durable, e: Durable, h: History)
    requires TerminalPart(s, d, h) && d.active.Some? && d.active.value.transactionId in h.bases
    requires d.active.value.transactionId in d.summaries
    requires d.summaries[d.active.value.transactionId].fileState != Complete
    requires e == d.(tree := e.tree)
    ensures TerminalPart(s, e, h)
  {
    hide AllApplied, Accepted, BackupBudgetOk;
    if d.terminal.Some? { TerminalSame(s, d, e, h, h, d.terminal.value); }
  }

  // ---------- ending a transaction ----------

  ghost predicate CanWriteTerminal(d: Durable, h: History, rc: Receipt) {
    && d.active.Some? && var t := d.active.value.transactionId;
    && t in d.summaries && d.summaries[t].fileState == Complete
    && d.summaries[t].completedAt.Some?
    && rc == Receipt(t, d.active.value.planDigest, d.summaries[t].completedAt)
  }

  lemma TerminalStep(s: Setting, d: Durable, h: History, rc: Receipt)
    requires Inv(s, d, h) && CanWriteTerminal(d, h, rc)
    ensures Inv(s, d.(terminal := Some(rc)), h)
  {
    hide GoodSetting, JournalOk, ActivePart, TerminalPart, RestartsOk, LastSettled;
    var e := d.(terminal := Some(rc));
    JournalSame(s, d, e);
    ActiveSame(s, d, e, h, h);
    NewTerminal(s, d, h, rc);
    assert RestartsOk(e, h) by { RestartTree(d, h); RestartsSame(d, e, h, h); }
    LastWhileActive(e, h);
  }

  lemma NewTerminal(s: Setting, d: Durable, h: History, rc: Receipt)
    requires ActivePart(s, d, h) && CanWriteTerminal(d, h, rc)
    ensures TerminalPart(s, d.(terminal := Some(rc)), h)
  {
    hide OpOkAt, Accepted, BackupBudgetOk, AppliedAt;
    var t := d.active.value.transactionId;
    var e := d.(terminal := Some(rc));
    forall i: nat | i < |d.plans[t].operations| ensures AppliedAt(s, e, d.tree, h.bases[t], t, d.plans[t], i) {
      assert AppliedAt(s, d, d.tree, h.bases[t], t, d.plans[t], i);
      AppliedSame(s, d, e, d.tree, h.bases[t], t, d.plans[t], i);
    }
  }

  ghost predicate CanClear(d: Durable) {
    && d.active.Some? && var t := d.active.value.transactionId;
    && t in d.summaries
    && (d.summaries[t].fileState == RolledBack
        || (d.summaries[t].fileState == Complete && d.terminal.Some? && d.terminal.value.transactionId == t))
  }

  lemma ClearStep(s: Setting, d: Durable, h: History)
    requires Inv(s, d, h) && CanClear(d)
    ensures Inv(s, d.(active := None), h)
  {
    hide GoodSetting, JournalOk, ActivePart, TerminalPart, RestartsOk, LastSettled;
    var e := d.(active := None);
    JournalSame(s, d, e);
    assert ActivePart(s, e, h) by { NothingActive(s, e, h); }
    RestartsSame(d, e, h, h);
    var t := d.active.value.transactionId;
    if d.summaries[t].fileState == RolledBack {
      ClearRolledBack(s, d, h);
    } else {
      ClearComplete(s, d, h);
    }
  }

  lemma NothingActive(s: Setting, d: Durable, h: History)
    requires d.active.None?
    ensures ActivePart(s, d, h)
  {
  }

  lemma ClearComplete(s: Setting, d: Durable, h: History)
    requires ActivePart(s, d, h) && TerminalPart(s, d, h) && d.active.Some? && d.terminal.Some?
    requires d.active.value.transactionId == d.terminal.value.transactionId
    requires d.summaries[d.active.value.transactionId].fileState == Complete
    ensures TerminalPart(s, d.(active := None), h) && LastSettled(d.(active := None), h)
  {
    hide OpOkAt, Accepted, BackupBudgetOk, AppliedAt;
    var t := d.active.value.transactionId;
    AppliedIsInstalled(s, d, d.tree, h.bases[t], t, d.plans[t]);
    TerminalSame(s, d, d.(active := None), h, h, d.terminal.value);
  }

  lemma ClearRolledBack(s: Setting, d: Durable, h: History)
    requires ActivePart(s, d, h) && TerminalPart(s, d, h) && d.active.Some?
    requires d.summaries[d.active.value.transactionId].fileState == RolledBack
    ensures TerminalPart(s, d.(active := None), h) && LastSettled(d.(active := None), h)
  {
    RolledBackIsRestored(s, d, h);
    hide OpOkAt, Accepted, BackupBudgetOk, AppliedAt, Restored;
    if d.terminal.Some? { TerminalSurvivesRestore(s, d, d.(active := None), h); }
  }

  lemma RolledBackIsRestored(s: Setting, d: Durable, h: History)
    requires d.active.Some? && ActivePart(s, d, h)
    requires d.summaries[d.active.value.transactionId].fileState == RolledBack
    ensures Restored(d.tree, h.bases[d.active.value.transactionId])
  {
    var t := d.active.value.transactionId;
    var plan, base := d.plans[t], h.bases[t];
    forall q ensures Restores(Lookup(d.tree, q), Lookup(base, q)) {
      if Managed(plan, q) {
        var i: nat :| i < |plan.operations| && plan.operations[i].target == q;
        assert RestoredAt(d.tree, base, plan, i);
      }
    }
  }

  lemma TerminalSurvivesRestore(s: Setting, d: Durable, e: Durable, h: History)
    requires d.active.Some? && d.terminal.Some? && TerminalOk(s, d, h, d.terminal.value)
    requires d.active.value.transactionId in h.bases && d.active.value.transactionId != d.terminal.value.transactionId
    requires Restored(d.tree, h.bases[d.active.value.transactionId])
    requires e == d.(active := None)
    ensures TerminalOk(s, e, h, d.terminal.value)
  {
    var u := d.terminal.value.transactionId;
    var plan, base := d.plans[u], h.bases[u];
    var before := h.bases[d.active.value.transactionId];
    forall i: nat | i < |plan.operations| ensures AppliedAt(s, e, e.tree, base, u, plan, i) {
      assert AppliedAt(s, d, before, base, u, plan, i);
      var o := plan.operations[i];
      var f, g, b := Lookup(e.tree, o.target), Lookup(before, o.target), Lookup(base, o.target);
      assert Restores(f, g);
      RestoresKeepsInstalled(f, g, o);
      if Idempotent(b, o) { RestoresTransitive(f, g, b); }
    }
  }

  // ---------- preparing a transaction nobody points at yet ----------

  ghost predicate Preparing(d: Durable, h: History, t: string, plan: Plan) {
    && d.active.None?
    && t in d.plans && d.plans[t] == plan && t in h.bases && h.bases[t] == d.tree
    && (d.terminal.Some? ==> d.terminal.value.transactionId != t)
    && h.last != Some(t)
    && t !in h.intents
  }

  lemma BaseStep(s: Setting, d: Durable, h: History, t: string)
    requires Inv(s, d, h) && d.active.None? && t !in d.plans
    ensures Inv(s, d, h.(bases := h.bases[t := d.tree]))
  {
    hide GoodSetting, JournalOk, ActivePart, TerminalPart, RestartsOk, LastSettled;
    var g := h.(bases := h.bases[t := d.tree]);
    NothingActive(s, d, g);
    RestartsSame(d, d, h, g);
    TerminalElsewhere(s, d, d, h, g, t);
    SettledElsewhere(d, d, h, g, t);
  }

  /** Nothing of a transaction without a plan snapshot, or not yet complete, is terminal evidence. */
  lemma TerminalElsewhere(s: Setting, d: Durable, e: Durable, h: History, g: History, t: string)
    requires TerminalPart(s, d, h) && d.active.None?
    requires t !in d.plans || (d.terminal.Some? ==> d.terminal.value.transactionId != t)
    requires e == d.(plans := e.plans, summaries := e.summaries, records := e.records)
    requires forall u :: u != t ==> Lookup(e.plans, u) == Lookup(d.plans, u)
    requires forall u :: u != t ==> Lookup(e.summaries, u) == Lookup(d.summaries, u)
    requires forall u :: u != t ==> Lookup(g.bases, u) == Lookup(h.bases, u)
    requires forall u, i :: u != t ==> Lookup(e.records, (u, i)) == Lookup(d.records, (u, i))
    ensures TerminalPart(s, e, g)
  {
    hide AllApplied, Accepted, BackupBudgetOk;
    if d.terminal.Some? {
      var u := d.terminal.value.transactionId;
      assert Lookup(d.summaries, u).Some?;
      TerminalSame(s, d, e, h, g, d.terminal.value);
    }
  }

  lemma SettledElsewhere(d: Durable, e: Durable, h: History, g: History, t: string)
    requires LastSettled(d, h) && d.active.None? && (h.last != Some(t) || t !in d.plans)
    requires e == d.(plans := e.plans, summaries := e.summaries, records := e.records)
    requires forall u :: u != t ==> Lookup(e.plans, u) == Lookup(d.plans, u)
    requires forall u :: u != t ==> Lookup(g.bases, u) == Lookup(h.bases, u)
    requires g.last == h.last
    ensures LastSettled(e, g)
  {
    hide Settled;
    if h.last.Some? {
      var u := h.last.value;
      assert u in d.plans && u in h.bases && Settled(d.tree, h.bases[u], d.plans[u]);
      assert Lookup(d.plans, u).Some? && Lookup(h.bases, u).Some?;
    }
  }

  lemma PlanStep(s: Setting, d: Durable, h: History, t: string, plan: Plan)
    requires Inv(s, d, h) && d.active.None? && t !in d.plans
    requires t in h.bases && h.bases[t] == d.tree
    ensures var e := d.(plans := d.plans[t := plan]); Inv(s, e, h) && Preparing(e, h, t, plan)
  {
    hide GoodSetting, JournalOk, ActivePart, TerminalPart, RestartsOk, LastSettled;
    var e := d.(plans := d.plans[t := plan]);
    NothingActive(s, e, h);
    PlanStepJournal(s, d, h, t, plan);
    TerminalElsewhere(s, d, e, h, h, t);
    SettledElsewhere(d, e, h, h, t);
    PlanStepFresh(s, d, h, t);
  }

  lemma PlanStepJournal(s: Setting, d: Durable, h: History, t: string, plan: Plan)
    requires JournalOk(s, d) && RestartsOk(d, h) && d.active.None? && t !in d.plans
    ensures var e := d.(plans := d.plans[t := plan]); JournalOk(s, e) && RestartsOk(e, h)
  {
    hide SummaryOk, AllInstalled;
  }

  lemma PlanStepFresh(s: Setting, d: Durable, h: History, t: string)
    requires TerminalPart(s, d, h) && RestartsOk(d, h) && LastSettled(d, h) && d.active.None? && t !in d.plans
    ensures (d.terminal.Some? ==> d.terminal.value.transactionId != t) && h.last != Some(t) && t !in h.intents
  {
    hide AllApplied, Accepted, BackupBudgetOk, AllInstalled, Settled;
  }

  lemma OrphanSummaryStep(s: Setting, d: Durable, h: History, t: string, plan: Plan, sum: Summary)
    requires Inv(s, d, h) && Preparing(d, h, t, plan)
    requires SummaryOk(s, sum, t, plan) && !RestartBegun(sum.restartState)
    ensures Inv(s, PutSummary(d, sum), h) && Preparing(PutSummary(d, sum), h, t, plan)
  {
    hide GoodSetting, JournalOk, ActivePart, TerminalPart, RestartsOk, LastSettled;
    assert sum.transactionId == t;
    hide SummaryOk;
    var e := PutSummary(d, sum);
    NothingActive(s, e, h);
    OrphanSummaryJournal(s, d, h, t, plan, sum);
    TerminalElsewhere(s, d, e, h, h, t);
    SettledElsewhere(d, e, h, h, t);
  }

  lemma OrphanSummaryJournal(s: Setting, d: Durable, h: History, t: string, plan: Plan, sum: Summary)
    requires JournalOk(s, d) && RestartsOk(d, h) && Preparing(d, h, t, plan) && sum.transactionId == t
    requires SummaryOk(s, sum, t, plan) && !RestartBegun(sum.restartState)
    ensures JournalOk(s, PutSummary(d, sum)) && RestartsOk(PutSummary(d, sum), h)
  {
    hide SummaryOk, AllInstalled;
  }

  lemma OrphanRecordStep(s: Setting, d: Durable, h: History, t: string, plan: Plan, r: OperationRecord)
    requires Inv(s, d, h) && Preparing(d, h, t, plan) && r.transactionId == t
    ensures Inv(s, PutRecord(d, r), h) && Preparing(PutRecord(d, r), h, t, plan)
  {
    hide GoodSetting, JournalOk, ActivePart, TerminalPart, RestartsOk, LastSettled;
    var e := PutRecord(d, r);
    NothingActive(s, e, h);
    RecordStepJournal(s, d, r);
    RestartsSame(d, e, h, h);
    TerminalElsewhere(s, d, e, h, h, t);
    SettledElsewhere(d, e, h, h, t);
  }

  function SlotsOf(plan: Plan): set<(string, string)> {
    set i | 0 <= i < |plan.operations| :: (plan.backupDir, plan.operations[i].target)
  }

  /** The backups the journal may still need: those of the active transaction and of the last completed one. */
  function BackupsInUse(d: Durable): set<(string, string)> {
    (if d.active.Some? && d.active.value.transactionId in d.plans
     then SlotsOf(d.plans[d.active.value.transactionId]) else {})
    + (if d.terminal.Some? && d.terminal.value.transactionId in d.plans
       then SlotsOf(d.plans[d.terminal.value.transactionId]) else {})
  }

  /** Anything but a backup in use may be added, replaced or removed. */
  ghost predicate StoreKeeps(d: Durable, e: Durable) {
    && e == d.(store := e.store)
    && forall k :: k in d.store && k in BackupsInUse(d) ==> k in e.store && e.store[k] == d.store[k]
  }

  lemma KeepsSlots(d: Durable, e: Durable, t: string)
    requires StoreKeeps(d, e) && t in d.plans
    requires (d.active.Some? && d.active.value.transactionId == t)
             || (d.terminal.Some? && d.terminal.value.transactionId == t)
    ensures SlotsKept(d, e, d.plans[t])
  {
    var plan := d.plans[t];
    forall i: nat | i < |plan.operations| ensures (plan.backupDir, plan.operations[i].target) in BackupsInUse(d) {
      assert (plan.backupDir, plan.operations[i].target) in SlotsOf(plan);
    }
  }

  lemma StoreStep(s: Setting, d: Durable, e: Durable, h: History)
    requires Inv(s, d, h) && StoreKeeps(d, e)
    ensures Inv(s, e, h)
  {
    ActiveHasPlan(s, d, h);
    hide GoodSetting, JournalOk, ActivePart, TerminalPart, RestartsOk, LastSettled, BackupsInUse;
    JournalSame(s, d, e);
    if d.active.Some? { KeepsSlots(d, e, d.active.value.transactionId); }
    ActiveSame(s, d, e, h, h);
    StoreStepTerminal(s, d, e, h);
    assert RestartsOk(e, h) by { RestartTree(d, h); RestartsSame(d, e, h, h); }
    StoreStepLast(d, e, h);
  }

  lemma ActiveHasPlan(s: Setting, d: Durable, h: History)
    requires ActivePart(s, d, h)
    ensures d.active.Some? ==> d.active.value.transactionId in d.plans
  {
    hide Accepted, BackupBudgetOk, OpOkAt, AllApplied;
  }

  lemma StoreStepTerminal(s: Setting, d: Durable, e: Durable, h: History)
    requires TerminalPart(s, d, h) && StoreKeeps(d, e)
    ensures TerminalPart(s, e, h)
  {
    hide AllApplied, Accepted, BackupBudgetOk;
    if d.terminal.Some? {
      KeepsSlots(d, e, d.terminal.value.transactionId);
      TerminalSame(s, d, e, h, h, d.terminal.value);
    }
  }

  lemma StoreStepLast(d: Durable, e: Durable, h: History)
    requires LastSettled(d, h) && StoreKeeps(d, e)
    ensures LastSettled(e, h)
  {
    hide Settled;
  }

  ghost predicate CanActivate(s: Setting, d: Durable, h: History, t: string, plan: Plan) {
    && Preparing(d, h, t, plan)
    && KnownTransaction(s, d, h, t)
    && d.summaries[t].fileState == Prepared
    && forall i: nat :: i < |plan.operations| ==> OpOkAt(s, d, d.tree, t, plan, i)
  }

  lemma ActivateStep(s: Setting, d: Durable, h: History, t: string, plan: Plan)
    requires Inv(s, d, h) && CanActivate(s, d, h, t, plan)
    ensures Inv(s, d.(active := Some(ReceiptOf(s, t, plan))), h.(last := Some(t)))
  {
    hide GoodSetting, JournalOk, ActivePart, TerminalPart, RestartsOk, LastSettled;
    hide OpOkAt, KnownTransaction;
    var e, g := d.(active := Some(ReceiptOf(s, t, plan))), h.(last := Some(t));
    JournalSame(s, d, e);
    ActivateStepActive(s, d, h, t, plan);
    ActivateStepTerminal(s, d, h, t, plan);
    RestartsSame(d, e, h, g);
    LastWhileActive(e, g);
  }

  lemma ActivateStepActive(s: Setting, d: Durable, h: History, t: string, plan: Plan)
    requires CanActivate(s, d, h, t, plan)
    ensures ActivePart(s, d.(active := Some(ReceiptOf(s, t, plan))), h.(last := Some(t)))
  {
    hide Accepted, BackupBudgetOk, ValidOperationRecord;
    var e := d.(active := Some(ReceiptOf(s, t, plan)));
    forall i: nat | i < |plan.operations| ensures OpOkAt(s, e, e.tree, t, plan, i) {
      assert OpOkAt(s, d, d.tree, t, plan, i);
    }
  }

  lemma ActivateStepTerminal(s: Setting, d: Durable, h: History, t: string, plan: Plan)
    requires TerminalPart(s, d, h) && CanActivate(s, d, h, t, plan)
    ensures TerminalPart(s, d.(active := Some(ReceiptOf(s, t, plan))), h.(last := Some(t)))
  {
    hide AllApplied, Accepted, BackupBudgetOk, OpOkAt;
    if d.terminal.Some? {
      TerminalSame(s, d, d.(active := Some(ReceiptOf(s, t, plan))), h, h.(last := Some(t)), d.terminal.value);
    }
  }

  lemma LaunchStep(s: Setting, d: Durable, h: History, t: string)
    requires Inv(s, d, h) && t in h.intents && t !in h.launches
    ensures Inv(s, d, h.(launches := h.launches + multiset{t}))
  {
    hide GoodSetting, JournalOk, ActivePart, TerminalPart, RestartsOk, LastSettled;
    var g := h.(launches := h.launches + multiset{t});
    LaunchKeepsParts(s, d, h, g);
    LaunchKeepsRestarts(d, h, g, t);
  }

  lemma LaunchKeepsParts(s: Setting, d: Durable, h: History, g: History)
    requires ActivePart(s, d, h) && TerminalPart(s, d, h) && LastSettled(d, h) && g == h.(launches := g.launches)
    ensures ActivePart(s, d, g) && TerminalPart(s, d, g) && LastSettled(d, g)
  {
    hide AllApplied, Accepted, BackupBudgetOk, Settled;
    ActiveSame(s, d, d, h, g);
    if d.terminal.Some? { TerminalSame(s, d, d, h, g, d.terminal.value); }
  }

  lemma LaunchKeepsRestarts(d: Durable, h: History, g: History, t: string)
    requires RestartsOk(d, h) && t in h.intents && t !in h.launches
    requires g == h.(launches := h.launches + multiset{t})
    ensures RestartsOk(d, g)
  {
    hide AllInstalled;
    assert forall u :: u != t ==> g.launches[u] == h.launches[u];
  }
}
