/**
  Undoing a completed transaction: the derived rollback plan
  (updater/ApplyExecutor.cpp, deriveRollbackPlan) and why running it restores
  what the transaction replaced.
*/
module Rollbacks {
  import opened Wrappers
  import opened Topology
  import opened Plans
  import opened PlanJson
  import opened Journal
  import opened InstallState
  import opened ApplyTransactions

  // ---------- the derived plan ----------

  /** The operation that undoes `o`, guarded by what `o` installed. */
  function Inverse(o: Operation, r: OperationRecord): Operation {
    var precondition := if o.kind == Replace then Precondition(true, o.size, o.sha256, o.permissions)
                        else Precondition(false, 0, "", None);
    if r.originalExists then
      Operation(Replace, o.target, o.target, r.originalSha256, r.originalSize,
                if r.originalPermissionsKnown then Some(r.originalPermissions) else None, Some(precondition))
    else Operation(Remove, "", o.target, "", 0, None, Some(precondition))
  }

  /** The operations to undo, last first. */
  function Kept(records: seq<OperationRecord>): (ks: seq<nat>)
    ensures forall j :: 0 <= j < |ks| ==> ks[j] < |records| && records[ks[j]].rollbackState != RollbackNotRequired
  {
    if |records| == 0 then []
    else
      var n := |records| - 1;
      if records[n].rollbackState == RollbackNotRequired then Kept(records[..n]) else [n] + Kept(records[..n])
  }

  lemma {:induction false} KeptDescends(records: seq<OperationRecord>)
    ensures forall a, b :: 0 <= a < b < |Kept(records)| ==> Kept(records)[a] > Kept(records)[b]
  {
    if |records| > 0 { KeptDescends(records[..|records| - 1]); }
  }

  lemma {:induction false} KeptIsComplete(records: seq<OperationRecord>, i: nat) returns (j: nat)
    requires i < |records| && records[i].rollbackState != RollbackNotRequired
    ensures j < |Kept(records)| && Kept(records)[j] == i
  {
    var n := |records| - 1;
    if i == n {
      j := 0;
    } else {
      j := KeptIsComplete(records[..n], i);
      if records[n].rollbackState != RollbackNotRequired { j := j + 1; }
    }
  }

  predicate Indexed(ops: seq<Operation>, records: seq<OperationRecord>) {
    forall i :: 0 <= i < |records| ==> records[i].index < |ops|
  }

  function Inverses(ops: seq<Operation>, records: seq<OperationRecord>): (inverses: seq<Operation>)
    requires Indexed(ops, records)
    ensures |inverses| == |Kept(records)|
    ensures forall j :: 0 <= j < |inverses| ==>
              inverses[j] == Inverse(ops[records[Kept(records)[j]].index], records[Kept(records)[j]])
  {
    var ks := Kept(records);
    seq(|ks|, j requires 0 <= j < |ks| => Inverse(ops[records[ks[j]].index], records[ks[j]]))
  }

  function RollbackPlan(request: Plan, source: Plan, operations: seq<Operation>): Plan {
    Plan(2, Rollback, request.rollbackOf, source.appId, source.toVersion, source.fromVersion, source.releaseId,
         source.manifestSha256, source.installDir, source.backupDir, request.backupDir, source.restartCommand,
         operations)
  }

  /** Whether every operation to undo kept what it needs. */
  predicate Derivable(source: Plan, records: seq<OperationRecord>) {
    && |records| == |source.operations| && Indexed(source.operations, records)
    && forall i :: 0 <= i < |records| && records[i].rollbackState != RollbackNotRequired ==>
         records[i].originalExists ==> records[i].backupState == BackupDurable
  }

  lemma IndexedPrefix(ops: seq<Operation>, records: seq<OperationRecord>, i: nat)
    requires Indexed(ops, records) && i <= |records|
    ensures Indexed(ops, records[..i])
  {
  }

  lemma KeptSplit(records: seq<OperationRecord>, i: nat)
    requires i < |records|
    ensures Kept(records[..i + 1])
            == (if records[i].rollbackState == RollbackNotRequired then [] else [i]) + Kept(records[..i])
  {
    assert records[..i + 1][..i] == records[..i];
  }

  /** What one record adds to the derived plan. */
  function Contribution(ops: seq<Operation>, r: OperationRecord): seq<Operation>
    requires r.index < |ops|
  {
    if r.rollbackState == RollbackNotRequired then [] else [Inverse(ops[r.index], r)]
  }

  predicate Contributes(ops: seq<Operation>, r: OperationRecord) {
    && r.index < |ops|
    && (r.rollbackState != RollbackNotRequired && r.originalExists ==> r.backupState == BackupDurable)
  }

  lemma InversesSplit(ops: seq<Operation>, records: seq<OperationRecord>, i: nat)
    requires i < |records| && Indexed(ops, records)
    ensures Inverses(ops, records[..i + 1]) == Contribution(ops, records[i]) + Inverses(ops, records[..i])
  {
    KeptSplit(records, i);
  }

  lemma NextInverses(ops: seq<Operation>, records: seq<OperationRecord>, i: nat, sofar: seq<Operation>)
    requires i < |records| && Indexed(ops, records)
    requires sofar + Inverses(ops, records[..i + 1]) == Inverses(ops, records)
    ensures (sofar + Contribution(ops, records[i])) + Inverses(ops, records[..i]) == Inverses(ops, records)
  {
    hide Inverses, Contribution;
    InversesSplit(ops, records, i);
    var x, y := Contribution(ops, records[i]), Inverses(ops, records[..i]);
    assert (sofar + x) + y == sofar + (x + y);
  }

  lemma DerivableMeans(source: Plan, records: seq<OperationRecord>)
    ensures Derivable(source, records) <==>
              |records| == |source.operations| && forall i :: 0 <= i < |records| ==>
                Contributes(source.operations, records[i])
  {
  }

  method DeriveRollbackPlan(request: Plan, source: Plan, records: seq<OperationRecord>) returns (plan: Option<Plan>)
    ensures plan.Some? <==> Derivable(source, records) && Disjoint(Keys(Targets(source.operations)))
    ensures plan.Some? ==> plan == Some(RollbackPlan(request, source, Inverses(source.operations, records)))
  {
    DerivableMeans(source, records);
    hide Disjoint, Keys, Targets, Inverses, Contribution, Kept, Indexed, Derivable;
    if |records| != |source.operations| { return None; }
    var validTargets := ValidateDisjointTargets(Targets(source.operations));
    if !validTargets { return None; }
    var operations := InvertRecords(source.operations, records);
    plan := if operations.None? then None else Some(RollbackPlan(request, source, operations.value));
  }

  /** The loop over the records, last first. */
  method InvertRecords(ops: seq<Operation>, records: seq<OperationRecord>) returns (r: Option<seq<Operation>>)
    ensures r.Some? <==> forall i :: 0 <= i < |records| ==> Contributes(ops, records[i])
    ensures r.Some? ==> Indexed(ops, records) && r.value == Inverses(ops, records)
  {
    hide Inverses, Contribution;
    var operations: seq<Operation> := [];
    var i := |records|;
    assert records[..i] == records;
    ghost var indexed := Indexed(ops, records);
    while i > 0
      invariant 0 <= i <= |records|
      invariant forall j :: i <= j < |records| ==> Contributes(ops, records[j])
      invariant indexed ==> operations + Inverses(ops, records[..i]) == Inverses(ops, records)
    {
      i := i - 1;
      if !Contributes(ops, records[i]) { return None; }
      if indexed { NextInverses(ops, records, i, operations); }
      operations := operations + Contribution(ops, records[i]);
    }
    assert indexed ==> operations + [] == operations;
    if indexed { NoInverses(map[], ops, records); }
    r := Some(operations);
  }

  // ---------- what the derived plan is good for ----------

  /** A completed transaction as it stands: all applied, its records in order, its own evidence within the limits. */
  ghost predicate Undoable(s: Setting, d: Durable, base: Tree, t: string, plan: Plan, records: seq<OperationRecord>) {
    && AllApplied(s, d, d.tree, base, t, plan) && Accepted(plan, s.limits) && BackupBudgetOk(base, plan, s.limits)
    && |records| == |plan.operations|
    && forall i: nat :: i < |records| ==>
      (t, i) in d.records && records[i] == d.records[(t, i)] && records[i].index == i
  }

  /** What one operation left behind, seen from its record. */
  lemma AppliedFacts(f: Option<File>, b: Option<File>, o: Operation, r: OperationRecord, k: Option<File>)
    requires AppliedOp(f, b, o, r, k)
    ensures Idempotent(b, o) <==> r.rollbackState == RollbackNotRequired
    ensures Idempotent(b, o) ==> Restores(f, b)
    ensures !Idempotent(b, o) ==> r.originalExists == b.Some? && InstalledImage(f, o)
    ensures !Idempotent(b, o) && b.Some? ==>
              && r.backupState == BackupDurable && k.Some? && VerifiesOriginal(k.value, r)
              && r.originalSize == b.value.size && r.originalSha256 == b.value.sha256
              && r.originalPermissionsKnown == b.value.permissions.Some?
              && (b.value.permissions.Some? ==> r.originalPermissions == b.value.permissions.value)
  {
  }

  lemma AppliedFactsAt(s: Setting, d: Durable, base: Tree, t: string, plan: Plan, records: seq<OperationRecord>, i: nat)
    requires Undoable(s, d, base, t, plan, records) && i < |plan.operations|
    ensures var o, r := plan.operations[i], records[i];
            var f, b := Lookup(d.tree, o.target), Lookup(base, o.target);
            var k := Lookup(d.store, (plan.backupDir, o.target));
            && ValidOperationRecord(r) && ValidOperation(o, plan.schemaVersion, s.limits)
            && AppliedOp(f, b, o, r, k)
            && (Idempotent(b, o) <==> r.rollbackState == RollbackNotRequired)
            && BackupSize(base, o)
               == (if r.rollbackState != RollbackNotRequired && r.originalExists then r.originalSize else 0)
            && BackupSize(base, o) <= s.limits.maxArtifactBytes
  {
    hide AppliedOp, ValidOperationRecord, Disjoint, SourcesAgree, ValidHeader, ValidOperation;
    assert AppliedAt(s, d, d.tree, base, t, plan, i);
    var o := plan.operations[i];
    AppliedFacts(
      Lookup(d.tree, o.target), Lookup(base, o.target), o, records[i],
      Lookup(d.store, (plan.backupDir, o.target)));
  }

  /** Deriving never fails after a completed transaction. */
  lemma UndoableIsDerivable(s: Setting, d: Durable, base: Tree, t: string, plan: Plan, records: seq<OperationRecord>)
    requires Undoable(s, d, base, t, plan, records)
    ensures Derivable(plan, records) && Disjoint(Keys(Targets(plan.operations)))
  {
    forall i: nat | i < |records| && records[i].rollbackState != RollbackNotRequired && records[i].originalExists
      ensures records[i].backupState == BackupDurable
    {
      AppliedFactsAt(s, d, base, t, plan, records, i);
      hide AllApplied, Accepted, BackupBudgetOk, ValidOperationRecord, ValidOperation;
      var o := plan.operations[i];
      AppliedFacts(
        Lookup(d.tree, o.target), Lookup(base, o.target), o, records[i],
        Lookup(d.store, (plan.backupDir, o.target)));
    }
  }

  /** The inverse of an applied operation: valid, its precondition true now, its source in the forward backup. */
  lemma InverseIsSound(
    s: Setting, f: Option<File>, b: Option<File>, o: Operation, schemaVersion: nat, r: OperationRecord, k: Option<File>)
    requires AppliedOp(f, b, o, r, k) && !Idempotent(b, o)
    requires ValidOperationRecord(r) && ValidOperation(o, schemaVersion, s.limits)
    requires r.originalExists ==> r.originalSize <= s.limits.maxArtifactBytes
    ensures ValidOperation(Inverse(o, r), 2, s.limits)
    ensures MatchesPrecondition(f, Inverse(o, r).precondition.value)
    ensures Inverse(o, r).kind == Replace ==> MatchesEvidence(k, Inverse(o, r).size, Inverse(o, r).sha256)
    ensures f.Some? ==> o.kind == Replace && f.value.size == o.size
  {
    hide ValidManagedTargetPath, IsLowerHexSha256;
    assert ValidManagedTargetPath(o.target) ==> ValidManagedPath(o.target) by { TargetIsManaged(o.target); }
    hide ValidManagedPath;
  }

  lemma TargetIsManaged(path: string)
    requires ValidManagedTargetPath(path)
    ensures ValidManagedPath(path)
  {
  }

  /** Installing the inverse gives back the original. */
  lemma InverseRestores(
    f: Option<File>, b: Option<File>, o: Operation, r: OperationRecord, k: Option<File>, g: Option<File>)
    requires AppliedOp(f, b, o, r, k) && !Idempotent(b, o) && MatchesInstalled(g, Inverse(o, r))
    ensures Restores(g, b)
  {
  }

  function ReplaceCost(o: Operation): nat { if o.kind == Replace then o.size else 0 }

  lemma {:induction false} ReplaceBytesCons(o: Operation, rest: seq<Operation>)
    ensures ReplaceBytes([o] + rest) == ReplaceCost(o) + ReplaceBytes(rest)
  {
    var all := [o] + rest;
    if |rest| == 0 {
      assert all[..0] == [];
    } else {
      assert all[..|all| - 1] == [o] + rest[..|rest| - 1];
      ReplaceBytesCons(o, rest[..|rest| - 1]);
    }
  }

  lemma {:induction false} BackupBytesCons(base: Tree, o: Operation, rest: seq<Operation>)
    ensures BackupBytes(base, [o] + rest) == BackupSize(base, o) + BackupBytes(base, rest)
  {
    hide BackupSize;
    var all := [o] + rest;
    if |rest| == 0 {
      assert all[..0] == [];
    } else {
      assert all[..|all| - 1] == [o] + rest[..|rest| - 1];
      BackupBytesCons(base, o, rest[..|rest| - 1]);
    }
  }

  /** The inverse of operation `i`, with everything the derived plan needs of it. */
  lemma InverseFacts(s: Setting, d: Durable, base: Tree, t: string, plan: Plan, records: seq<OperationRecord>, i: nat)
    requires Undoable(s, d, base, t, plan, records) && i < |plan.operations|
    ensures var o, r := plan.operations[i], records[i];
            && BackupSize(base, o) == (if r.rollbackState == RollbackNotRequired then 0 else ReplaceCost(Inverse(o, r)))
            && (r.rollbackState == RollbackNotRequired ==> Restores(Lookup(d.tree, o.target), Lookup(base, o.target)))
            && (r.rollbackState != RollbackNotRequired ==>
                  && ValidOperation(Inverse(o, r), 2, s.limits)
                  && MatchesPrecondition(Lookup(d.tree, o.target), Inverse(o, r).precondition.value)
                  && (Inverse(o, r).kind == Replace ==>
                        MatchesEvidence(Lookup(d.store, (plan.backupDir, o.target)),
                                        Inverse(o, r).size, Inverse(o, r).sha256))
                  && (o.target in d.tree ==> o.kind == Replace && d.tree[o.target].size == o.size)
                  && (forall g :: MatchesInstalled(g, Inverse(o, r)) ==> Restores(g, Lookup(base, o.target))))
  {
    AppliedFactsAt(s, d, base, t, plan, records, i);
    var o, r := plan.operations[i], records[i];
    var f, b := Lookup(d.tree, o.target), Lookup(base, o.target);
    var k := Lookup(d.store, (plan.backupDir, o.target));
    hide Undoable, AppliedOp, ValidOperationRecord, ValidOperation, MatchesInstalled, Restores, BackupSize;
    if r.rollbackState == RollbackNotRequired {
      AppliedFacts(f, b, o, r, k);
    } else {
      InverseIsSound(s, f, b, o, plan.schemaVersion, r, k);
      forall g | MatchesInstalled(g, Inverse(o, r)) ensures Restores(g, b) { InverseRestores(f, b, o, r, k, g); }
    }
  }

  /** The budgets of the transaction carry over to its undoing, in both directions. */
  lemma {:induction false} InverseBytes(
    s: Setting, d: Durable, base: Tree, t: string, plan: Plan, records: seq<OperationRecord>, n: nat)
    requires Undoable(s, d, base, t, plan, records) && n <= |plan.operations| && n <= |records|
    requires Indexed(plan.operations, records)
    ensures ReplaceBytes(Inverses(plan.operations, records[..n])) == BackupBytes(base, plan.operations[..n])
    ensures BackupBytes(d.tree, Inverses(plan.operations, records[..n])) <= ReplaceBytes(plan.operations[..n])
  {
    hide Undoable, Inverses, BackupSize, ReplaceCost, Inverse, BackupBytes, ReplaceBytes;
    hide ValidOperation, MatchesPrecondition, MatchesEvidence, MatchesInstalled, Restores;
    var ops := plan.operations;
    IndexedPrefix(ops, records, n);
    if n == 0 {
      NoInverses(d.tree, ops, records);
      NoInverses(base, ops, records);
    } else {
      var i := n - 1;
      IndexedPrefix(ops, records, i);
      InverseBytes(s, d, base, t, plan, records, i);
      RecordIndex(s, d, base, t, plan, records, i);
      InversesSplit(ops, records, i);
      InverseFacts(s, d, base, t, plan, records, i);
      LastCost(ops, i);
      NextBackupBytes(base, ops, i);
      if records[i].rollbackState == RollbackNotRequired {
        assert [] + Inverses(ops, records[..i]) == Inverses(ops, records[..i]);
      } else {
        var inverse, rest := Inverse(ops[i], records[i]), Inverses(ops, records[..i]);
        ReplaceBytesCons(inverse, rest);
        BackupBytesCons(d.tree, inverse, rest);
        InverseBackup(s, d, base, t, plan, records, i);
      }
    }
  }

  lemma NoInverses(tree: Tree, ops: seq<Operation>, records: seq<OperationRecord>)
    requires Indexed(ops, records)
    ensures Inverses(ops, records[..0]) == []
    ensures BackupBytes(tree, []) == 0 && ReplaceBytes([]) == 0
  {
  }

  lemma RecordIndex(s: Setting, d: Durable, base: Tree, t: string, plan: Plan, records: seq<OperationRecord>, i: nat)
    requires Undoable(s, d, base, t, plan, records) && i < |plan.operations|
    ensures |records| == |plan.operations| && records[i].index == i
  {
  }

  lemma LastCost(ops: seq<Operation>, i: nat)
    requires i < |ops|
    ensures ReplaceBytes(ops[..i + 1]) == ReplaceBytes(ops[..i]) + ReplaceCost(ops[i])
  {
    assert ops[..i + 1][..i] == ops[..i];
  }

  lemma InverseBackup(s: Setting, d: Durable, base: Tree, t: string, plan: Plan, records: seq<OperationRecord>, i: nat)
    requires Undoable(s, d, base, t, plan, records) && i < |plan.operations|
    requires records[i].rollbackState != RollbackNotRequired
    ensures BackupSize(d.tree, Inverse(plan.operations[i], records[i])) <= ReplaceCost(plan.operations[i])
    ensures BackupSize(d.tree, Inverse(plan.operations[i], records[i])) <= s.limits.maxArtifactBytes
  {
    InverseFacts(s, d, base, t, plan, records, i);
    assert ValidOperation(plan.operations[i], plan.schemaVersion, s.limits);
    hide Undoable, MatchesInstalled, Restores, MatchesPrecondition;
  }

  lemma DisjointPart(part: seq<string>, keys: seq<string>, ks: seq<nat>)
    requires |part| == |ks| && (forall j :: 0 <= j < |ks| ==> ks[j] < |keys| && part[j] == keys[ks[j]])
    requires forall a, b :: 0 <= a < b < |ks| ==> ks[a] > ks[b]
    requires Disjoint(keys)
    ensures Disjoint(part)
  {
    forall p, c | p in part && c in part ensures !Below(p, c) {
      assert p in keys && c in keys;
    }
  }

  /** A request to undo: a valid reference, and a directory for what undoing replaces. */
  predicate UndoRequest(request: Plan) {
    && request.rollbackOf.Some? && ValidDirectory(request.backupDir)
    && IsLowerHexSha256(request.rollbackOf.value.transactionId) && IsLowerHexSha256(request.rollbackOf.value.planDigest)
  }

  ghost function Undo(request: Plan, plan: Plan, records: seq<OperationRecord>): Plan
    requires Indexed(plan.operations, records)
  {
    RollbackPlan(request, plan, Inverses(plan.operations, records))
  }

  /** Operation `j` of the derived plan undoes operation `i` of the source. */
  lemma UndoneOperation(
    s: Setting, d: Durable, base: Tree, t: string, plan: Plan, records: seq<OperationRecord>, j: nat)
    returns (i: nat)
    requires Undoable(s, d, base, t, plan, records) && Indexed(plan.operations, records)
    requires j < |Inverses(plan.operations, records)|
    ensures i == Kept(records)[j] && i < |plan.operations| && i < |records|
    ensures records[i].rollbackState != RollbackNotRequired
    ensures Inverses(plan.operations, records)[j] == Inverse(plan.operations[i], records[i])
  {
    i := Kept(records)[j];
    RecordIndex(s, d, base, t, plan, records, i);
  }

  lemma UndoTargets(s: Setting, d: Durable, base: Tree, t: string, plan: Plan, records: seq<OperationRecord>)
    requires Undoable(s, d, base, t, plan, records) && Indexed(plan.operations, records)
    ensures Disjoint(Keys(Targets(Inverses(plan.operations, records))))
    ensures SourcesAgree(Inverses(plan.operations, records))
  {
    hide AllApplied, BackupBudgetOk, LookupKey, ValidHeader, ValidOperation;
    var ops, inverses, ks := plan.operations, Inverses(plan.operations, records), Kept(records);
    var keys, part := Keys(Targets(ops)), Keys(Targets(inverses));
    forall j: nat | j < |inverses|
      ensures part[j] == keys[ks[j]] && part[j] in keys
      ensures inverses[j].kind == Replace ==> LookupKey(inverses[j].source) == part[j]
    {
      var i := UndoneOperation(s, d, base, t, plan, records, j);
    }
    KeptDescends(records);
    hide Inverses, Inverse, Undoable, Kept;
    DisjointPart(part, keys, ks);
    assert Disjoint(part);
    forall a, b | && 0 <= a < |inverses| && 0 <= b < |inverses|
                  && inverses[a].kind == Replace && inverses[b].kind == Replace
      ensures LookupKey(inverses[a].source) == LookupKey(inverses[b].source) ==> a == b
      ensures !Below(LookupKey(inverses[a].source), LookupKey(inverses[b].source))
    {
      assert part[a] in part && part[b] in part;
    }
  }

  /** The derived plan is one the executor accepts: its own checks never stand in the way of undoing. */
  lemma UndoIsAccepted(
    s: Setting, d: Durable, base: Tree, t: string, plan: Plan, records: seq<OperationRecord>, request: Plan)
    requires Undoable(s, d, base, t, plan, records) && Indexed(plan.operations, records) && UndoRequest(request)
    ensures Accepted(Undo(request, plan, records), s.limits)
  {
    hide AllApplied, BackupBudgetOk, ValidOperation, ValidHeader, SourcesAgree, Disjoint, Inverses, UndoRequest;
    var inverses := Inverses(plan.operations, records);
    forall j: nat | j < |inverses| ensures ValidOperation(inverses[j], 2, s.limits) {
      var i := UndoneOperation(s, d, base, t, plan, records, j);
      InverseFacts(s, d, base, t, plan, records, i);
      hide Undoable;
    }
    UndoHeader(plan, request, inverses);
    UndoTargets(s, d, base, t, plan, records);
    UndoBytes(s, d, base, t, plan, records);
    KeptIsShort(records);
  }

  lemma UndoHeader(plan: Plan, request: Plan, inverses: seq<Operation>)
    requires ValidHeader(plan) && UndoRequest(request)
    ensures ValidHeader(RollbackPlan(request, plan, inverses))
  {
    hide IsLowerHexSha256, ValidVersionText, ValidDirectory, NulFreeCommand;
  }

  lemma UndoBytes(s: Setting, d: Durable, base: Tree, t: string, plan: Plan, records: seq<OperationRecord>)
    requires Undoable(s, d, base, t, plan, records) && Indexed(plan.operations, records)
    ensures ReplaceBytes(Inverses(plan.operations, records)) <= s.limits.maxTotalArtifactBytes
    ensures BackupBytes(d.tree, Inverses(plan.operations, records)) <= s.limits.maxTotalArtifactBytes
  {
    hide AllApplied, ValidOperation, ValidHeader, SourcesAgree, Disjoint;
    hide Inverses, BackupSize, BackupBytes, ReplaceBytes;
    InverseBytes(s, d, base, t, plan, records, |records|);
    assert records[..|records|] == records && plan.operations[..|records|] == plan.operations;
  }

  lemma {:induction false} KeptIsShort(records: seq<OperationRecord>)
    ensures |Kept(records)| <= |records|
  {
    if |records| > 0 { KeptIsShort(records[..|records| - 1]); }
  }

  /** The undo directory holds nothing yet for these targets, or already what undoing would put there. */
  predicate UndoSlotsUsable(d: Durable, plan: Plan, directory: string) {
    forall i :: 0 <= i < |plan.operations| ==>
      var target := plan.operations[i].target;
      target in d.tree && (directory, target) in d.store ==>
        Restores(Some(d.store[(directory, target)]), Some(d.tree[target]))
  }

  /**
    Every precondition of the derived plan holds, every source it names is in
    the forward backup with the recorded evidence, and its backups fit the budgets.
  */
  lemma UndoIsReady(
    s: Setting, d: Durable, base: Tree, t: string, plan: Plan, records: seq<OperationRecord>, request: Plan)
    requires Undoable(s, d, base, t, plan, records) && Indexed(plan.operations, records)
    requires UndoSlotsUsable(d, plan, request.backupDir)
    ensures AllReady(s, d, Undo(request, plan, records))
  {
    hide AllApplied, ValidOperation, ValidHeader, SourcesAgree, Disjoint;
    hide Inverses, Ready, BackupSize, BackupBytes, ReplaceBytes;
    var undo := Undo(request, plan, records);
    forall j: nat | j < |undo.operations|
      ensures Ready(d, undo, j) && BackupSize(d.tree, undo.operations[j]) <= s.limits.maxArtifactBytes
    {
      UndoOperationReady(s, d, base, t, plan, records, request, j);
    }
    UndoBytes(s, d, base, t, plan, records);
  }

  lemma UndoOperationReady(
    s: Setting, d: Durable, base: Tree, t: string, plan: Plan, records: seq<OperationRecord>, request: Plan, j: nat)
    requires Undoable(s, d, base, t, plan, records) && Indexed(plan.operations, records)
    requires UndoSlotsUsable(d, plan, request.backupDir) && j < |Inverses(plan.operations, records)|
    ensures var undo := Undo(request, plan, records);
            Ready(d, undo, j) && BackupSize(d.tree, undo.operations[j]) <= s.limits.maxArtifactBytes
  {
    hide Undoable, ValidOperation, BackupSize, MatchesPrecondition, MatchesEvidence, Restores, MatchesInstalled;
    var i := UndoneOperation(s, d, base, t, plan, records, j);
    InverseFacts(s, d, base, t, plan, records, i);
    InverseBackup(s, d, base, t, plan, records, i);
  }

  /** Running the derived plan restores the existence, contents and known permissions of every target. */
  lemma UndoRestores(
    s: Setting, d: Durable, base: Tree, t: string, plan: Plan, records: seq<OperationRecord>, request: Plan,
    after: Tree)
    requires Undoable(s, d, base, t, plan, records) && Indexed(plan.operations, records)
    requires InstalledOver(after, d.tree, Undo(request, plan, records))
    ensures forall i: nat :: i < |plan.operations| ==> RestoredAt(after, base, plan, i)
    ensures OthersUntouched(d.tree, base, plan) ==> Restored(after, base)
  {
    var undo := Undo(request, plan, records);
    forall i: nat | i < |plan.operations| ensures RestoredAt(after, base, plan, i) {
      UndoRestoresOne(s, d, base, t, plan, records, request, after, i);
    }
    if OthersUntouched(d.tree, base, plan) {
      forall q ensures Restores(Lookup(after, q), Lookup(base, q)) {
        if Managed(plan, q) {
          var i: nat :| i < |plan.operations| && plan.operations[i].target == q;
          assert RestoredAt(after, base, plan, i);
        } else {
          UnmanagedByUndo(s, d, base, t, plan, records, request, q);
        }
      }
    }
  }

  lemma UnmanagedByUndo(
    s: Setting, d: Durable, base: Tree, t: string, plan: Plan, records: seq<OperationRecord>, request: Plan, q: string)
    requires Undoable(s, d, base, t, plan, records) && Indexed(plan.operations, records)
    requires !Managed(plan, q)
    ensures !Managed(Undo(request, plan, records), q)
  {
    hide Undoable;
    var undo := Undo(request, plan, records);
    forall j: nat | j < |undo.operations| ensures undo.operations[j].target != q {
      var i := UndoneOperation(s, d, base, t, plan, records, j);
      assert plan.operations[i].target == undo.operations[j].target;
    }
  }

  lemma UndoRestoresOne(
    s: Setting, d: Durable, base: Tree, t: string, plan: Plan, records: seq<OperationRecord>, request: Plan,
    after: Tree, i: nat)
    requires Undoable(s, d, base, t, plan, records) && Indexed(plan.operations, records) && i < |plan.operations|
    requires InstalledOver(after, d.tree, Undo(request, plan, records))
    ensures RestoredAt(after, base, plan, i)
  {
    var undo, o := Undo(request, plan, records), plan.operations[i];
    InverseFacts(s, d, base, t, plan, records, i);
    RecordIndex(s, d, base, t, plan, records, i);
    if records[i].rollbackState != RollbackNotRequired {
      var j := KeptIsComplete(records, i);
      assert InstalledAt(after, undo, j);
    } else {
      NotUndone(s, d, base, t, plan, records, request, i);
      assert Lookup(after, o.target) == Lookup(d.tree, o.target);
    }
  }

  /** A target that needed nothing is left alone by the undoing. */
  lemma NotUndone(
    s: Setting, d: Durable, base: Tree, t: string, plan: Plan, records: seq<OperationRecord>, request: Plan,
    i: nat)
    requires Undoable(s, d, base, t, plan, records) && Indexed(plan.operations, records) && i < |plan.operations|
    requires records[i].rollbackState == RollbackNotRequired
    ensures !Managed(Undo(request, plan, records), plan.operations[i].target)
  {
    var undo := Undo(request, plan, records);
    forall j: nat | j < |undo.operations| ensures undo.operations[j].target != plan.operations[i].target {
      var k := UndoneOperation(s, d, base, t, plan, records, j);
      UndoableIsAccepted(s, d, base, t, plan, records);
      TargetsDiffer(plan, s.limits, k, i);
      hide Undoable, Accepted;
    }
    hide Undoable;
  }

  lemma UndoableIsAccepted(s: Setting, d: Durable, base: Tree, t: string, plan: Plan, records: seq<OperationRecord>)
    requires Undoable(s, d, base, t, plan, records)
    ensures Accepted(plan, s.limits)
  {
  }
}
