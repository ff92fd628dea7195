/**
  Apply plans (include/libAutoUpdater/ApplyPlan.h) and what the parser and the
  executor accept (src/ApplyPlan.cpp, src/util/PathUtil.cpp,
  updater/ApplyExecutor.cpp validateApplyPlanResources).
*/
module Plans {
  import opened Wrappers
  import opened Strings
  import opened Topology
  import opened Decimal
  import Versions

  const PERMISSION_MASK: nat := 0x1ff

  type uint64 = n: nat | n < UINT64_LIMIT witness 0

  datatype Limits = Limits(maxArtifactBytes: uint64, maxTotalArtifactBytes: uint64, maxContainerEntries: nat)

  // ---------- digests ----------

  predicate IsLowerHexChar(c: char) { '0' <= c <= '9' || 'a' <= c <= 'f' }

  predicate IsLowerHexSha256(s: string) {
    |s| == 64 && forall i :: 0 <= i < |s| ==> IsLowerHexChar(s[i])
  }

  // ---------- plans ----------

  datatype OperationType = Replace | Remove
  datatype Intent = Install | Rollback
  datatype Reference = Reference(transactionId: string, planDigest: string)
  datatype Precondition = Precondition(exists_: bool, size: nat, sha256: string, permissions: Option<nat>)

  datatype Operation = Operation(
    kind: OperationType, source: string, target: string, sha256: string, size: nat,
    permissions: Option<nat>, precondition: Option<Precondition>)

  datatype Plan = Plan(
    schemaVersion: nat, intent: Intent, rollbackOf: Option<Reference>,
    appId: string, fromVersion: string, toVersion: string, releaseId: string, manifestSha256: string,
    installDir: string, stagingDir: string, backupDir: string,
    restartCommand: seq<string>, operations: seq<Operation>)

  // ---------- managed paths ----------

  function UpperChar(c: char): char { if 'a' <= c <= 'z' then c - 'a' + 'A' else c }

  function Upper(s: string): string { seq(|s|, i requires 0 <= i < |s| => UpperChar(s[i])) }

  predicate IsWindowsDeviceName(segment: string) {
    var base := Upper(segment[..Find(segment, '.')]);
    || base in {"CON", "PRN", "AUX", "NUL", "CLOCK$"}
    || (|base| == 4 && '1' <= base[3] <= '9' && base[..3] in {"COM", "LPT"})
  }

  predicate IsUnsafeSegment(segment: string) {
    || segment in {"", ".", ".."}
    || segment[|segment| - 1] in {'.', ' '}
    || ':' in segment
    || IsWindowsDeviceName(segment)
    || exists i :: 0 <= i < |segment| && (segment[i] < ' ' || segment[i] == '\U{7f}')
  }

  predicate HasDrivePrefix(path: string) {
    |path| >= 2 && ('A' <= path[0] <= 'Z' || 'a' <= path[0] <= 'z') && path[1] == ':'
  }

  predicate ValidManagedPath(path: string) {
    && path != ""
    && path[0] != '/' && path[0] != '\\' && !HasDrivePrefix(path)
    && '\\' !in path
    && forall segment :: segment in Split(path, '/') ==> !IsUnsafeSegment(segment)
  }

  predicate ValidManagedTargetPath(path: string) {
    && ValidManagedPath(path)
    && var first := path[..Find(path, '/')];
       !SameFolded(first, ".autoupdater") && '~' !in first
  }

  // ---------- acceptance ----------

  predicate ValidPrecondition(p: Precondition, limits: Limits) {
    if p.exists_ then
      && IsLowerHexSha256(p.sha256) && p.size <= limits.maxArtifactBytes
      && (p.permissions.Some? ==> p.permissions.value <= PERMISSION_MASK)
    else p.size == 0 && p.sha256 == "" && p.permissions.None?
  }

  predicate ValidOperation(o: Operation, schemaVersion: nat, limits: Limits) {
    && ValidManagedTargetPath(o.target)
    && o.size <= limits.maxArtifactBytes
    && (schemaVersion == 1 ==> o.permissions.None? && o.precondition.None?)
    && (o.permissions.Some? ==> o.kind == Replace && o.permissions.value <= PERMISSION_MASK)
    && (o.precondition.Some? ==> ValidPrecondition(o.precondition.value, limits))
    && (if o.kind == Replace then ValidManagedPath(o.source) && IsLowerHexSha256(o.sha256)
        else o.source == "" && o.sha256 == "" && o.size == 0)
  }

  function Targets(ops: seq<Operation>): (ts: seq<string>)
    ensures |ts| == |ops| && forall i :: 0 <= i < |ops| ==> ts[i] == ops[i].target
  { seq(|ops|, i requires 0 <= i < |ops| => ops[i].target) }

  /** The bytes of every replacement, as the running totals of parser and executor add them. */
  function ReplaceBytes(ops: seq<Operation>): nat {
    if |ops| == 0 then 0
    else ReplaceBytes(ops[..|ops| - 1]) + (if ops[|ops| - 1].kind == Replace then ops[|ops| - 1].size else 0)
  }

  /** Two replacements of one source carry the same evidence, and no source is an ancestor of another. */
  ghost predicate SourcesAgree(ops: seq<Operation>) {
    forall i, j :: 0 <= i < |ops| && 0 <= j < |ops| && ops[i].kind == Replace && ops[j].kind == Replace ==>
      && (LookupKey(ops[i].source) == LookupKey(ops[j].source) ==>
            ops[i].sha256 == ops[j].sha256 && ops[i].size == ops[j].size)
      && !Below(LookupKey(ops[i].source), LookupKey(ops[j].source))
  }

  predicate NulFreeCommand(command: seq<string>) {
    && (forall i :: 0 <= i < |command| ==> NulFree(command[i]))
    && (|command| > 0 ==> command[0] != "")
  }

  predicate ValidVersionText(text: string) { text == "" || Versions.Parse(text).Some? }

  predicate ValidDirectory(path: string) { path != "" && NulFree(path) }

  predicate ValidIntent(p: Plan) {
    && (p.schemaVersion == 1 || p.schemaVersion == 2)
    && (p.schemaVersion == 1 ==> p.intent == Install)
    && (p.intent == Rollback <==> p.rollbackOf.Some?)
    && (p.rollbackOf.Some? ==>
          IsLowerHexSha256(p.rollbackOf.value.transactionId) && IsLowerHexSha256(p.rollbackOf.value.planDigest))
  }

  predicate ValidHeader(p: Plan) {
    && ValidIntent(p)
    && ValidVersionText(p.fromVersion) && ValidVersionText(p.toVersion)
    && (p.manifestSha256 == "" || IsLowerHexSha256(p.manifestSha256))
    && ValidDirectory(p.installDir) && ValidDirectory(p.stagingDir) && ValidDirectory(p.backupDir)
    && NulFreeCommand(p.restartCommand)
  }

  /** A plan both ApplyPlan::parse and validateApplyPlanResources accept (text byte budgets aside). */
  ghost predicate Accepted(p: Plan, limits: Limits) {
    && ValidHeader(p)
    && |p.operations| <= limits.maxContainerEntries && |p.restartCommand| <= limits.maxContainerEntries
    && (forall i :: 0 <= i < |p.operations| ==> ValidOperation(p.operations[i], p.schemaVersion, limits))
    && Disjoint(Keys(Targets(p.operations)))
    && SourcesAgree(p.operations)
    && ReplaceBytes(p.operations) <= limits.maxTotalArtifactBytes
  }

  lemma TargetsDiffer(p: Plan, limits: Limits, i: int, j: int)
    requires Accepted(p, limits)
    requires 0 <= i < |p.operations| && 0 <= j < |p.operations| && i != j
    ensures p.operations[i].target != p.operations[j].target
  {
    var keys := Keys(Targets(p.operations));
    assert keys[i] == LookupKey(p.operations[i].target);
    assert keys[j] == LookupKey(p.operations[j].target);
  }
}
