/**
  From a manifest and the installed files to an operation list
  (src/LocalSnapshotBuilder.cpp, src/UpdatePlanner.cpp), and what carrying that
  list out means for the whole tree.
*/
module Planner {
  import opened Wrappers
  import opened Topology
  import opened Plans
  import opened Journal
  import opened InstallState
  import V = Versions

  datatype ManifestFile = ManifestFile(path: string, localPath: string, sha256: string, size: nat) {
    function Target(): string { if localPath == "" then path else localPath }
  }

  datatype Manifest = Manifest(
    version: V.Version, minVersion: Option<V.Version>, allowDowngrade: bool, files: seq<ManifestFile>,
    remove: seq<string>)

  /** `allowed` is the whitelist; `artifact` resolves and authorizes the URL of a source path. */
  datatype Config = Config(
    currentVersion: V.Version, rejectDowngrade: bool, requireSignature: bool, allowed: string -> bool,
    artifact: string -> Option<string>)

  datatype LocalFileInfo = LocalFileInfo(path: string, exists_: bool, sha256: string, size: nat)

  datatype Decision = Decision(
    updateAvailable: bool, reinstallRequired: bool, operations: seq<Operation>, downloads: seq<ManifestFile>)

  // ---------- the snapshot ----------

  predicate TellsTruth(info: LocalFileInfo, tree: Tree) {
    && info.exists_ == (info.path in tree)
    && (info.exists_ ==> info.sha256 == tree[info.path].sha256 && info.size == tree[info.path].size)
  }

  predicate IsTarget(
    files: seq<ManifestFile>, path: string) { exists j :: 0 <= j < |files| && files[j].Target() == path }

  predicate IsRecorded(
    snapshot: seq<LocalFileInfo>, path: string) { exists i :: 0 <= i < |snapshot| && snapshot[i].path == path }

  /** One truthful record for every target of the manifest, and for nothing else. */
  predicate Faithful(snapshot: seq<LocalFileInfo>, files: seq<ManifestFile>, tree: Tree) {
    && (forall i :: 0 <= i < |snapshot| ==> TellsTruth(snapshot[i], tree) && IsTarget(files, snapshot[i].path))
    && (forall j :: 0 <= j < |files| ==> IsRecorded(snapshot, files[j].Target()))
  }

  /** buildLocalSnapshot: reads each target once; where it is faulty a read may fail. */
  method BuildLocalSnapshot(files: seq<ManifestFile>, tree: Tree, faulty: bool)
    returns (snapshot: Option<seq<LocalFileInfo>>)
    ensures !faulty ==> snapshot.Some?
    ensures snapshot.Some? ==> Faithful(snapshot.value, files, tree)
    ensures snapshot.Some? ==>
              forall i, j :: 0 <= i < j < |snapshot.value| ==> snapshot.value[i].path != snapshot.value[j].path
  {
    var infos: seq<LocalFileInfo> := [];
    var seen: set<string> := {};
    var n := 0;
    while n < |files|
      invariant 0 <= n <= |files|
      invariant forall i :: 0 <= i < |infos| ==>
                  TellsTruth(infos[i], tree) && infos[i].path in seen && IsTarget(files, infos[i].path)
      invariant forall i, j :: 0 <= i < j < |infos| ==> infos[i].path != infos[j].path
      invariant forall p :: p in seen ==> IsRecorded(infos, p)
      invariant forall j :: 0 <= j < n ==> files[j].Target() in seen
    {
      var target := files[n].Target();
      if target !in seen {
        var fails: bool := *;
        if fails && faulty { return None; }
        var info := if target in tree then LocalFileInfo(target, true, tree[target].sha256, tree[target].size)
                    else LocalFileInfo(target, false, "", 0);
        StillRecorded(infos, info);
        assert IsTarget(files, target);
        infos := infos + [info];
        seen := seen + {target};
      }
      n := n + 1;
    }
    snapshot := Some(infos);
  }

  lemma StillRecorded(infos: seq<LocalFileInfo>, info: LocalFileInfo)
    ensures IsRecorded(infos + [info], info.path)
    ensures forall p :: IsRecorded(infos, p) ==> IsRecorded(infos + [info], p)
  {
    var all := infos + [info];
    assert all[|infos|] == info;
    forall p | IsRecorded(infos, p) ensures IsRecorded(all, p) {
      var i :| 0 <= i < |infos| && infos[i].path == p;
      assert all[i] == infos[i];
    }
  }

  // ---------- the operation list ----------

  predicate NeedsDownload(file: ManifestFile, tree: Tree) {
    file.Target() !in tree || tree[file.Target()].sha256 != file.sha256
  }

  function ReplaceOf(file: ManifestFile): Operation {
    Operation(Replace, file.path, file.Target(), file.sha256, file.size, None, None)
  }

  function RemoveOf(path: string): Operation { Operation(Remove, "", path, "", 0, None, None) }

  /** The files whose installed contents differ, in manifest order. */
  function Changed(files: seq<ManifestFile>, tree: Tree): seq<ManifestFile> {
    if |files| == 0 then []
    else
      Changed(files[..|files| - 1], tree)
      + (if NeedsDownload(files[|files| - 1], tree) then [files[|files| - 1]] else [])
  }

  function Replacements(files: seq<ManifestFile>): (ops: seq<Operation>)
    ensures |ops| == |files| && forall i :: 0 <= i < |files| ==> ops[i] == ReplaceOf(files[i])
  { seq(|files|, i requires 0 <= i < |files| => ReplaceOf(files[i])) }

  function Removals(paths: seq<string>): (ops: seq<Operation>)
    ensures |ops| == |paths| && forall i :: 0 <= i < |paths| ==> ops[i] == RemoveOf(paths[i])
  { seq(|paths|, i requires 0 <= i < |paths| => RemoveOf(paths[i])) }

  function ManifestTargets(m: Manifest): (ts: seq<string>)
    ensures |ts| == |m.files| + |m.remove|
    ensures forall i :: 0 <= i < |m.files| ==> ts[i] == m.files[i].Target()
    ensures forall i :: 0 <= i < |m.remove| ==> ts[|m.files| + i] == m.remove[i]
  {
    seq(|m.files|, i requires 0 <= i < |m.files| => m.files[i].Target()) + m.remove
  }

  predicate AcceptablePath(path: string, config: Config) { ValidManagedTargetPath(path) && config.allowed(path) }

  /** Every record can be looked up by its key, and a lookup finds a record with that key. */
  predicate IndexOf(snapshot: seq<LocalFileInfo>, index: map<string, LocalFileInfo>) {
    && (forall k :: k in index ==> index[k] in snapshot && LookupKey(index[k].path) == k)
    && (forall i :: 0 <= i < |snapshot| ==> LookupKey(snapshot[i].path) in index)
  }

  /** The record a lookup finds under a key is the first with that key. */
  method IndexSnapshot(snapshot: seq<LocalFileInfo>) returns (index: Option<map<string, LocalFileInfo>>)
    ensures index.Some? <==> forall i :: 0 <= i < |snapshot| ==> ValidManagedTargetPath(snapshot[i].path)
    ensures index.Some? ==> IndexOf(snapshot, index.value)
  {
    hide ValidManagedTargetPath, LookupKey;
    var found: map<string, LocalFileInfo> := map[];
    var n := 0;
    while n < |snapshot|
      invariant 0 <= n <= |snapshot|
      invariant forall i :: 0 <= i < n ==> ValidManagedTargetPath(snapshot[i].path)
      invariant forall k :: k in found ==> found[k] in snapshot && LookupKey(found[k].path) == k
      invariant forall i :: 0 <= i < n ==> LookupKey(snapshot[i].path) in found
    {
      if !ValidManagedTargetPath(snapshot[n].path) { return None; }
      var key := LookupKey(snapshot[n].path);
      if key !in found { found := found[key := snapshot[n]]; }
      n := n + 1;
    }
    index := Some(found);
  }

  /** With collision-free targets the lookup by key is the lookup by path. */
  lemma KeyFindsPath(m: Manifest, i: nat, j: nat)
    requires Disjoint(Keys(ManifestTargets(m))) && i < |m.files| && j < |m.files|
    requires LookupKey(m.files[i].Target()) == LookupKey(m.files[j].Target())
    ensures i == j
  {
    hide LookupKey, HasConflict;
    var keys := Keys(ManifestTargets(m));
    assert keys[i] == LookupKey(m.files[i].Target()) && keys[j] == LookupKey(m.files[j].Target());
  }

  lemma SnapshotDecides(
    m: Manifest, snapshot: seq<LocalFileInfo>, tree: Tree, index: map<string, LocalFileInfo>, n: nat)
    requires Disjoint(Keys(ManifestTargets(m))) && Faithful(snapshot, m.files, tree) && n < |m.files|
    requires IndexOf(snapshot, index)
    ensures var key := LookupKey(m.files[n].Target());
            NeedsDownload(m.files[n], tree) <==>
              key !in index || !index[key].exists_ || index[key].sha256 != m.files[n].sha256
  {
    hide Disjoint, LookupKey, Keys, ManifestTargets;
    var target := m.files[n].Target();
    var key := LookupKey(target);
    assert IsRecorded(snapshot, target);
    var s :| 0 <= s < |snapshot| && snapshot[s].path == target;
    assert key in index;
    var info := index[key];
    var i :| 0 <= i < |snapshot| && snapshot[i] == info;
    assert TellsTruth(info, tree) && IsTarget(m.files, info.path);
    var j :| 0 <= j < |m.files| && m.files[j].Target() == info.path;
    KeyFindsPath(m, n, j);
  }

  /** A file may be planned: its target is manageable and allowed, and its artifact, if needed, has a URL. */
  predicate FilePlannable(file: ManifestFile, config: Config, tree: Tree) {
    AcceptablePath(file.Target(), config) && (NeedsDownload(file, tree) ==> config.artifact(file.path).Some?)
  }

  ghost predicate Plannable(m: Manifest, config: Config, tree: Tree) {
    && (forall i :: 0 <= i < |m.files| ==> FilePlannable(m.files[i], config, tree))
    && (forall i :: 0 <= i < |m.remove| ==> AcceptablePath(m.remove[i], config))
  }

  /** The loop over the manifest's files. */
  method PlanFiles(
    m: Manifest, config: Config, snapshot: seq<LocalFileInfo>, index: map<string, LocalFileInfo>,
    ghost tree: Tree)
    returns (downloads: Option<seq<ManifestFile>>, operations: seq<Operation>)
    requires IndexOf(snapshot, index) && Disjoint(Keys(ManifestTargets(m)))
    ensures downloads.Some? && Faithful(snapshot, m.files, tree) ==>
              downloads.value == Changed(m.files, tree) && operations == Replacements(Changed(m.files, tree))
    ensures Faithful(snapshot, m.files, tree) ==>
              (downloads.Some? <==> forall i :: 0 <= i < |m.files| ==> FilePlannable(m.files[i], config, tree))
  {
    hide LookupKey, Disjoint, Keys, ManifestTargets, IndexOf, Faithful, AcceptablePath, NeedsDownload;
    ghost var faithful := Faithful(snapshot, m.files, tree);
    var wanted: seq<ManifestFile> := [];
    operations := [];
    downloads := None;
    var n := 0;
    while n < |m.files|
      invariant 0 <= n <= |m.files| && |wanted| == |operations|
      invariant faithful ==> wanted == Changed(m.files[..n], tree)
      invariant operations == Replacements(wanted)
      invariant faithful ==> forall i :: 0 <= i < n ==> FilePlannable(m.files[i], config, tree)
    {
      var file := m.files[n];
      assert !AcceptablePath(file.Target(), config) ==> !FilePlannable(m.files[n], config, tree);
      if !AcceptablePath(file.Target(), config) { return; }
      if faithful { SnapshotDecides(m, snapshot, tree, index, n); }
      assert m.files[..n + 1][..n] == m.files[..n];
      var key := LookupKey(file.Target());
      if key !in index || !index[key].exists_ || index[key].sha256 != file.sha256 {
        if config.artifact(file.path).None? {
          assert faithful ==> !FilePlannable(m.files[n], config, tree);
          return;
        }
        assert Replacements(wanted + [file]) == Replacements(wanted) + [ReplaceOf(file)];
        operations := operations + [ReplaceOf(file)];
        wanted := wanted + [file];
      }
      n := n + 1;
    }
    assert m.files[..n] == m.files;
    downloads := Some(wanted);
  }

  method PlanRemovals(m: Manifest, config: Config) returns (operations: Option<seq<Operation>>)
    ensures operations.Some? <==> forall i :: 0 <= i < |m.remove| ==> AcceptablePath(m.remove[i], config)
    ensures operations.Some? ==> operations.value == Removals(m.remove)
  {
    hide AcceptablePath;
    var ops: seq<Operation> := [];
    var n := 0;
    while n < |m.remove|
      invariant 0 <= n <= |m.remove| && ops == Removals(m.remove[..n])
      invariant forall i :: 0 <= i < n ==> AcceptablePath(m.remove[i], config)
    {
      if !AcceptablePath(m.remove[n], config) { return None; }
      assert Removals(m.remove[..n + 1]) == Removals(m.remove[..n]) + [RemoveOf(m.remove[n])];
      ops := ops + [RemoveOf(m.remove[n])];
      n := n + 1;
    }
    assert m.remove[..n] == m.remove;
    operations := Some(ops);
  }

  /** What the last accepted version adds to the running one. */
  ghost function Baseline(current: V.Version, lastAccepted: Option<V.Version>): V.Version {
    if lastAccepted.Some? && V.Precedes(current, lastAccepted.value) then lastAccepted.value else current
  }

  ghost predicate DowngradeAuthorized(config: Config, m: Manifest, signatureVerified: bool) {
    !config.rejectDowngrade && config.requireSignature && signatureVerified && m.allowDowngrade
  }

  /** Whether the manifest offers an update at all. */
  ghost predicate Offers(config: Config, m: Manifest, signatureVerified: bool, lastAccepted: Option<V.Version>) {
    var down := V.Precedes(m.version, Baseline(config.currentVersion, lastAccepted));
    && (down ==> DowngradeAuthorized(config, m, signatureVerified))
    && !(m.minVersion.Some? && V.Precedes(config.currentVersion, m.minVersion.value))
    && (V.Precedes(config.currentVersion, m.version) || (down && !V.SamePrecedence(m.version, config.currentVersion)))
  }

  lemma PlannableIndexes(m: Manifest, config: Config, snapshot: seq<LocalFileInfo>, tree: Tree)
    requires Faithful(snapshot, m.files, tree)
    ensures Plannable(m, config, tree) ==> forall i :: 0 <= i < |snapshot| ==> ValidManagedTargetPath(snapshot[i].path)
  {
    hide ValidManagedTargetPath, NeedsDownload;
    if Plannable(m, config, tree) {
      forall i | 0 <= i < |snapshot| ensures ValidManagedTargetPath(snapshot[i].path) {
        assert IsTarget(m.files, snapshot[i].path);
        var j :| 0 <= j < |m.files| && m.files[j].Target() == snapshot[i].path;
        assert FilePlannable(m.files[j], config, tree);
      }
    }
  }

  /** `otherwiseValid`: the checks of identity, time and URLs against the configuration. */
  method PlanUpdate(
    config: Config, m: Manifest, signatureVerified: bool, lastAccepted: Option<V.Version>, otherwiseValid: bool,
    snapshot: seq<LocalFileInfo>, ghost tree: Tree)
    returns (decision: Option<Decision>)
    requires V.WellFormed(config.currentVersion) && V.WellFormed(m.version)
    requires lastAccepted.Some? ==> V.WellFormed(lastAccepted.value)
    requires m.minVersion.Some? ==> V.WellFormed(m.minVersion.value)
    ensures decision.Some? ==> Disjoint(Keys(ManifestTargets(m)))
    ensures decision.Some? ==> (decision.value.updateAvailable <==> Offers(config, m, signatureVerified, lastAccepted))
    ensures Faithful(snapshot, m.files, tree) ==>
              (decision.Some? <==>
                 && Disjoint(Keys(ManifestTargets(m))) && otherwiseValid
                 && (V.Precedes(m.version, Baseline(config.currentVersion, lastAccepted)) ==>
                       DowngradeAuthorized(config, m, signatureVerified))
                 && (Offers(config, m, signatureVerified, lastAccepted) ==> Plannable(m, config, tree)))
    ensures decision.Some? && !decision.value.updateAvailable ==>
              decision.value.operations == [] && decision.value.downloads == []
    ensures decision.Some? && decision.value.updateAvailable && Faithful(snapshot, m.files, tree) ==>
              && decision.value.downloads == Changed(m.files, tree)
              && decision.value.operations == Replacements(Changed(m.files, tree)) + Removals(m.remove)
  {
    hide Disjoint, Keys, ManifestTargets, Faithful, Replacements, Removals;
    hide Changed, AcceptablePath, FilePlannable, V.Precedes, V.WellFormed, V.SamePrecedence;
    var validTargets := ValidateDisjointTargets(ManifestTargets(m));
    if !validTargets || !otherwiseValid { return None; }
    var baseline := config.currentVersion;
    if lastAccepted.Some? {
      var behind := V.LessThan(baseline, lastAccepted.value);
      if behind { baseline := lastAccepted.value; }
    }
    var isDowngrade := V.LessThan(m.version, baseline);
    var authorized :=
      isDowngrade && !config.rejectDowngrade && config.requireSignature && signatureVerified && m.allowDowngrade;
    if isDowngrade && !authorized { return None; }
    if m.minVersion.Some? {
      var tooOld := V.LessThan(config.currentVersion, m.minVersion.value);
      if tooOld { return Some(Decision(false, true, [], [])); }
    }
    var newer := V.LessThan(config.currentVersion, m.version);
    if !newer && !(authorized && !V.SamePrecedence(m.version, config.currentVersion)) {
      return Some(Decision(false, false, [], []));
    }
    var index := IndexSnapshot(snapshot);
    if Faithful(snapshot, m.files, tree) { PlannableIndexes(m, config, snapshot, tree); }
    if index.None? { return None; }
    var downloads, operations := PlanFiles(m, config, snapshot, index.value, tree);
    if downloads.None? { return None; }
    var removals := PlanRemovals(m, config);
    if removals.None? { return None; }
    decision := Some(Decision(true, false, operations + removals.value, downloads.value));
  }

  // ---------- what the list means ----------

  lemma {:induction false} ChangedOnly(files: seq<ManifestFile>, tree: Tree, i: nat) returns (n: nat)
    requires i < |Changed(files, tree)|
    ensures n < |files| && Changed(files, tree)[i] == files[n] && NeedsDownload(files[n], tree)
  {
    var front := Changed(files[..|files| - 1], tree);
    if i < |front| { n := ChangedOnly(files[..|files| - 1], tree, i); } else { n := |files| - 1; }
  }

  lemma {:induction false} ChangedAll(files: seq<ManifestFile>, tree: Tree, n: nat) returns (i: nat)
    requires n < |files| && NeedsDownload(files[n], tree)
    ensures i < |Changed(files, tree)| && Changed(files, tree)[i] == files[n]
  {
    var last := |files| - 1;
    if n == last { i := |Changed(files[..last], tree)|; } else { i := ChangedAll(files[..last], tree, n); }
  }

  lemma TargetsApart(m: Manifest, i: nat, j: nat)
    requires Disjoint(Keys(ManifestTargets(m))) && i < j < |ManifestTargets(m)|
    ensures ManifestTargets(m)[i] != ManifestTargets(m)[j]
  {
    hide HasConflict, LookupKey;
    var keys, ts := Keys(ManifestTargets(m)), ManifestTargets(m);
    assert keys[i] == LookupKey(ts[i]) && keys[j] == LookupKey(ts[j]);
  }

  /** An unchanged file is no operation's target. */
  lemma UnchangedIsUnmanaged(m: Manifest, tree: Tree, plan: Plan, n: nat)
    requires Disjoint(Keys(ManifestTargets(m))) && n < |m.files| && !NeedsDownload(m.files[n], tree)
    requires plan.operations == Replacements(Changed(m.files, tree)) + Removals(m.remove)
    ensures !Managed(plan, m.files[n].Target())
  {
    hide Disjoint, Changed;
    var changed := Changed(m.files, tree);
    forall k | 0 <= k < |plan.operations| ensures plan.operations[k].target != m.files[n].Target() {
      if k < |changed| {
        var j := ChangedOnly(m.files, tree, k);
        if j < n { TargetsApart(m, j, n); } else { TargetsApart(m, n, j); }
      } else {
        TargetsApart(m, n, |m.files| + (k - |changed|));
      }
    }
  }

  /** The tree holds the whole manifest, none of the removed paths, and everything else as it was. */
  ghost predicate UpdatedTo(m: Manifest, tree: Tree, after: Tree) {
    && (forall n :: 0 <= n < |m.files| ==>
          m.files[n].Target() in after && after[m.files[n].Target()].sha256 == m.files[n].sha256)
    && (forall n :: 0 <= n < |m.remove| ==> m.remove[n] !in after)
    && (forall q :: q !in ManifestTargets(m) ==> Lookup(after, q) == Lookup(tree, q))
  }

  /**
    Carrying out the incremental list installs the whole manifest: every file
    has its declared digest, every removed path is gone, and everything else
    is as it was.
  */
  lemma IncrementalMeansFull(m: Manifest, tree: Tree, plan: Plan, after: Tree)
    requires Disjoint(Keys(ManifestTargets(m)))
    requires plan.operations == Replacements(Changed(m.files, tree)) + Removals(m.remove)
    requires AllInstalled(after, plan) && OthersUntouched(after, tree, plan)
    ensures UpdatedTo(m, tree, after)
  {
    hide Disjoint, Changed;
    var changed := Changed(m.files, tree);
    forall n: nat | n < |m.files|
      ensures m.files[n].Target() in after && after[m.files[n].Target()].sha256 == m.files[n].sha256
    {
      if NeedsDownload(m.files[n], tree) {
        var i := ChangedAll(m.files, tree, n);
        assert InstalledAt(after, plan, i);
        assert plan.operations[i] == ReplaceOf(m.files[n]);
      } else {
        UnchangedIsUnmanaged(m, tree, plan, n);
        assert Lookup(after, m.files[n].Target()) == Lookup(tree, m.files[n].Target());
      }
    }
    forall n: nat | n < |m.remove| ensures m.remove[n] !in after {
      assert InstalledAt(after, plan, |changed| + n);
      assert plan.operations[|changed| + n] == RemoveOf(m.remove[n]);
    }
    forall q | q !in ManifestTargets(m) ensures Lookup(after, q) == Lookup(tree, q) {
      UnlistedIsUnmanaged(m, tree, plan, q);
    }
  }

  lemma UnlistedIsUnmanaged(m: Manifest, tree: Tree, plan: Plan, q: string)
    requires plan.operations == Replacements(Changed(m.files, tree)) + Removals(m.remove)
    requires q !in ManifestTargets(m)
    ensures !Managed(plan, q)
  {
    hide Changed;
    var changed, ts := Changed(m.files, tree), ManifestTargets(m);
    forall k | 0 <= k < |plan.operations| ensures plan.operations[k].target != q {
      if k < |changed| {
        var j := ChangedOnly(m.files, tree, k);
        assert ts[j] in ts;
      } else {
        assert ts[|m.files| + (k - |changed|)] in ts;
      }
    }
  }
}
