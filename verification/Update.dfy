/**
  One update from the manifest to the installed files: check, download, write
  the apply plan, apply (src/Updater.cpp, checkAsync, downloadAndPrepare and the
  launch; src/ApplyPlanWriter.cpp).
*/
module Updates {
  import opened Wrappers
  import opened Topology
  import opened Plans
  import opened PlanJson
  import opened Journal
  import opened InstallState
  import opened InstallRoots
  import opened ApplyTransactions
  import opened Rollbacks
  import opened Execution
  import opened Planner
  import N = Networking
  import D = Downloads
  import R = DownloadResume
  import V = Versions

  /**
    What one update is given.  `header` carries the directories, names and
    restart command of the plan, `planText` the bytes of a written plan, and
    `id` the fresh transaction id.
  */
  datatype Job = Job(
    config: Config, manifest: Manifest, signatureVerified: bool, lastAccepted: Option<V.Version>, otherwiseValid: bool,
    settings: D.Settings, scope: R.Scope, resumeKey: ManifestFile -> string, header: Plan,
    planText: Plan -> seq<N.byte>, id: string)
  {
    ghost predicate Valid() {
      && V.WellFormed(config.currentVersion) && V.WellFormed(manifest.version) && IsLowerHexSha256(id)
      && (lastAccepted.Some? ==> V.WellFormed(lastAccepted.value))
      && (manifest.minVersion.Some? ==> V.WellFormed(manifest.minVersion.value))
    }

    function DownloadOf(file: ManifestFile): D.Download {
      var url := config.artifact(file.path);
      D.Download(if url.Some? then url.value else "", file.path, file.sha256, file.size, resumeKey(file))
    }

    function DownloadsOf(files: seq<ManifestFile>): (downloads: seq<D.Download>)
      ensures |downloads| == |files| && forall i :: 0 <= i < |files| ==> downloads[i] == DownloadOf(files[i])
    {
      seq(|files|, i requires 0 <= i < |files| => DownloadOf(files[i]))
    }

    /** The plan writeApplyPlan writes for an operation list. */
    function PlanOf(operations: seq<Operation>): Plan {
      header.(schemaVersion := 2, intent := Install, rollbackOf := None, operations := operations)
    }

    /** The downloads and the plan for the tree as it is. */
    function Wanted(tree: Tree): seq<D.Download> { DownloadsOf(Changed(manifest.files, tree)) }

    function Planned(tree: Tree): Plan {
      PlanOf(Replacements(Changed(manifest.files, tree)) + Removals(manifest.remove))
    }
  }

  /** The name the plan is written under, in the staging directory itself. */
  const PLAN_FILE := "apply-plan.json"

  /** How far an update came. */
  datatype Reached = CheckFailed | NoUpdate | DownloadFailed | PlanRefused | Prepared | Applied(ok: bool)

  // ---------- writing the plan ----------

  /** A plan that can be written is read back exactly when it is acceptable. */
  lemma WrittenPlanParses(p: Plan, limits: Limits)
    requires Writable(p)
    ensures ParseSpec(ToJson(p), limits).Some? <==> Accepted(p, limits)
  {
    if Accepted(p, limits) { PlanRoundTrip(p, limits); }
    SpelledRoundTrip(p, limits);
    hide ToJson, Spelled, Accepted, Writable, ValidHeader, ValidOperations;
  }

  lemma PlannedIsWritable(job: Job, tree: Tree)
    ensures Writable(job.Planned(tree))
  {
    hide Changed;
  }

  /** writePlanFile: a plan that cannot be read back is not written; the file replaces whatever has its name. */
  method WritePlan(plan: Plan, limits: Limits, text: seq<N.byte>, s: D.Settings, staging: D.Staging) returns (ok: bool)
    requires Writable(plan)
    modifies staging
    ensures staging.files in {old(staging.files), old(staging.files)[s.Name(PLAN_FILE) := text]}
    ensures ok ==> Accepted(plan, limits) && staging.files == old(staging.files)[s.Name(PLAN_FILE) := text]
    ensures !staging.faulty && Accepted(plan, limits) ==> ok
  {
    hide Writable, Accepted, ToJson, ParseSpec;
    WrittenPlanParses(plan, limits);
    var parsed := Parse(ToJson(plan), limits);
    if parsed.None? { return false; }
    ok := staging.Probe();
    var published: bool := *;
    if ok || published { staging.Keep(s.Name(PLAN_FILE), text); }
  }

  // ---------- what the executor finds in the staging directory ----------

  function Slots(plan: Plan): set<(string, string)> {
    set o | o in plan.operations && o.kind == Replace :: (plan.stagingDir, o.source)
  }

  /** The staged files by the paths of the plan; size and digest are all that matters of their contents. */
  function Staging(
    plan: Plan, files: D.Files, s: D.Settings, identity: string, permissions: Option<nat>)
    : map<(string, string), File>
    requires identity != "" && (permissions.Some? ==> permissions.value <= PERMISSION_MASK)
  {
    map k | k in Slots(plan) && s.Name(k.1) in files && IsLowerHexSha256(s.hash(files[s.Name(k.1)])) ::
      FileImage(identity, |files[s.Name(k.1)]|, s.hash(files[s.Name(k.1)]), permissions)
  }

  /** Of the slots exactly the found files are there, backups in use aside. */
  ghost predicate SeenIn(d: Durable, e: Durable, found: map<(string, string), File>, slots: set<(string, string)>) {
    forall k :: Lookup(e.store, k)
                == if k in BackupsInUse(d) then Lookup(d.store, k)
                else if k in found then Some(found[k])
                else if k in slots then None else Lookup(d.store, k)
  }

  /** The backups and budgets the plan needs are there, and its id and digest are new. */
  ghost predicate RoomFor(s: Setting, d: Durable, plan: Plan, id: string) {
    && id !in d.plans && BackupBudgetOk(d.tree, plan, s.limits)
    && (d.terminal.Some? ==> d.terminal.value.planDigest != s.planDigest(plan))
    && plan.backupDir != plan.stagingDir && (forall k :: k in BackupsInUse(d) ==> k.0 != plan.stagingDir)
    && forall i: nat :: i < |plan.operations| ==> SlotFree(d, plan, i)
  }

  predicate SlotFree(d: Durable, plan: Plan, i: nat)
    requires i < |plan.operations|
  {
    var o := plan.operations[i];
    var f := Lookup(d.tree, o.target);
    f.Some? && !Idempotent(f, o) && (plan.backupDir, o.target) in d.store ==>
      Restores(Some(d.store[(plan.backupDir, o.target)]), f)
  }

  /** No staged file has the name the plan is written under. */
  predicate PlanApart(downloads: seq<D.Download>, s: D.Settings) {
    forall i :: 0 <= i < |downloads| ==> s.Name(downloads[i].path) != s.Name(PLAN_FILE)
  }

  ghost predicate AllVerified(files: D.Files, downloads: seq<D.Download>, s: D.Settings) {
    forall i :: 0 <= i < |downloads| ==> D.Verified(files, downloads[i], s)
  }

  /** A verified download is found by the operation that installs it. */
  lemma VerifiedIsFound(
    job: Job, tree: Tree, files: D.Files, limits: Limits, identity: string, permissions: Option<nat>, i: nat)
    requires identity != "" && (permissions.Some? ==> permissions.value <= PERMISSION_MASK)
    requires AllVerified(files, job.Wanted(tree), job.settings) && Accepted(job.Planned(tree), limits)
    requires i < |job.Planned(tree).operations| && job.Planned(tree).operations[i].kind == Replace
    ensures var plan := job.Planned(tree);
            var o := plan.operations[i];
            MatchesEvidence(
              Lookup(Staging(plan, files, job.settings, identity, permissions), (plan.stagingDir, o.source)),
              o.size, o.sha256)
  {
    var plan, changed := job.Planned(tree), Changed(job.manifest.files, tree);
    var o := plan.operations[i];
    assert IsLowerHexSha256(o.sha256) by { assert ValidOperation(o, plan.schemaVersion, limits); }
    hide Changed, Accepted, IsLowerHexSha256;
    assert i < |changed| && o == ReplaceOf(changed[i]);
    assert D.Verified(files, job.Wanted(tree)[i], job.settings);
    assert (plan.stagingDir, o.source) in Slots(plan);
  }

  /** The found file of a download that was not verified does not serve its operation. */
  lemma StagedIsVerified(
    job: Job, s: Setting, d: Durable, e: Durable, files: D.Files, identity: string, permissions: Option<nat>)
    requires identity != "" && (permissions.Some? ==> permissions.value <= PERMISSION_MASK)
    requires RoomFor(s, d, job.Planned(d.tree), job.id) && e == d.(store := e.store)
    requires var plan := job.Planned(d.tree);
             SeenIn(d, e, Staging(plan, files, job.settings, identity, permissions), Slots(plan))
    requires AllStaged(e, job.Planned(d.tree))
    ensures AllVerified(files, job.Wanted(d.tree), job.settings)
  {
    var plan, changed := job.Planned(d.tree), Changed(job.manifest.files, d.tree);
    var found := Staging(plan, files, job.settings, identity, permissions);
    OnlySlots(plan, files, job.settings, identity, permissions);
    hide BackupBudgetOk, SeenIn, Slots, Staging, IsLowerHexSha256, RoomFor, Staged, D.Verified;
    forall i | 0 <= i < |changed| ensures D.Verified(files, job.Wanted(d.tree)[i], job.settings) {
      SlotsSeen(s, d, e, plan, found, job.id, i);
      var n := ChangedOnly(job.manifest.files, d.tree, i);
      hide Changed, NeedsDownload;
      assert plan.operations[i] == ReplaceOf(changed[i]) && Staged(e, plan, i);
      ChangedIsFound(d, e, plan, i, changed[i]);
      FoundIsVerified(job, plan, files, identity, permissions, changed[i]);
    }
  }

  /** A file that differs is installed from its slot only. */
  lemma ChangedIsFound(d: Durable, e: Durable, plan: Plan, i: nat, file: ManifestFile)
    requires i < |plan.operations| && plan.operations[i] == ReplaceOf(file)
    requires e.tree == d.tree && NeedsDownload(file, d.tree) && Staged(e, plan, i)
    ensures MatchesEvidence(Lookup(e.store, (plan.stagingDir, file.path)), file.size, file.sha256)
  {
  }

  lemma FoundIsVerified(
    job: Job, plan: Plan, files: D.Files, identity: string, permissions: Option<nat>, file: ManifestFile)
    requires identity != "" && (permissions.Some? ==> permissions.value <= PERMISSION_MASK)
    requires MatchesEvidence(
               Lookup(Staging(plan, files, job.settings, identity, permissions), (plan.stagingDir, file.path)),
               file.size, file.sha256)
    ensures D.Verified(files, job.DownloadOf(file), job.settings)
  {
    hide Slots, IsLowerHexSha256;
  }

  /** The slots of a plan there is room for, as the executor sees them. */
  lemma SlotsSeen(
    s: Setting, d: Durable, e: Durable, plan: Plan, found: map<(string, string), File>, id: string, i: nat)
    requires RoomFor(s, d, plan, id) && SeenIn(d, e, found, Slots(plan)) && found.Keys <= Slots(plan)
    requires i < |plan.operations|
    ensures var o := plan.operations[i];
            && Lookup(e.store, (plan.backupDir, o.target)) == Lookup(d.store, (plan.backupDir, o.target))
            && (o.kind == Replace ==>
                  Lookup(e.store, (plan.stagingDir, o.source)) == Lookup(found, (plan.stagingDir, o.source)))
            && SlotFree(d, plan, i)
  {
    hide BackupBudgetOk, BackupsInUse, SlotFree;
    var o := plan.operations[i];
    assert o.kind == Replace ==> (plan.stagingDir, o.source) in Slots(plan);
    assert (plan.backupDir, o.target) !in Slots(plan);
  }

  /** With all downloads verified and room for the plan, nothing keeps the executor from installing it. */
  lemma StagedIsReady(
    job: Job, s: Setting, d: Durable, e: Durable, files: D.Files, identity: string, permissions: Option<nat>)
    requires identity != "" && (permissions.Some? ==> permissions.value <= PERMISSION_MASK)
    requires AllVerified(files, job.Wanted(d.tree), job.settings) && Accepted(job.Planned(d.tree), s.limits)
    requires RoomFor(s, d, job.Planned(d.tree), job.id) && e == d.(store := e.store)
    requires var plan := job.Planned(d.tree);
             SeenIn(d, e, Staging(plan, files, job.settings, identity, permissions), Slots(plan))
    ensures AllReady(s, e, job.Planned(d.tree))
  {
    hide BackupBudgetOk, AllVerified, Accepted, SeenIn, Ready;
    var plan := job.Planned(d.tree);
    var found := Staging(plan, files, job.settings, identity, permissions);
    OnlySlots(plan, files, job.settings, identity, permissions);
    hide Staging, Slots;
    forall i: nat | i < |plan.operations| ensures Ready(e, plan, i) {
      SlotsSeen(s, d, e, plan, found, job.id, i);
      NoPrecondition(job, d.tree, i);
      if plan.operations[i].kind == Replace {
        VerifiedIsFound(job, d.tree, files, s.limits, identity, permissions, i);
      }
      hide RoomFor, Job.Planned;
      FoundIsReady(d, e, plan, i);
    }
  }

  lemma OnlySlots(plan: Plan, files: D.Files, s: D.Settings, identity: string, permissions: Option<nat>)
    requires identity != "" && (permissions.Some? ==> permissions.value <= PERMISSION_MASK)
    ensures Staging(plan, files, s, identity, permissions).Keys <= Slots(plan)
  {
    hide Slots;
  }

  lemma FoundIsReady(d: Durable, e: Durable, plan: Plan, i: nat)
    requires i < |plan.operations| && e.tree == d.tree && plan.operations[i].precondition.None? && SlotFree(d, plan, i)
    requires var o := plan.operations[i];
             && Lookup(e.store, (plan.backupDir, o.target)) == Lookup(d.store, (plan.backupDir, o.target))
             && (o.kind == Replace ==>
                   MatchesEvidence(Lookup(e.store, (plan.stagingDir, o.source)), o.size, o.sha256))
    ensures Ready(e, plan, i)
  {
    hide Idempotent;
  }

  lemma NoPrecondition(job: Job, tree: Tree, i: nat)
    requires i < |job.Planned(tree).operations|
    ensures job.Planned(tree).operations[i].precondition.None?
  {
    hide Changed;
  }

  // ---------- what the manifest promises the plan ----------

  /** The files and removals of a manifest that was parsed within the limits. */
  ghost predicate ManifestOk(m: Manifest, limits: Limits) {
    && (forall i :: 0 <= i < |m.files| ==> FileOk(m.files[i], limits))
    && SourcesAgree(Replacements(m.files)) && ReplaceBytes(Replacements(m.files)) <= limits.maxTotalArtifactBytes
    && Disjoint(Keys(ManifestTargets(m)))
  }

  predicate FileOk(file: ManifestFile, limits: Limits) {
    ValidManagedPath(file.path) && IsLowerHexSha256(file.sha256) && file.size <= limits.maxArtifactBytes
  }

  /** Two changed files come from two places of the manifest, in its order. */
  lemma {:induction false} ChangedInOrder(files: seq<ManifestFile>, tree: Tree, i: nat, j: nat)
    returns (a: nat, b: nat)
    requires i < j < |Changed(files, tree)|
    ensures a < b < |files| && Changed(files, tree)[i] == files[a] && Changed(files, tree)[j] == files[b]
  {
    var front := files[..|files| - 1];
    if j < |Changed(front, tree)| {
      a, b := ChangedInOrder(front, tree, i, j);
    } else {
      a := ChangedOnly(front, tree, i);
      b := |files| - 1;
    }
  }

  /** Two operations of the plan have two of the manifest's targets. */
  lemma PlannedTargets(job: Job, tree: Tree, i: nat, j: nat) returns (a: nat, b: nat)
    requires i < j < |job.Planned(tree).operations|
    ensures var ts, ops := ManifestTargets(job.manifest), job.Planned(tree).operations;
            a < b < |ts| && ops[i].target == ts[a] && ops[j].target == ts[b]
  {
    hide Changed, ManifestTargets, Replacements, Removals;
    var m, changed := job.manifest, Changed(job.manifest.files, tree);
    if j < |changed| {
      a, b := ChangedInOrder(m.files, tree, i, j);
    } else {
      b := |m.files| + (j - |changed|);
      if i < |changed| { a := ChangedOnly(m.files, tree, i); } else { a := |m.files| + (i - |changed|); }
    }
  }

  lemma PlannedDisjoint(job: Job, tree: Tree)
    requires Disjoint(Keys(ManifestTargets(job.manifest)))
    ensures Disjoint(Keys(Targets(job.Planned(tree).operations)))
  {
    var ts, ops := ManifestTargets(job.manifest), job.Planned(tree).operations;
    var all, some := Keys(ts), Keys(Targets(ops));
    hide Changed, LookupKey, Below, Job.Planned, ManifestTargets;
    forall i: nat, j: nat | i < j < |some|
      ensures some[i] != some[j] && !Below(some[i], some[j]) && !Below(some[j], some[i])
    {
      var a, b := PlannedTargets(job, tree, i, j);
      assert some[i] == all[a] && some[j] == all[b] && all[a] in all && all[b] in all;
    }
    forall p, c | p in some && c in some ensures !Below(p, c) {
      var i: nat :| i < |some| && some[i] == p;
      var j: nat :| j < |some| && some[j] == c;
      if i == j { NotBelowItself(p); }
    }
  }

  lemma NotBelowItself(p: string)
    ensures !Below(p, p)
  {
  }

  lemma {:induction false} ChangedBytes(files: seq<ManifestFile>, tree: Tree)
    ensures ReplaceBytes(Replacements(Changed(files, tree))) <= ReplaceBytes(Replacements(files))
  {
    if |files| > 0 {
      var last, front := files[|files| - 1], files[..|files| - 1];
      ChangedBytes(front, tree);
      assert Replacements(files)[..|files| - 1] == Replacements(front);
      var changed := Changed(front, tree);
      if NeedsDownload(last, tree) {
        assert Replacements(changed + [last])[..|changed|] == Replacements(changed);
      } else {
        assert Changed(files, tree) == changed;
      }
    }
  }

  lemma {:induction false} RemovalBytes(ops: seq<Operation>, paths: seq<string>)
    ensures ReplaceBytes(ops + Removals(paths)) == ReplaceBytes(ops)
  {
    if |paths| == 0 {
      assert ops + Removals(paths) == ops;
    } else {
      var all := ops + Removals(paths);
      RemovalBytes(ops, paths[..|paths| - 1]);
      assert all[..|all| - 1] == ops + Removals(paths[..|paths| - 1]);
    }
  }

  lemma PlannedSources(job: Job, tree: Tree)
    requires SourcesAgree(Replacements(job.manifest.files))
    ensures SourcesAgree(job.Planned(tree).operations)
  {
    var files, ops := job.manifest.files, job.Planned(tree).operations;
    var changed, all := Changed(files, tree), Replacements(files);
    hide LookupKey, Below;
    forall i, j | 0 <= i < |ops| && 0 <= j < |ops| && ops[i].kind == Replace && ops[j].kind == Replace
      ensures LookupKey(ops[i].source) == LookupKey(ops[j].source) ==>
                ops[i].sha256 == ops[j].sha256 && ops[i].size == ops[j].size
      ensures !Below(LookupKey(ops[i].source), LookupKey(ops[j].source))
    {
      var a := ChangedOnly(files, tree, i);
      var b := ChangedOnly(files, tree, j);
      hide Changed;
      assert ops[i] == all[a] && ops[j] == all[b];
    }
  }

  lemma PlannedOperation(job: Job, tree: Tree, limits: Limits, i: nat)
    requires ManifestOk(job.manifest, limits) && Plannable(job.manifest, job.config, tree)
    requires i < |job.Planned(tree).operations|
    ensures ValidOperation(job.Planned(tree).operations[i], 2, limits)
  {
    hide ValidManagedPath, ValidManagedTargetPath, IsLowerHexSha256, SourcesAgree, Disjoint, ReplaceBytes;
    hide NeedsDownload, Changed, Replacements, Removals, ManifestTargets;
    var changed := Changed(job.manifest.files, tree);
    if i < |changed| {
      var n := ChangedOnly(job.manifest.files, tree, i);
      assert FileOk(job.manifest.files[n], limits) && FilePlannable(job.manifest.files[n], job.config, tree);
      assert job.Planned(tree).operations[i] == ReplaceOf(changed[i]);
    } else {
      assert AcceptablePath(job.manifest.remove[i - |changed|], job.config);
      assert job.Planned(tree).operations[i] == RemoveOf(job.manifest.remove[i - |changed|]);
    }
  }

  /**
    The plan of a parsed manifest can be written and will be accepted exactly
    when files and removals together are not too many: the two lists are bounded
    each on its own.
  */
  lemma PlanIsAccepted(job: Job, tree: Tree, limits: Limits)
    requires ManifestOk(job.manifest, limits) && Plannable(job.manifest, job.config, tree)
    requires ValidHeader(job.Planned(tree)) && |job.header.restartCommand| <= limits.maxContainerEntries
    ensures Accepted(job.Planned(tree), limits) <==>
              |Changed(job.manifest.files, tree)| + |job.manifest.remove| <= limits.maxContainerEntries
  {
    hide Disjoint, SourcesAgree, ReplaceBytes, Changed, ValidOperation, Plannable, ValidHeader, Removals, Replacements;
    hide ManifestTargets, FileOk;
    var plan := job.Planned(tree);
    PlannedDisjoint(job, tree);
    PlannedSources(job, tree);
    ChangedBytes(job.manifest.files, tree);
    RemovalBytes(Replacements(Changed(job.manifest.files, tree)), job.manifest.remove);
    forall i | 0 <= i < |plan.operations| ensures ValidOperation(plan.operations[i], 2, limits) {
      PlannedOperation(job, tree, limits, i);
    }
  }

  /** Where the file system ignores no more than the case of ASCII letters, the manifest's sources agree in staging. */
  lemma ManifestPathsAgree(job: Job, tree: Tree)
    requires SourcesAgree(Replacements(job.manifest.files))
    requires forall c, d :: job.settings.fold(c) == job.settings.fold(d) ==> KeyChar(c) == KeyChar(d)
    ensures D.PathsAgree(job.Wanted(tree), job.settings)
  {
    var s, files := job.settings, job.manifest.files;
    var downloads, all := job.Wanted(tree), Replacements(files);
    hide Below;
    forall i, j | 0 <= i < j < |downloads| && s.Name(downloads[i].path) == s.Name(downloads[j].path)
      ensures downloads[i].sha256 == downloads[j].sha256 && downloads[i].size == downloads[j].size
    {
      var a := ChangedOnly(files, tree, i);
      var b := ChangedOnly(files, tree, j);
      hide Changed;
      SameNameSameKey(downloads[i].path, downloads[j].path, s);
      assert all[a].source == downloads[i].path && all[b].source == downloads[j].path;
    }
  }

  lemma SameNameSameKey(p: string, q: string, s: D.Settings)
    requires s.Name(p) == s.Name(q)
    requires forall c, d :: s.fold(c) == s.fold(d) ==> KeyChar(c) == KeyChar(d)
    ensures LookupKey(p) == LookupKey(q)
  {
    var name := s.Name(p);
    assert |p| == |name| == |q|;
    forall i | 0 <= i < |p| ensures LookupKey(p)[i] == LookupKey(q)[i] {
      assert name[i] == s.fold(p[i]) && s.Name(q)[i] == s.fold(q[i]);
    }
  }

  // ---------- the update ----------

  /** An update is offered and everything it needs from the manifest and the configuration is in order. */
  ghost predicate Offered(job: Job, tree: Tree) {
    && Disjoint(Keys(ManifestTargets(job.manifest))) && job.otherwiseValid
    && Offers(job.config, job.manifest, job.signatureVerified, job.lastAccepted)
    && Plannable(job.manifest, job.config, tree)
  }

  /** What a download of everything needs in order to succeed, and to leave everything staged. */
  ghost predicate Obtainable(job: Job, tree: Tree, files: D.Files, network: N.Adapter) {
    var downloads, s := job.Wanted(tree), job.settings;
    && D.WithinBudget(downloads, s.limits) && s.maxRetries >= 0
    && D.AllServed(downloads, s, network) && D.NothingToResume(files, downloads, s)
  }

  /** Whether a download outlives the later ones and the plan, which is written over anything of its name. */
  predicate Outlives(job: Job, tree: Tree, files: D.Files, d: D.Download) {
    var downloads, s := job.Wanted(tree), job.settings;
    if s.Name(d.path) == s.Name(PLAN_FILE) then
      var text := job.planText(job.Planned(tree));
      |text| == d.size && s.hash(text) == d.sha256
    else D.StagedAfter(files, downloads, |downloads|, d, s)
  }

  /** What decides, before anything is downloaded, whether all downloads will be there for the executor. */
  predicate KeptInStaging(job: Job, tree: Tree, files: D.Files) {
    var downloads := job.Wanted(tree);
    && D.PathsAgree(downloads, job.settings)
    && forall i :: 0 <= i < |downloads| ==> Outlives(job, tree, files, downloads[i])
  }

  /** Names that clash neither with a later temporary nor with the plan are enough. */
  lemma ApartIsKept(job: Job, tree: Tree, files: D.Files)
    requires D.NamesAgree(job.Wanted(tree), job.settings) && PlanApart(job.Wanted(tree), job.settings)
    ensures KeptInStaging(job, tree, files)
  {
    hide D.StagedAfter, D.NothingLost;
    D.AgreeingNamesLoseNothing(files, job.Wanted(tree), job.settings);
    D.AllStagedMeansNothingLost(files, job.Wanted(tree), job.settings);
  }

  /** A file of the plan's own name is lost to it, unless the plan's text is what the manifest declares. */
  lemma PlanTakesFile(job: Job, tree: Tree, files: D.Files, i: nat)
    requires i < |job.Wanted(tree)| && job.Wanted(tree)[i].path == "apply-plan.json"
    requires job.settings.hash(job.planText(job.Planned(tree))) != job.Wanted(tree)[i].sha256
    ensures !KeptInStaging(job, tree, files)
  {
    hide D.PathsAgree;
    assert !Outlives(job, tree, files, job.Wanted(tree)[i]);
  }

  /** What is verified after the plan was written. */
  lemma KeptMeansVerified(job: Job, tree: Tree, files: D.Files, staged: D.Files, after: D.Files)
    requires var s := job.settings; after == staged[s.Name(PLAN_FILE) := job.planText(job.Planned(tree))]
    requires var downloads, s := job.Wanted(tree), job.settings;
             D.PathsAgree(downloads, s) ==> forall i :: 0 <= i < |downloads| ==>
               (D.Verified(staged, downloads[i], s) <==> D.StagedAfter(files, downloads, |downloads|, downloads[i], s))
    ensures AllVerified(after, job.Wanted(tree), job.settings) <==> KeptInStaging(job, tree, files)
  {
    var downloads, s := job.Wanted(tree), job.settings;
    hide D.StagedAfter, Job.Wanted, Job.Planned;
    if AllVerified(after, downloads, s) { D.AllVerifiedAgree(after, downloads, s); }
    hide D.PathsAgree;
    if D.PathsAgree(downloads, s) {
      forall i | 0 <= i < |downloads|
        ensures D.Verified(after, downloads[i], s) <==> Outlives(job, tree, files, downloads[i])
      {
      }
    }
  }

  lemma LostIsWanted(job: Job, tree: Tree, files: D.Files)
    requires !KeptInStaging(job, tree, files)
    ensures job.Wanted(tree) != []
  {
  }

  /** A tree that was put back is not updated as long as anything had to be downloaded. */
  lemma RestoredIsNotUpdated(job: Job, tree: Tree, after: Tree)
    requires job.Wanted(tree) != [] && Restored(after, tree)
    ensures !UpdatedTo(job.manifest, tree, after)
  {
    var n := ChangedOnly(job.manifest.files, tree, 0);
    hide Changed;
    var target := job.manifest.files[n].Target();
    assert Restores(Lookup(after, target), Lookup(tree, target));
  }

  /** Installing the plan, or putting everything back, is what a settled tree means for the manifest. */
  lemma SettledMeansUpdated(job: Job, tree: Tree, after: Tree)
    requires Disjoint(Keys(ManifestTargets(job.manifest))) && Settled(after, tree, job.Planned(tree))
    ensures Restored(after, tree) || UpdatedTo(job.manifest, tree, after)
  {
    hide Disjoint, Restored, AllInstalled, OthersUntouched, UpdatedTo, Changed;
    if !Restored(after, tree) { InstalledMeansUpdated(job, tree, after); }
  }

  /** The updater's part: check, download, and write the plan into the staging directory. */
  method Prepare(
    job: Job, tree: Tree, limits: Limits, staging: D.Staging, store: R.BatchStore, network: N.Adapter)
    returns (r: Reached, plan: Plan)
    requires job.Valid() && store.Valid()
    modifies staging, store, network
    ensures store.Valid() && !r.Applied?
    ensures r.Prepared? ==>
              && plan == job.Planned(tree) && Accepted(plan, limits) && Disjoint(Keys(ManifestTargets(job.manifest)))
              && Offers(job.config, job.manifest, job.signatureVerified, job.lastAccepted)
    ensures r.Prepared? ==>
              (AllVerified(staging.files, job.Wanted(tree), job.settings)
               <==> KeptInStaging(job, tree, old(staging.files)))
    ensures !staging.faulty && !store.faulty && Offered(job, tree) && Accepted(job.Planned(tree), limits) ==>
              Obtainable(job, tree, old(staging.files), network) ==> r.Prepared?
  {
    hide Faithful, Disjoint, Plannable, Offers, Changed, Replacements, Removals, Job.DownloadsOf, Accepted, Writable;
    hide D.PathsAgree, D.NothingLost, D.StagedAfter, D.WithinBudget, D.AllServed, D.NothingToResume, V.WellFormed;
    hide Outlives, D.Verified, IsLowerHexSha256;
    ghost var files := staging.files;
    plan := job.header;
    OfferIsAuthorized(job);
    var snapshot := BuildLocalSnapshot(job.manifest.files, tree, staging.faulty);
    if snapshot.None? { return CheckFailed, plan; }
    var decision := PlanUpdate(
      job.config, job.manifest, job.signatureVerified, job.lastAccepted, job.otherwiseValid, snapshot.value, tree);
    if decision.None? { return CheckFailed, plan; }
    if !decision.value.updateAvailable { return NoUpdate, plan; }
    var downloads := job.DownloadsOf(decision.value.downloads);
    var ok, reports := D.ExecuteDownloads(downloads, job.settings, staging, store, job.scope, network);
    if !ok { return DownloadFailed, plan; }
    ghost var staged := staging.files;
    plan := job.PlanOf(decision.value.operations);
    PlannedIsWritable(job, tree);
    ok := WritePlan(plan, limits, job.planText(plan), job.settings, staging);
    if !ok { return PlanRefused, plan; }
    KeptMeansVerified(job, tree, files, staged, staging.files);
    r := Reached.Prepared;
  }

  /**
    From any state with nothing active: whatever fails, once nothing is active
    again the tree is as it was or wholly updated.  When the executor meets no
    fault it is updated exactly if the downloads were kept in staging; and with
    no fault anywhere and a server that has the files, every offered update
    whose plan is acceptable gets to the executor.
  */
  method Update(job: Job, staging: D.Staging, store: R.BatchStore, network: N.Adapter, root: InstallRoot)
    returns (r: Reached)
    requires job.Valid() && store.Valid() && root.Valid() && root.d.active.None?
    modifies staging, store, network, root`d, root`h, root`alive
    ensures root.Valid() && store.Valid()
    ensures r.Applied? ==> Offers(job.config, job.manifest, job.signatureVerified, job.lastAccepted)
    ensures !r.Applied? ==> root.d == old(root.d)
    ensures root.d.active.None? ==>
              Restored(root.d.tree, old(root.d).tree) || UpdatedTo(job.manifest, old(root.d).tree, root.d.tree)
    ensures r.Applied? && old(root.Healthy()) && RoomFor(root.s, old(root.d), job.Planned(old(root.d).tree), job.id) ==>
              (UpdatedTo(job.manifest, old(root.d).tree, root.d.tree)
               <==> KeptInStaging(job, old(root.d).tree, old(staging.files)))
    ensures !staging.faulty && !store.faulty && Offered(job, old(root.d).tree) ==>
              Accepted(job.Planned(old(root.d).tree), root.s.limits) ==>
              Obtainable(job, old(root.d).tree, old(staging.files), network) ==> r.Applied?
  {
    hide Inv, Accepted, Offers, Offered, Obtainable, KeptInStaging, RoomFor, AllVerified, Disjoint;
    hide Restored, UpdatedTo, Settled, InstalledOver, Job.Planned, Job.Wanted;
    var tree := root.d.tree;
    ghost var files := staging.files;
    UntouchedIsRestored(tree);
    assert IsLowerHexSha256(job.id);
    hide Job.Valid, IsLowerHexSha256;
    var plan;
    r, plan := Prepare(job, tree, root.s.limits, staging, store, network);
    if !r.Prepared? { return; }
    var ok := Apply(job, plan, staging.files, root);
    if root.d.active.None? { SettledMeansUpdated(job, tree, root.d.tree); }
    if InstalledOver(root.d.tree, tree, plan) { InstalledMeansUpdated(job, tree, root.d.tree); }
    if Restored(root.d.tree, tree) && !KeptInStaging(job, tree, files) {
      LostIsWanted(job, tree, files);
      RestoredIsNotUpdated(job, tree, root.d.tree);
    }
    r := Applied(ok);
  }

  lemma InstalledMeansUpdated(job: Job, tree: Tree, after: Tree)
    requires Disjoint(Keys(ManifestTargets(job.manifest))) && InstalledOver(after, tree, job.Planned(tree))
    ensures UpdatedTo(job.manifest, tree, after)
  {
    hide Disjoint, AllInstalled, OthersUntouched, UpdatedTo, Changed;
    IncrementalMeansFull(job.manifest, tree, job.Planned(tree), after);
  }

  lemma OfferIsAuthorized(job: Job)
    ensures Offers(job.config, job.manifest, job.signatureVerified, job.lastAccepted) ==>
              V.Precedes(job.manifest.version, Baseline(job.config.currentVersion, job.lastAccepted)) ==>
              DowngradeAuthorized(job.config, job.manifest, job.signatureVerified)
  {
    hide V.Precedes, V.SamePrecedence;
  }

  /** What the executor asks for beside readiness. */
  lemma NoTerminalOf(s: Setting, d: Durable, plan: Plan, id: string)
    ensures RoomFor(s, d, plan, id) ==>
              && id !in d.plans && plan.backupDir != plan.stagingDir
              && (d.terminal.Some? ==> d.terminal.value.planDigest != s.planDigest(plan))
  {
    hide BackupBudgetOk, BackupsInUse, SlotFree;
  }

  /** What the executor will find: exactly the verified downloads serve their operations. */
  method Present(job: Job, plan: Plan, files: D.Files, root: InstallRoot)
    requires root.Valid() && plan == job.Planned(root.d.tree) && Accepted(plan, root.s.limits)
    modifies root`d
    ensures root.Valid() && root.d == old(root.d).(store := root.d.store) && root.Healthy() == old(root.Healthy())
    ensures RoomFor(root.s, old(root.d), plan, job.id) ==>
              if AllVerified(files, job.Wanted(old(root.d).tree), job.settings)
              then AllReady(root.s, root.d, plan) else !AllStaged(root.d, plan)
  {
    hide Inv, Accepted, AllVerified, AllReady, AllStaged, BackupBudgetOk, SlotFree, BackupsInUse;
    hide Staging, Slots, RoomFor, Job.Planned, Job.Wanted;
    ghost var d := root.d;
    var identity := root.NewIdentity();
    var permissions: Option<nat> := *;
    if permissions.Some? && permissions.value > PERMISSION_MASK { permissions := None; }
    root.Stage(Staging(plan, files, job.settings, identity, permissions), Slots(plan));
    ghost var found, slots := Staging(plan, files, job.settings, identity, permissions), Slots(plan);
    assert SeenIn(d, root.d, found, slots);
    hide *;
    if RoomFor(root.s, d, plan, job.id) {
      if AllVerified(files, job.Wanted(d.tree), job.settings) {
        StagedIsReady(job, root.s, d, root.d, files, identity, permissions);
      } else if AllStaged(root.d, plan) {
        StagedIsVerified(job, root.s, d, root.d, files, identity, permissions);
      }
    }
  }

  /** The helper process: it sees what is staged under the paths of its plan, and carries the plan out. */
  method Apply(job: Job, plan: Plan, files: D.Files, root: InstallRoot) returns (ok: bool)
    requires root.Valid() && root.d.active.None? && IsLowerHexSha256(job.id)
    requires plan == job.Planned(root.d.tree) && Accepted(plan, root.s.limits)
    modifies root`d, root`h, root`alive
    ensures root.Valid()
    ensures root.d.active.None? ==> Settled(root.d.tree, old(root.d).tree, plan)
    ensures old(root.Healthy()) && RoomFor(root.s, old(root.d), plan, job.id) ==>
              if AllVerified(files, job.Wanted(old(root.d).tree), job.settings)
              then Published(root.d, job.id) && InstalledOver(root.d.tree, old(root.d).tree, plan)
              else Restored(root.d.tree, old(root.d).tree)
  {
    NoTerminalOf(root.s, root.d, plan, job.id);
    PlannedInstalls(job, root.d.tree);
    NothingActive(root.s, root.d, plan);
    hide *;
    ghost var room := RoomFor(root.s, root.d, plan, job.id);
    ghost var all := AllVerified(files, job.Wanted(root.d.tree), job.settings);
    ghost var tree, healthy := root.d.tree, root.Healthy();
    Present(job, plan, files, root);
    ghost var ready, staged := AllReady(root.s, root.d, plan), AllStaged(root.d, plan);
    assert room ==> if all then ready else !staged;
    ok := ExecuteApplyPlan(plan, root, job.id);
    assert healthy ==> root.d.active.None?;
    assert healthy && room && !staged ==> Restored(root.d.tree, tree);
    assert healthy && room && ready ==> Published(root.d, job.id) && InstalledOver(root.d.tree, tree, plan);
  }

  lemma NothingActive(s: Setting, d: Durable, plan: Plan)
    requires d.active.None?
    ensures forall e: Durable :: e == d.(store := e.store) ==> ForActiveDirectory(s, e, plan)
  {
  }

  lemma PlannedInstalls(job: Job, tree: Tree)
    ensures job.Planned(tree).intent == Install
  {
  }
}
