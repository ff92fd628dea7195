/**
  Downloading every planned file into the staging directory
  (src/DownloadExecutor.cpp, executeDownloads).
*/
module Downloads {
  import opened Wrappers
  import opened Decimal
  import opened Plans
  import opened UrlPolicies
  import opened Networking
  import opened DownloadResume

  datatype Download = Download(url: string, path: string, sha256: string, size: nat, resumeKey: string)

  /**
    The hash is a parameter: contents are compared with the digest the manifest
    declares.  So is `fold`, the file system's own way of telling the characters
    of a name apart: the identity where case matters, an upper-case table where
    names are opened without case (src/default/RootedFileSystemWindows.cpp).
  */
  datatype Settings = Settings(
    limits: Limits, maxRetries: int, maxRedirects: nat, enableResume: bool, policy: Policy,
    hash: seq<byte> -> string, fold: char -> char)
  {
    /** The file a path stands for: paths of one name are one file. */
    function Name(path: string): (name: string)
      ensures |name| == |path| && forall i :: 0 <= i < |path| ==> name[i] == fold(path[i])
    {
      seq(|path|, i requires 0 <= i < |path| => fold(path[i]))
    }

    function TemporaryName(path: string): (name: string)
      ensures |name| > |path|
    {
      Name(Temporary(path))
    }
  }

  /** The files of the staging directory, by name. */
  type Files = map<string, seq<byte>>

  function Temporary(path: string): string { path + ".download" }

  predicate Verified(files: Files, d: Download, s: Settings) {
    var name := s.Name(d.path);
    name in files && |files[name]| == d.size && s.hash(files[name]) == d.sha256
  }

  /** The temporary of a path is the temporary of its name, up to how the suffix is told apart. */
  lemma TemporaryOfName(path: string, s: Settings)
    ensures s.TemporaryName(path) == s.Name(path) + s.Name(".download")
  {
    assert forall i :: 0 <= i < |".download"| ==> Temporary(path)[|path| + i] == ".download"[i];
  }

  // ---------- budgets ----------

  function TotalSize(downloads: seq<Download>): nat {
    if |downloads| == 0 then 0 else TotalSize(downloads[..|downloads| - 1]) + downloads[|downloads| - 1].size
  }

  predicate WithinBudget(downloads: seq<Download>, limits: Limits) {
    && (forall i :: 0 <= i < |downloads| ==> downloads[i].size <= limits.maxArtifactBytes)
    && TotalSize(downloads) <= limits.maxTotalArtifactBytes
  }

  lemma {:induction false} TotalSizeMonotone(downloads: seq<Download>, k: nat)
    requires k <= |downloads|
    ensures TotalSize(downloads[..k]) <= TotalSize(downloads)
  {
    if k == |downloads| {
      assert downloads[..k] == downloads;
    } else {
      TotalSizeMonotone(downloads[..|downloads| - 1], k);
      assert downloads[..|downloads| - 1][..k] == downloads[..k];
    }
  }

  /** The budget loop, with its 64-bit overflow check: the exact sum, or a refusal. */
  method CheckBudgets(downloads: seq<Download>, limits: Limits) returns (total: Option<nat>)
    ensures total == if WithinBudget(downloads, limits) then Some(TotalSize(downloads)) else None
    ensures total.Some? ==> total.value <= limits.maxTotalArtifactBytes
  {
    var sum: nat := 0;
    var i := 0;
    while i < |downloads|
      invariant 0 <= i <= |downloads| && sum == TotalSize(downloads[..i]) <= limits.maxTotalArtifactBytes
      invariant forall j :: 0 <= j < i ==> downloads[j].size <= limits.maxArtifactBytes
    {
      assert downloads[..i + 1][..i] == downloads[..i];
      TotalSizeMonotone(downloads, i + 1);
      var size := downloads[i].size;
      if size > limits.maxArtifactBytes || size > UINT64_LIMIT - 1 - sum || sum + size > limits.maxTotalArtifactBytes {
        return None;
      }
      sum := sum + size;
      i := i + 1;
    }
    assert downloads[..i] == downloads;
    total := Some(sum);
  }

  // ---------- the staging directory ----------

  /**
    The staging directory by the names of its files.  Where it is faulty any
    operation may fail: a directory in the place of a file, cancellation and a
    file of somebody else are such failures too.
  */
  class Staging {
    const faulty: bool
    var files: Files

    constructor (files: Files, faulty: bool)
      ensures this.files == files && this.faulty == faulty
    {
      this.files, this.faulty := files, faulty;
    }

    /** Opening, reading, closing, and looking at the cancellation token. */
    method Probe() returns (ok: bool)
      ensures !faulty ==> ok
    {
      ok := *;
      ok := ok || !faulty;
    }

    method Keep(name: string, bytes: seq<byte>)
      modifies this`files
      ensures files == old(files)[name := bytes]
    {
      files := files[name := bytes];
    }

    method Remove(name: string) returns (ok: bool)
      modifies this`files
      ensures files == old(files) || files == old(files) - {name}
      ensures !faulty ==> ok
    {
      ok := Probe();
      var removed: bool := *;
      if ok || removed { files := files - {name}; }
    }

    /**
      replaceWithOpenedFile: the contents take the final name and then the
      temporary goes; a failure may come before, between or after the two.
    */
    method Replace(temporary: string, name: string, bytes: seq<byte>) returns (ok: bool)
      modifies this`files
      ensures files in {old(files), old(files)[name := bytes], Moved(old(files), temporary, name, bytes)}
      ensures ok ==> files == Moved(old(files), temporary, name, bytes)
      ensures !faulty ==> ok
    {
      ok := Probe();
      var published: bool := *;
      var removed: bool := *;
      if ok || removed {
        files := Moved(files, temporary, name, bytes);
      } else if published {
        files := files[name := bytes];
      }
    }
  }

  function Moved(files: Files, temporary: string, name: string, bytes: seq<byte>): Files {
    (files - {temporary})[name := bytes]
  }

  function At(files: Files, name: string): Option<seq<byte>> {
    if name in files then Some(files[name]) else None
  }

  /** Only the two names of one download changed, and its final one at most to verified contents. */
  ghost predicate OnlyDownload(before: Files, after: Files, d: Download, s: Settings) {
    && (forall q :: q != s.Name(d.path) && q != s.TemporaryName(d.path) ==> At(after, q) == At(before, q))
    && (Verified(after, d, s) || At(after, s.Name(d.path)) == At(before, s.Name(d.path)))
  }

  // ---------- which files are left at the end ----------

  /** Downloads of one name ask for the same contents. */
  predicate PathsAgree(downloads: seq<Download>, s: Settings) {
    forall i, j :: 0 <= i < j < |downloads| && s.Name(downloads[i].path) == s.Name(downloads[j].path) ==>
      downloads[i].sha256 == downloads[j].sha256 && downloads[i].size == downloads[j].size
  }

  /** Nothing is named like the temporary of a later download. */
  predicate NamesAgree(downloads: seq<Download>, s: Settings) {
    && PathsAgree(downloads, s)
    && forall i, j :: 0 <= i < j < |downloads| ==> s.Name(downloads[i].path) != s.TemporaryName(downloads[j].path)
  }

  /**
    Whether `d` is staged after the first `n` downloads: the last of them to
    touch its name either put it there, or, not being staged itself, used the
    name for its temporary.
  */
  predicate StagedAfter(files: Files, downloads: seq<Download>, n: nat, d: Download, s: Settings)
    requires n <= |downloads|
  {
    if n == 0 then Verified(files, d, s)
    else if s.Name(downloads[n - 1].path) == s.Name(d.path) then true
    else
      && StagedAfter(files, downloads, n - 1, d, s)
      && (s.TemporaryName(downloads[n - 1].path) == s.Name(d.path) ==>
            StagedAfter(files, downloads, n - 1, downloads[n - 1], s))
  }

  /** When its turn comes, download `j` finds its file there and leaves everything alone. */
  predicate StagedAtTurn(files: Files, downloads: seq<Download>, j: nat, s: Settings)
    requires j < |downloads|
  {
    StagedAfter(files, downloads, j, downloads[j], s)
  }

  /** Later downloads whose temporary is the name of an earlier file find their own file there. */
  predicate NothingLost(files: Files, downloads: seq<Download>, s: Settings) {
    forall i, j :: 0 <= i < j < |downloads| && LastOfPath(downloads, i, s) ==>
      s.Name(downloads[i].path) == s.TemporaryName(downloads[j].path) ==> StagedAtTurn(files, downloads, j, s)
  }

  predicate LastOfPath(downloads: seq<Download>, i: nat, s: Settings)
    requires i < |downloads|
  {
    forall k :: i < k < |downloads| ==> s.Name(downloads[k].path) != s.Name(downloads[i].path)
  }

  /** From the last download of its path on, a file is lost exactly to those that are not staged at their turn. */
  lemma {:induction false} StagedUntil(
    files: Files, downloads: seq<Download>, n: nat, i: nat, s: Settings)
    requires i < n <= |downloads| && LastOfPath(downloads, i, s)
    ensures StagedAfter(files, downloads, n, downloads[i], s) <==>
              forall j :: i < j < n && s.Name(downloads[i].path) == s.TemporaryName(downloads[j].path) ==>
                StagedAtTurn(files, downloads, j, s)
  {
    if n - 1 > i { StagedUntil(files, downloads, n - 1, i, s); }
  }

  lemma {:induction false} LastWithPath(downloads: seq<Download>, m: nat, n: nat, s: Settings) returns (i: nat)
    requires m < n <= |downloads|
    requires forall k :: n <= k < |downloads| ==> s.Name(downloads[k].path) != s.Name(downloads[m].path)
    ensures i < |downloads| && s.Name(downloads[i].path) == s.Name(downloads[m].path) && LastOfPath(downloads, i, s)
    decreases n
  {
    if s.Name(downloads[n - 1].path) == s.Name(downloads[m].path) {
      i := n - 1;
    } else {
      i := LastWithPath(downloads, m, n - 1, s);
    }
  }

  lemma SamePathSameFate(
    files: Files, downloads: seq<Download>, n: nat, a: Download, b: Download, s: Settings)
    requires n <= |downloads| && s.Name(a.path) == s.Name(b.path) && a.sha256 == b.sha256 && a.size == b.size
    ensures StagedAfter(files, downloads, n, a, s) == StagedAfter(files, downloads, n, b, s)
  {
    if n > 0 { SamePathSameFate(files, downloads, n - 1, a, b, s); }
  }

  /** All files are staged at the end exactly when nothing is lost. */
  lemma AllStagedMeansNothingLost(files: Files, downloads: seq<Download>, s: Settings)
    requires PathsAgree(downloads, s)
    ensures (forall m :: 0 <= m < |downloads| ==> StagedAfter(files, downloads, |downloads|, downloads[m], s))
            <==> NothingLost(files, downloads, s)
  {
    hide StagedAfter, Verified;
    var n := |downloads|;
    forall i: nat | i < n && LastOfPath(downloads, i, s)
      ensures StagedAfter(files, downloads, n, downloads[i], s) <==>
                forall j :: i < j < n && s.Name(downloads[i].path) == s.TemporaryName(downloads[j].path) ==>
                  StagedAtTurn(files, downloads, j, s)
    {
      StagedUntil(files, downloads, n, i, s);
    }
    if NothingLost(files, downloads, s) {
      forall m: nat | m < n ensures StagedAfter(files, downloads, n, downloads[m], s) {
        var i := LastWithPath(downloads, m, n, s);
        SamePathSameFate(files, downloads, n, downloads[m], downloads[i], s);
      }
    }
  }

  /** What one finished download does to every other file of the list. */
  lemma StagedStep(
    files: Files, downloads: seq<Download>, n: nat, m: nat, before: Files, after: Files, s: Settings)
    requires PathsAgree(downloads, s) && n < |downloads| && m < |downloads|
    requires OnlyDownload(before, after, downloads[n], s) && Verified(after, downloads[n], s)
    requires if Verified(before, downloads[n], s) then after == before
             else s.TemporaryName(downloads[n].path) !in after
    requires forall k :: 0 <= k < |downloads| ==>
               (Verified(before, downloads[k], s) <==> StagedAfter(files, downloads, n, downloads[k], s))
    ensures Verified(after, downloads[m], s) <==> StagedAfter(files, downloads, n + 1, downloads[m], s)
  {
    var d, e := downloads[m], downloads[n];
    if s.Name(d.path) == s.Name(e.path) {
      assert d.sha256 == e.sha256 && d.size == e.size by { if n != m { assert PathsAgree(downloads, s); } }
    } else if s.Name(d.path) != s.TemporaryName(e.path) {
      assert At(after, s.Name(d.path)) == At(before, s.Name(d.path));
    }
  }

  /** Nobody's names clash: nothing can be lost. */
  lemma AgreeingNamesLoseNothing(files: Files, downloads: seq<Download>, s: Settings)
    requires NamesAgree(downloads, s)
    ensures PathsAgree(downloads, s) && NothingLost(files, downloads, s)
  {
    hide StagedAtTurn;
  }

  /** Contents that satisfy two downloads of one path: the two ask for the same. */
  lemma AllVerifiedAgree(files: Files, downloads: seq<Download>, s: Settings)
    requires forall i :: 0 <= i < |downloads| ==> Verified(files, downloads[i], s)
    ensures PathsAgree(downloads, s)
  {
  }

  lemma OnlyDownloadTransitive(a: Files, b: Files, c: Files, d: Download, s: Settings)
    requires OnlyDownload(a, b, d, s) && OnlyDownload(b, c, d, s)
    ensures OnlyDownload(a, c, d, s)
  {
  }

  // ---------- progress ----------

  predicate AllAtMost(reports: seq<nat>, total: nat) { forall i :: 0 <= i < |reports| ==> reports[i] <= total }

  /** The aggregated reports of one transfer, whatever the adapter reports. */
  method Aggregate(currents: seq<nat>, completedBefore: nat, size: nat, total: nat) returns (reports: seq<nat>)
    requires completedBefore <= total < UINT64_LIMIT
    ensures |reports| == |currents| && AllAtMost(reports, total)
    ensures forall i :: 0 <= i < |reports| ==> completedBefore <= reports[i]
  {
    reports := [];
    var i := 0;
    while i < |currents|
      invariant 0 <= i <= |currents| && |reports| == i && AllAtMost(reports, total)
      invariant forall j :: 0 <= j < i ==> completedBefore <= reports[j]
    {
      var fileBytes := if currents[i] < size then currents[i] else size;
      var sum := if fileBytes > UINT64_LIMIT - 1 - completedBefore then total else completedBefore + fileBytes;
      reports := reports + [if sum < total then sum else total];
      i := i + 1;
    }
  }

  // ---------- an honest server ----------

  /** The exchange brings the whole file, with the declared contents. */
  predicate Serves(e: Exchange, url: Url, d: Download, s: Settings) {
    && AnswersInFull(e, url, s.policy, d.size)
    && |Body(e.chunks)| == d.size && s.hash(Body(e.chunks)) == d.sha256
  }

  /** Whenever it is asked for, the download's own URL gives the declared file. */
  ghost predicate Served(d: Download, s: Settings, network: Adapter) {
    && s.policy.Authorize(d.url).Some?
    && forall n: nat :: Serves(network.exchange(n, s.policy.Authorize(d.url).value), s.policy.Authorize(d.url).value,
                               d, s)
  }

  /** There is no partial file that a download could be misled to resume. */
  predicate FromScratch(files: Files, d: Download, s: Settings) {
    s.enableResume ==> s.TemporaryName(d.path) !in files
  }

  ghost predicate AllServed(downloads: seq<Download>, s: Settings, network: Adapter) {
    forall i :: 0 <= i < |downloads| ==> Served(downloads[i], s, network)
  }

  /** No temporary is there, and none gets the name of a file staged before it. */
  predicate NothingToResume(files: Files, downloads: seq<Download>, s: Settings) {
    s.enableResume ==>
      && (forall j :: 0 <= j < |downloads| ==> s.TemporaryName(downloads[j].path) !in files)
      && (forall i, j :: 0 <= i < j < |downloads| ==> s.Name(downloads[i].path) != s.TemporaryName(downloads[j].path))
  }

  lemma StillFromScratch(
    files: Files, downloads: seq<Download>, n: nat, before: Files, after: Files, s: Settings)
    requires NothingToResume(files, downloads, s) && n < |downloads|
    requires OnlyDownload(before, after, downloads[n], s)
    requires after == before || s.TemporaryName(downloads[n].path) !in after
    requires forall j :: n <= j < |downloads| ==> FromScratch(before, downloads[j], s)
    ensures forall j :: n < j < |downloads| ==> FromScratch(after, downloads[j], s)
  {
    forall j | n < j < |downloads| ensures FromScratch(after, downloads[j], s) {
      assert FromScratch(before, downloads[j], s);
      var name := s.TemporaryName(downloads[j].path);
      if s.enableResume && name != s.TemporaryName(downloads[n].path) { assert At(after, name) == At(before, name); }
    }
  }

  // ---------- one download ----------

  datatype Attempted = Done | Retry | Fatal

  /** Removing the temporary and forgetting its resume record. */
  method Discard(d: Download, staging: Staging, coordinator: Coordinator, s: Settings) returns (ok: bool)
    requires coordinator.Valid()
    modifies staging, coordinator
    ensures coordinator.Valid() && coordinator.keys == old(coordinator.keys)
    ensures coordinator.direct == old(coordinator.direct) - {d.resumeKey}
    ensures forall k :: k != d.resumeKey ==> (k in coordinator.clears <==> k in old(coordinator.clears))
    ensures OnlyDownload(old(staging.files), staging.files, d, s)
    ensures !staging.faulty ==> ok
  {
    ok := staging.Remove(s.TemporaryName(d.path));
    coordinator.Clear(d.resumeKey);
  }

  /** The temporary as an open file: emptied when it is too long, or when there is nothing to resume. */
  method OpenTemporary(d: Download, s: Settings, staging: Staging, coordinator: Coordinator)
    returns (file: Option<RootedFile>, resume: Option<nat>)
    requires coordinator.Valid()
    modifies staging, coordinator
    ensures coordinator.Valid() && coordinator.keys == old(coordinator.keys)
    ensures coordinator.direct in {old(coordinator.direct), old(coordinator.direct) - {d.resumeKey}}
    ensures forall k :: k != d.resumeKey ==> (k in coordinator.clears <==> k in old(coordinator.clears))
    ensures OnlyDownload(old(staging.files), staging.files, d, s)
    ensures file.Some? ==> fresh(file.value) && file.value.AtEnd() && |file.value.bytes| <= d.size
    ensures file.Some? ==> resume == if s.enableResume && file.value.bytes != [] then Some(|file.value.bytes|) else None
    ensures file.Some? && resume.None? ==> file.value.bytes == []
    ensures file.Some? && FromScratch(old(staging.files), d, s) ==> resume.None?
    ensures file.Some? ==> file.value.faulty == staging.faulty
    ensures !staging.faulty ==> file.Some?
  {
    file, resume := None, None;
    var temporary := s.TemporaryName(d.path);
    var ok := staging.Probe();
    if !ok { return; }
    var bytes := if temporary in staging.files then staging.files[temporary] else [];
    if |bytes| > d.size {
      var removed := Discard(d, staging, coordinator, s);
      if !removed { return; }
      bytes := [];
    }
    ok := staging.Probe();
    if !ok { return; }
    if s.enableResume && bytes != [] {
      resume := Some(|bytes|);
    } else {
      bytes := [];
    }
    var opened' := new RootedFile(bytes, staging.faulty);
    file := Some(opened');
  }

  /** What is left of a failed transfer: nothing after a limit failure, else a partial file worth resuming. */
  method AfterFailure(
    d: Download, error: DownloadError, bytes: seq<byte>, s: Settings, staging: Staging,
    coordinator: Coordinator)
    returns (r: Attempted)
    requires coordinator.Valid()
    modifies staging, coordinator
    ensures coordinator.Valid() && coordinator.keys == old(coordinator.keys) && r != Done
    ensures forall k :: k != d.resumeKey ==> Find(coordinator.direct, k) == Find(old(coordinator.direct), k)
    ensures forall k :: k != d.resumeKey ==> (k in coordinator.clears <==> k in old(coordinator.clears))
    ensures OnlyDownload(old(staging.files), staging.files, d, s)
  {
    ghost var before := staging.files;
    staging.Keep(s.TemporaryName(d.path), bytes);
    ghost var kept := staging.files;
    assert OnlyDownload(before, kept, d, s);
    var ok := staging.Probe();
    if !ok { return Fatal; }
    var declaredTooLong: bool := *;
    if error in {LimitExceeded, HeadersTooLarge} || (error == BodyBudget && declaredTooLong) {
      var removed := Discard(d, staging, coordinator, s);
      OnlyDownloadTransitive(before, kept, staging.files, d, s);
      return Fatal;
    }
    if s.enableResume && bytes != [] {
      coordinator.Save(ResumeState(d.resumeKey, |bytes|, "", "", d.sha256));
    }
    ok := staging.Probe();
    r := if ok then Retry else Fatal;
  }

  /** A completed transfer: verified and published, or discarded. */
  method AfterTransfer(
    d: Download, bytes: seq<byte>, s: Settings, staging: Staging, coordinator: Coordinator) returns (r: Attempted)
    requires coordinator.Valid()
    modifies staging, coordinator
    ensures coordinator.Valid() && coordinator.keys == old(coordinator.keys)
    ensures forall k :: k != d.resumeKey ==> Find(coordinator.direct, k) == Find(old(coordinator.direct), k)
    ensures forall k :: k != d.resumeKey ==> (k in coordinator.clears <==> k in old(coordinator.clears))
    ensures OnlyDownload(old(staging.files), staging.files, d, s)
    ensures r == Done ==> Verified(staging.files, d, s) && s.TemporaryName(d.path) !in staging.files
    ensures r == Done ==> d.resumeKey !in coordinator.direct && d.resumeKey in coordinator.clears
    ensures !staging.faulty && |bytes| == d.size && s.hash(bytes) == d.sha256 ==> r == Done
  {
    ghost var before := staging.files;
    staging.Keep(s.TemporaryName(d.path), bytes);
    ghost var kept := staging.files;
    assert OnlyDownload(before, kept, d, s);
    var ok := staging.Probe();
    if !ok { return Fatal; }
    if |bytes| != d.size || s.hash(bytes) != d.sha256 {
      var removed := Discard(d, staging, coordinator, s);
      OnlyDownloadTransitive(before, kept, staging.files, d, s);
      ok := staging.Probe();
      return if removed && ok then Retry else Fatal;
    }
    ok := PublishVerified(d, bytes, s, staging);
    OnlyDownloadTransitive(before, kept, staging.files, d, s);
    if !ok {
      ghost var published := staging.files;
      var removed := Discard(d, staging, coordinator, s);
      OnlyDownloadTransitive(before, published, staging.files, d, s);
      return Fatal;
    }
    ok := staging.Probe();
    if !ok { return Fatal; }
    coordinator.Clear(d.resumeKey);
    r := Done;
  }

  /** Publishing, and once more if a failure was reported although the verified bytes are visible. */
  method PublishVerified(d: Download, bytes: seq<byte>, s: Settings, staging: Staging) returns (ok: bool)
    requires |bytes| == d.size && s.hash(bytes) == d.sha256
    modifies staging
    ensures OnlyDownload(old(staging.files), staging.files, d, s)
    ensures ok ==> Verified(staging.files, d, s) && s.TemporaryName(d.path) !in staging.files
    ensures !staging.faulty ==> ok
  {
    ok := staging.Replace(s.TemporaryName(d.path), s.Name(d.path), bytes);
    if ok { return; }
    ok := staging.Probe();
    if !ok || !Verified(staging.files, d, s) { return false; }
    ok := staging.Replace(s.TemporaryName(d.path), s.Name(d.path), bytes);
  }

  /** One attempt: open, transfer, and settle what came of it. */
  method Try(
    d: Download, s: Settings, staging: Staging, coordinator: Coordinator, network: Adapter, completedBefore: nat,
    total: nat)
    returns (r: Attempted, reports: seq<nat>)
    requires coordinator.Valid() && (s.enableResume ==> d.resumeKey in coordinator.keys)
    requires completedBefore <= total < UINT64_LIMIT
    modifies staging, coordinator, network
    ensures coordinator.Valid() && coordinator.keys == old(coordinator.keys)
    ensures forall k :: k != d.resumeKey ==> Find(coordinator.direct, k) == Find(old(coordinator.direct), k)
    ensures forall k :: k != d.resumeKey ==> (k in coordinator.clears <==> k in old(coordinator.clears))
    ensures OnlyDownload(old(staging.files), staging.files, d, s)
    ensures r == Done ==> Verified(staging.files, d, s) && s.TemporaryName(d.path) !in staging.files
    ensures r == Done ==> d.resumeKey !in coordinator.direct && d.resumeKey in coordinator.clears
    ensures AllAtMost(reports, total) && |network.sent| <= |old(network.sent)| + s.maxRedirects + 2
    ensures !staging.faulty && FromScratch(old(staging.files), d, s) && Served(d, s, network) ==> r == Done
  {
    hide OnlyDownload, Verified, Coordinator.Valid, AnswersInFull, FromScratch;
    reports := [];
    ghost var before := staging.files;
    ghost var asked := |network.sent|;
    if Served(d, s, network) {
      assert Serves(network.exchange(asked, s.policy.Authorize(d.url).value), s.policy.Authorize(d.url).value, d, s);
    }
    var file, resume := OpenTemporary(d, s, staging, coordinator);
    ghost var ready := staging.files;
    if file.None? { return Fatal, reports; }
    if resume.Some? { var record := coordinator.Load(d.resumeKey); }
    var outcome, kept, found, hops := DownloadWithRedirects(
      d.url, file.value, s.maxRedirects, d.size, s.policy, network, resume);
    var currents: seq<nat> := *;
    reports := Aggregate(currents, completedBefore, d.size, total);
    ghost var url := s.policy.Authorize(d.url);
    if !staging.faulty && resume.None? && Served(d, s, network) {
      assert outcome == Outcome.Success(url.value, 200);
      assert file.value.bytes == Body(network.exchange(asked, url.value).chunks);
    }
    if outcome.Failure? {
      r := AfterFailure(d, outcome.error, file.value.bytes, s, staging, coordinator);
    } else {
      r := AfterTransfer(d, file.value.bytes, s, staging, coordinator);
    }
    OnlyDownloadTransitive(before, ready, staging.files, d, s);
  }

  /** Skips a file that is already staged and verified; otherwise tries, and tries again. */
  method DownloadFile(
    d: Download, s: Settings, staging: Staging, coordinator: Coordinator, network: Adapter, completedBefore: nat,
    total: nat)
    returns (ok: bool, reports: seq<nat>)
    requires coordinator.Valid() && (s.enableResume ==> d.resumeKey in coordinator.keys)
    requires completedBefore <= total < UINT64_LIMIT
    modifies staging, coordinator, network
    ensures coordinator.Valid() && coordinator.keys == old(coordinator.keys)
    ensures forall k :: k != d.resumeKey ==> Find(coordinator.direct, k) == Find(old(coordinator.direct), k)
    ensures forall k :: k != d.resumeKey ==> (k in coordinator.clears <==> k in old(coordinator.clears))
    ensures OnlyDownload(old(staging.files), staging.files, d, s)
    ensures ok ==> Verified(staging.files, d, s)
    ensures ok ==> d.resumeKey !in coordinator.direct && d.resumeKey in coordinator.clears
    // the temporary is consumed, whatever else that name stood for, unless the file was staged already
    ensures ok ==> if Verified(old(staging.files), d, s) then staging.files == old(staging.files)
                   else s.TemporaryName(d.path) !in staging.files
    ensures !staging.faulty && FromScratch(old(staging.files), d, s) && Served(d, s, network) && s.maxRetries >= 0 ==>
              ok
    ensures AllAtMost(reports, total)
    ensures |network.sent|
            <= |old(network.sent)| + (if s.maxRetries < 0 then 0 else (s.maxRetries + 1) * (s.maxRedirects + 2))
  {
    hide OnlyDownload, Verified, Coordinator.Valid, FromScratch, Serves;
    reports := [];
    ghost var before := staging.files;
    ghost var sure := !staging.faulty && FromScratch(before, d, s) && Served(d, s, network);
    NothingDownloaded(before, d, s);
    ok := staging.Probe();
    if !ok { return; }
    if Verified(staging.files, d, s) {
      coordinator.Clear(d.resumeKey);
      return true, reports;
    }
    if s.policy.Authorize(d.url).None? { return false, reports; }
    var attempt := 0;
    while attempt <= s.maxRetries
      invariant coordinator.Valid() && coordinator.keys == old(coordinator.keys)
      invariant forall k :: k != d.resumeKey ==> Find(coordinator.direct, k) == Find(old(coordinator.direct), k)
      invariant forall k :: k != d.resumeKey ==> (k in coordinator.clears <==> k in old(coordinator.clears))
      invariant OnlyDownload(before, staging.files, d, s) && AllAtMost(reports, total)
      invariant 0 <= attempt <= (if s.maxRetries < 0 then 0 else s.maxRetries + 1)
      invariant |network.sent| <= |old(network.sent)| + attempt * (s.maxRedirects + 2)
      invariant sure ==> attempt == 0 && staging.files == before
    {
      MoreAttempts(attempt, s.maxRetries, s.maxRedirects + 2);
      ok := staging.Probe();
      if !ok { return; }
      ghost var current := staging.files;
      var r, more := Try(d, s, staging, coordinator, network, completedBefore, total);
      OnlyDownloadTransitive(before, current, staging.files, d, s);
      reports := reports + more;
      if r == Done { return true, reports; }
      if r == Fatal { return false, reports; }
      attempt := attempt + 1;
    }
    ok := false;
  }

  lemma MoreAttempts(attempt: nat, maxRetries: int, each: nat)
    requires attempt <= maxRetries
    ensures attempt * each + each == (attempt + 1) * each <= (maxRetries + 1) * each
  {
  }

  lemma NothingDownloaded(files: Files, d: Download, s: Settings)
    ensures OnlyDownload(files, files, d, s)
  {
  }

  lemma NextTotal(downloads: seq<Download>, i: nat)
    requires i < |downloads|
    ensures TotalSize(downloads[..i + 1]) == TotalSize(downloads[..i]) + downloads[i].size <= TotalSize(downloads)
  {
    assert downloads[..i + 1][..i] == downloads[..i];
    TotalSizeMonotone(downloads, i + 1);
  }

  lemma NoTotal(downloads: seq<Download>)
    ensures TotalSize(downloads[..0]) == 0
  {
  }

  function ResumeKeys(downloads: seq<Download>): (keys: seq<string>)
    ensures |keys| == |downloads| && forall i :: 0 <= i < |keys| ==> keys[i] == downloads[i].resumeKey
  {
    seq(|downloads|, i requires 0 <= i < |downloads| => downloads[i].resumeKey)
  }

  /**
    Progress ends at the exact total and never exceeds it, and no resume record
    is left.  After success every planned file is in staging with its declared
    size and digest exactly when downloads of one path ask for the same
    contents and nothing is lost to a later temporary of its name; names that
    do not clash are enough.
  */
  method ExecuteDownloads(
    downloads: seq<Download>, s: Settings, staging: Staging, store: BatchStore, scope: Scope, network: Adapter)
    returns (ok: bool, reports: seq<nat>)
    requires store.Valid()
    modifies staging, store, network
    ensures store.Valid()
    ensures ok ==> WithinBudget(downloads, s.limits)
    ensures ok ==>
              ((forall i :: 0 <= i < |downloads| ==> Verified(staging.files, downloads[i], s)) <==>
               PathsAgree(downloads, s) && NothingLost(old(staging.files), downloads, s))
    ensures ok && PathsAgree(downloads, s) ==> forall i :: 0 <= i < |downloads| ==>
              (Verified(staging.files, downloads[i], s)
               <==> StagedAfter(old(staging.files), downloads, |downloads|, downloads[i], s))
    ensures ok && NamesAgree(downloads, s) ==>
              forall i :: 0 <= i < |downloads| ==> Verified(staging.files, downloads[i], s)
    ensures ok ==> forall i :: 0 <= i < |downloads| ==> Visible(store.entries, scope, downloads[i].resumeKey).None?
    ensures AllAtMost(reports, TotalSize(downloads))
    ensures ok && downloads != [] ==> reports != [] && reports[|reports| - 1] == TotalSize(downloads)
    // without faults, and with a server that has the files, it succeeds
    ensures !staging.faulty && !store.faulty && s.maxRetries >= 0 && WithinBudget(downloads, s.limits) ==>
              AllServed(downloads, s, network) && NothingToResume(old(staging.files), downloads, s) ==> ok
  {
    hide Verified, WithinBudget, PathsAgree, NothingLost, NamesAgree, StagedAfter, AllServed, NothingToResume;
    ok, reports := false, [];
    ghost var files := staging.files;
    var total := CheckBudgets(downloads, s.limits);
    if total.None? { return; }
    var coordinator := new Coordinator(store, scope);
    ok := coordinator.Initialize(if s.enableResume then ResumeKeys(downloads) else []);
    if !ok { return; }
    ok, reports := DownloadAll(downloads, s, staging, coordinator, network, total.value);
    assert coordinator.Valid();
    var flushed := coordinator.Flush();
    ok := ok && flushed;
    if ok && PathsAgree(downloads, s) { AllStagedMeansNothingLost(files, downloads, s); }
    if forall i :: 0 <= i < |downloads| ==> Verified(staging.files, downloads[i], s) {
      AllVerifiedAgree(staging.files, downloads, s);
    }
    if NamesAgree(downloads, s) { AgreeingNamesLoseNothing(files, downloads, s); }
  }

  /** The loop over the files, with the bytes completed before each. */
  method DownloadAll(
    downloads: seq<Download>, s: Settings, staging: Staging, coordinator: Coordinator, network: Adapter, total: nat)
    returns (ok: bool, reports: seq<nat>)
    requires coordinator.Valid() && total == TotalSize(downloads) < UINT64_LIMIT
    requires s.enableResume ==> forall i :: 0 <= i < |downloads| ==> downloads[i].resumeKey in coordinator.keys
    modifies staging, coordinator, network
    ensures coordinator.Valid() && coordinator.keys == old(coordinator.keys)
    ensures ok ==> forall i :: 0 <= i < |downloads| ==> downloads[i].resumeKey in coordinator.clears
    ensures ok && PathsAgree(downloads, s) ==> forall m :: 0 <= m < |downloads| ==>
              (Verified(staging.files, downloads[m], s)
               <==> StagedAfter(old(staging.files), downloads, |downloads|, downloads[m], s))
    ensures AllAtMost(reports, total)
    ensures ok && downloads != [] ==> reports != [] && reports[|reports| - 1] == total
    ensures !staging.faulty && s.maxRetries >= 0 ==>
              AllServed(downloads, s, network) && NothingToResume(old(staging.files), downloads, s) ==> ok
  {
    hide OnlyDownload, Verified, Coordinator.Valid, PathsAgree, TotalSize, StagedAfter, Served, NothingToResume;
    ghost var files := staging.files;
    ghost var sure := !staging.faulty && s.maxRetries >= 0 && AllServed(downloads, s, network)
                      && NothingToResume(files, downloads, s);
    NothingThere(files, downloads, s);
    hide FromScratch;
    var completed := 0;
    var i := 0;
    ok, reports := true, [];
    NoTotal(downloads);
    NothingStepped(files, downloads, s);
    while i < |downloads| && ok
      invariant 0 <= i <= |downloads| && coordinator.Valid() && coordinator.keys == old(coordinator.keys)
      invariant ok ==> completed == TotalSize(downloads[..i]) <= total
      invariant ok && PathsAgree(downloads, s) ==> forall m :: 0 <= m < |downloads| ==>
                  (Verified(staging.files, downloads[m], s)
                   <==> StagedAfter(files, downloads, i, downloads[m], s))
      invariant ok ==> forall j :: 0 <= j < i ==> downloads[j].resumeKey in coordinator.clears
      invariant AllAtMost(reports, total)
      invariant ok && i > 0 ==> reports != [] && reports[|reports| - 1] == completed
      invariant sure ==> ok && forall j :: i <= j < |downloads| ==> FromScratch(staging.files, downloads[j], s)
      decreases |downloads| - i, if ok then 1 else 0
    {
      NextTotal(downloads, i);
      ghost var before := staging.files;
      var more;
      ok, more := DownloadFile(downloads[i], s, staging, coordinator, network, completed, total);
      reports := reports + more;
      if ok {
        if sure { StillFromScratch(files, downloads, i, before, staging.files, s); }
        if PathsAgree(downloads, s) {
          forall m: nat | m < |downloads|
            ensures Verified(staging.files, downloads[m], s) <==>
                      StagedAfter(files, downloads, i + 1, downloads[m], s)
          {
            StagedStep(files, downloads, i, m, before, staging.files, s);
          }
        }
        completed := completed + downloads[i].size;
        reports := reports + [completed];
        i := i + 1;
      }
    }
    assert downloads[..|downloads|] == downloads;
  }

  lemma NothingThere(files: Files, downloads: seq<Download>, s: Settings)
    ensures NothingToResume(files, downloads, s) ==>
              forall j :: 0 <= j < |downloads| ==> FromScratch(files, downloads[j], s)
  {
  }

  lemma NothingStepped(files: Files, downloads: seq<Download>, s: Settings)
    ensures forall m :: 0 <= m < |downloads| ==>
              (Verified(files, downloads[m], s) <==> StagedAfter(files, downloads, 0, downloads[m], s))
  {
  }

  // ---------- a file that is lost ----------

  /**
    A run that loses a file, from an empty staging directory: the first
    download has the name of the second one's temporary.  Where nothing fails
    and the server has both files, it reports success.
  */
  method LoseStagedFile(
    first: Download, second: Download, s: Settings, staging: Staging, store: BatchStore, scope: Scope, network: Adapter)
    returns (ok: bool)
    requires store.Valid() && s.Name(first.path) == s.TemporaryName(second.path) && staging.files == map[]
    modifies staging, store, network
    ensures ok ==> !Verified(staging.files, first, s) && Verified(staging.files, second, s)
    ensures !staging.faulty && !store.faulty && s.maxRetries >= 0 && !s.enableResume ==>
              WithinBudget([first, second], s.limits) && Served(first, s, network) && Served(second, s, network) ==> ok
  {
    hide Served, WithinBudget;
    var downloads := [first, second];
    ClashIsLost(map[], first, second, s);
    var reports;
    ok, reports := ExecuteDownloads(downloads, s, staging, store, scope, network);
    assert downloads[0] == first && downloads[1] == second;
  }

  /** Of two downloads that clash in this order the first is lost, unless the second was there before. */
  lemma ClashIsLost(files: Files, first: Download, second: Download, s: Settings)
    requires s.Name(first.path) == s.TemporaryName(second.path)
    ensures var downloads := [first, second];
            && PathsAgree(downloads, s)
            && (StagedAfter(files, downloads, 2, first, s) <==> Verified(files, second, s))
            && StagedAfter(files, downloads, 2, second, s)
            && (NothingLost(files, downloads, s) <==> Verified(files, second, s))
  {
    hide Verified;
    var downloads := [first, second];
    assert downloads[0] == first && downloads[1] == second;
    assert |s.TemporaryName(first.path)| > |s.Name(first.path)| > |s.Name(second.path)|;
    assert StagedAfter(files, downloads, 1, second, s) == StagedAfter(files, downloads, 0, second, s);
    assert StagedAfter(files, downloads, 1, first, s);
    assert StagedAtTurn(files, downloads, 1, s) == Verified(files, second, s);
    assert LastOfPath(downloads, 0, s);
    AllStagedMeansNothingLost(files, downloads, s);
  }

  /** "a.download" and then "a" clash everywhere; "A.download" and then "a" where the file system ignores case. */
  lemma CaseDecides(first: Download, second: Download, s: Settings)
    requires first.path == "A.download" && second.path == "a"
    ensures s.Name("a.download") == s.TemporaryName("a")
    ensures s.Name(first.path) == s.TemporaryName(second.path) <==> s.fold('A') == s.fold('a')
    ensures NothingLost(map[], [first, second], s) <==> s.fold('A') != s.fold('a')
  {
    hide NothingLost;
    assert Temporary("a") == "a.download";
    var name, temporary := s.Name("A.download"), s.TemporaryName("a");
    assert name[0] == s.fold('A') && temporary[0] == s.fold('a');
    assert forall i :: 0 < i < |name| ==> name[i] == temporary[i];
    assert s.fold('A') == s.fold('a') ==> name == temporary;
    if name == temporary {
      ClashIsLost(map[], first, second, s);
    } else {
      NoClashLosesNothing(map[], first, second, s);
    }
  }

  lemma NoClashLosesNothing(files: Files, first: Download, second: Download, s: Settings)
    requires s.Name(first.path) != s.TemporaryName(second.path)
    ensures NothingLost(files, [first, second], s)
  {
    hide StagedAtTurn;
    var downloads := [first, second];
    assert downloads[0] == first && downloads[1] == second;
  }

  /** Such a run to the end, with a server that has both (empty) files: it succeeds, and the first is not staged. */
  method LosingRun() returns (ok: bool, files: Files)
    ensures ok && At(files, "a") == Some([]) && At(files, "a.download") != Some([])
  {
    var url := Url(Https, "host", 443, "/", "https://host/");
    var policy := Policy(false, url, [url], false, _ => Some(url), (_, _) => None);
    var s := Settings(Limits(0, 0, 0), 0, 0, false, policy, _ => "digest", c => c);
    var first := Download("https://host/", "a.download", "digest", 0, "first");
    var second := Download("https://host/", "a", "digest", 0, "second");
    var answer := Exchange([], false, Some(Response(200, [], "https://host/")), false);
    var network := new Adapter((_, _) => answer);
    var staging := new Staging(map[], false);
    var store := new BatchStore(map[], false);
    assert PathMatchesBoundary(url.path, policy.scopes[0].path, false);
    assert policy.Authorize("https://host/") == Some(url);
    assert Body(answer.chunks) == [];
    assert Serves(answer, url, first, s) && Serves(answer, url, second, s);
    assert Served(first, s, network) && Served(second, s, network);
    assert s.Name("a.download") == "a.download" && s.Name("a") == "a" && Temporary("a") == "a.download";
    assert [first, second][..1] == [first];
    assert TotalSize([first, second][..1]) == 0;
    ok := LoseStagedFile(first, second, s, staging, store, Scope("release", 0, 0), network);
    files := staging.files;
  }
}
