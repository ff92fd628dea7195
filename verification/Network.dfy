/**
  Requests that follow redirects by hand and downloads that resume
  (src/NetworkRequest.cpp, src/NetworkLimits.cpp).
*/
module Networking {
  import opened Wrappers
  import opened Decimal
  import opened Topology
  import opened UrlPolicies

  type byte = b: int | 0 <= b < 256

  // ---------- responses ----------

  datatype Header = Header(name: string, value: string)
  datatype Response = Response(status: int, headers: seq<Header>, effectiveUrl: string)

  const MAX_HEADER_BYTES: nat := 65536

  predicate IsRedirect(status: int) { status in {301, 302, 303, 307, 308} }

  function HeaderBytes(headers: seq<Header>): nat {
    if |headers| == 0 then 0
    else HeaderBytes(headers[..|headers| - 1]) + |headers[|headers| - 1].name| + |headers[|headers| - 1].value| + 4
  }

  /** The values of the headers with this name, whatever its case. */
  function Named(headers: seq<Header>, name: string): seq<string> {
    if |headers| == 0 then []
    else
      Named(headers[..|headers| - 1], name)
      + (if SameFolded(headers[|headers| - 1].name, name) then [headers[|headers| - 1].value] else [])
  }

  predicate Blank(c: char) { c == ' ' || c == '\t' }

  function TrimLeft(s: string): string { if s != "" && Blank(s[0]) then TrimLeft(s[1..]) else s }
  function TrimRight(s: string): string { if s != "" && Blank(s[|s| - 1]) then TrimRight(s[..|s| - 1]) else s }
  function Trim(s: string): string { TrimRight(TrimLeft(s)) }

  lemma {:induction false} HeaderBytesMonotone(headers: seq<Header>, k: nat)
    requires k <= |headers|
    ensures HeaderBytes(headers[..k]) <= HeaderBytes(headers)
  {
    if k == |headers| {
      assert headers[..k] == headers;
    } else {
      HeaderBytesMonotone(headers[..|headers| - 1], k);
      assert headers[..|headers| - 1][..k] == headers[..k];
    }
  }

  method ValidateHeadersBudget(headers: seq<Header>) returns (ok: bool)
    ensures ok <==> HeaderBytes(headers) <= MAX_HEADER_BYTES
  {
    var total := 0;
    var i := 0;
    while i < |headers|
      invariant 0 <= i <= |headers| && total == HeaderBytes(headers[..i]) <= MAX_HEADER_BYTES
    {
      assert headers[..i + 1][..i] == headers[..i];
      HeaderBytesMonotone(headers, i + 1);
      total := total + |headers[i].name| + |headers[i].value| + 4;
      if total > MAX_HEADER_BYTES { return false; }
      i := i + 1;
    }
    assert headers[..i] == headers;
    ok := true;
  }

  lemma {:induction false} NamedPrefix(headers: seq<Header>, name: string, k: nat)
    requires k <= |headers|
    ensures |Named(headers[..k], name)| <= |Named(headers, name)|
  {
    if k == |headers| {
      assert headers[..k] == headers;
    } else {
      NamedPrefix(headers[..|headers| - 1], name, k);
      assert headers[..|headers| - 1][..k] == headers[..k];
    }
  }

  /** The loop both uniqueLocation and declaredContentLength run: at most one header of the name. */
  method UniqueHeader(headers: seq<Header>, name: string) returns (duplicate: bool, value: Option<string>)
    ensures duplicate <==> |Named(headers, name)| > 1
    ensures !duplicate ==> value == if |Named(headers, name)| == 1 then Some(Named(headers, name)[0]) else None
  {
    hide SameFolded;
    duplicate, value := false, None;
    var i := 0;
    while i < |headers|
      invariant 0 <= i <= |headers| && |Named(headers[..i], name)| <= 1
      invariant value == if |Named(headers[..i], name)| == 1 then Some(Named(headers[..i], name)[0]) else None
    {
      assert headers[..i + 1][..i] == headers[..i];
      NamedPrefix(headers, name, i + 1);
      if SameFolded(headers[i].name, name) {
        if value.Some? { return true, value; }
        value := Some(headers[i].value);
      }
      i := i + 1;
    }
    assert headers[..i] == headers;
  }

  /** The one non-empty Location, if there is exactly one. */
  function Location(headers: seq<Header>): Option<string> {
    var values := Named(headers, "location");
    if |values| == 1 && Trim(values[0]) != "" then Some(Trim(values[0])) else None
  }

  method UniqueLocation(headers: seq<Header>) returns (location: Option<string>)
    ensures location == Location(headers)
  {
    var duplicate, value := UniqueHeader(headers, "location");
    location := if !duplicate && value.Some? && Trim(value.value) != "" then Some(Trim(value.value)) else None;
  }

  /** A declared length must be a number below 2^64, declared once, and within the budget. */
  predicate BodyBudgetOk(headers: seq<Header>, actual: nat, budget: nat) {
    && HeaderBytes(headers) <= MAX_HEADER_BYTES && actual <= budget
    && var values := Named(headers, "content-length");
       && |values| <= 1
       && (|values| == 1 ==>
             var text := Trim(values[0]);
             text != "" && AllDigits(text) && Value(text) < UINT64_LIMIT && Value(text) <= budget)
  }

  /** The digit loop of parseContentLength: leading zeroes are fine, 2^64 and more is not. */
  method ParseContentLength(text: string) returns (length: Option<nat>)
    ensures length == if text != "" && AllDigits(text) && Value(text) < UINT64_LIMIT then Some(Value(text)) else None
  {
    if text == "" { return None; }
    var parsed: nat := 0;
    var i := 0;
    while i < |text|
      invariant 0 <= i <= |text| && AllDigits(text[..i]) && parsed == Value(text[..i]) < UINT64_LIMIT
    {
      if !IsDigit(text[i]) { return None; }
      assert text[..i + 1][..i] == text[..i];
      var digit := DigitValue(text[i]);
      if AllDigits(text) { PrefixValue(text, i + 1); }
      if parsed > (UINT64_LIMIT - 1 - digit) / 10 { return None; }
      parsed := parsed * 10 + digit;
      i := i + 1;
    }
    assert text[..i] == text;
    length := Some(parsed);
  }

  method ValidateBodyBudget(headers: seq<Header>, actual: nat, budget: nat) returns (ok: bool)
    ensures ok <==> BodyBudgetOk(headers, actual, budget)
  {
    ok := ValidateHeadersBudget(headers);
    if !ok { return; }
    var duplicate, value := UniqueHeader(headers, "content-length");
    if duplicate { return false; }
    if value.Some? {
      var declared := ParseContentLength(Trim(value.value));
      if declared.None? || declared.value > budget { return false; }
    }
    ok := actual <= budget;
  }

  // ---------- redirects ----------

  /** The chain of URLs a request went through. */
  predicate SafeChain(policy: Policy, hops: seq<Url>) {
    && (forall i :: 0 <= i < |hops| ==> policy.Authorized(hops[i]))
    && (forall i, j :: 0 <= i < j < |hops| ==> hops[i].canonical != hops[j].canonical)
    && (forall i, j :: 0 <= i < j < |hops| && hops[i].scheme == Https ==> hops[j].scheme == Https)
    && (forall i, j :: 0 <= i < j < |hops| ==> (hops[i].scheme == LocalFile <==> hops[j].scheme == LocalFile))
  }

  predicate Visits(hops: seq<Url>, visited: set<string>) {
    forall i :: 0 <= i < |hops| ==> hops[i].canonical in visited
  }

  lemma ChainGrows(policy: Policy, hops: seq<Url>, next: Url, visited: set<string>)
    requires |hops| > 0 && SafeChain(policy, hops) && Visits(hops, visited)
    requires policy.AuthorizedTransition(hops[|hops| - 1], next) && next.canonical !in visited
    ensures SafeChain(policy, hops + [next]) && Visits(hops + [next], visited + {next.canonical})
  {
    hide Policy.Authorized;
    var all := hops + [next];
    forall i, j | 0 <= i < j < |all|
      ensures all[i].canonical != all[j].canonical
      ensures all[i].scheme == Https ==> all[j].scheme == Https
      ensures all[i].scheme == LocalFile <==> all[j].scheme == LocalFile
    {
      if j == |hops| && i < |hops| - 1 { assert hops[i].scheme == Https ==> hops[|hops| - 1].scheme == Https; }
    }
  }

  method NextRedirect(
    current: Url, response: Response, policy: Policy, visited: set<string>, redirectCount: nat,
    maxRedirects: nat)
    returns (next: Option<Url>, visited': set<string>)
    ensures next.Some? ==> && redirectCount < maxRedirects && policy.AuthorizedTransition(current, next.value)
                           && next.value.canonical !in visited && visited' == visited + {next.value.canonical}
    ensures var location := Location(response.headers);
            next == if redirectCount < maxRedirects && location.Some?
                       && policy.ResolveAndAuthorize(current, location.value).Some?
                       && policy.ResolveAndAuthorize(current, location.value).value.canonical !in visited
                    then policy.ResolveAndAuthorize(current, location.value) else None
  {
    next, visited' := None, visited;
    if redirectCount >= maxRedirects { return; }
    var location := UniqueLocation(response.headers);
    if location.None? { return; }
    var resolved := policy.ResolveAndAuthorize(current, location.value);
    if resolved.None? || resolved.value.canonical in visited { return; }
    next, visited' := resolved, visited + {resolved.value.canonical};
  }

  /** validateSingleHopEffectiveUrl. */
  predicate SingleHop(requested: Url, response: Response, policy: Policy) {
    && response.effectiveUrl != ""
    && var effective := policy.Authorize(response.effectiveUrl);
       effective.Some? && effective.value.canonical == requested.canonical
  }

  // ---------- the adapter ----------

  /**
    What one request turns out to be: the body in the chunks it arrives in, and
    the response, or a transport failure.  A careless adapter goes on after a
    write the bounded file refused.
  */
  datatype Exchange = Exchange(chunks: seq<seq<byte>>, careless: bool, response: Option<Response>, limitError: bool)

  function Body(chunks: seq<seq<byte>>): seq<byte> {
    if |chunks| == 0 then [] else Body(chunks[..|chunks| - 1]) + chunks[|chunks| - 1]
  }

  lemma {:induction false} BodyMonotone(chunks: seq<seq<byte>>, k: nat)
    requires k <= |chunks|
    ensures |Body(chunks[..k])| <= |Body(chunks)|
  {
    if k == |chunks| {
      assert chunks[..k] == chunks;
    } else {
      BodyMonotone(chunks[..|chunks| - 1], k);
      assert chunks[..|chunks| - 1][..k] == chunks[..k];
    }
  }

  lemma BodyStep(chunks: seq<seq<byte>>, i: nat)
    requires i <= |chunks|
    ensures Body([]) == []
    ensures i < |chunks| ==>
              && Body(chunks[..i + 1]) == Body(chunks[..i]) + chunks[i]
              && |Body(chunks[..i])| + |chunks[i]| <= |Body(chunks)|
  {
    if i < |chunks| {
      BodyMonotone(chunks, i + 1);
      assert chunks[..i + 1][..i] == chunks[..i];
    }
  }

  class Adapter {
    /** What request number n turns out to be, when it asks for a URL. */
    const exchange: (nat, Url) -> Exchange
    var sent: seq<Url>
    var lastBody: seq<byte>

    constructor (exchange: (nat, Url) -> Exchange)
      ensures this.exchange == exchange && sent == []
    {
      this.exchange, sent, lastBody := exchange, [], [];
    }

    method GetText(url: Url) returns (response: Option<Response>, body: seq<byte>)
      modifies this
      ensures sent == old(sent) + [url] && body == lastBody == Body(exchange(|old(sent)|, url).chunks)
      ensures response == exchange(|old(sent)|, url).response
    {
      var e := exchange(|sent|, url);
      sent, lastBody := sent + [url], Body(e.chunks);
      response, body := e.response, lastBody;
    }

    /** Writes the body in order at the end of the file and stops at a write that fails. */
    method DownloadToFile(url: Url, target: BoundedFile) returns (response: Option<Response>, limitError: bool)
      requires target.Valid() && target.delegate.AtEnd()
      modifies this, target, target.delegate
      ensures sent == old(sent) + [url]
      ensures |target.delegate.bytes| <= target.limit && old(target.delegate.bytes) <= target.delegate.bytes
      ensures response.Some? && !target.limitExceeded ==>
                && target.Valid() && target.delegate.AtEnd()
                && target.delegate.bytes == old(target.delegate.bytes) + lastBody
                && target.bytesWritten == old(target.bytesWritten) + |lastBody|
                && response == exchange(|old(sent)|, url).response
                && lastBody == Body(exchange(|old(sent)|, url).chunks)
      // without faults, a body that fits is written in full
      ensures var e := exchange(|old(sent)|, url);
              !target.delegate.faulty && !old(target.limitExceeded) ==>
                |old(target.delegate.bytes)| + |Body(e.chunks)| <= target.limit ==>
                response == e.response && !target.limitExceeded
    {
      hide Body;
      var e := exchange(|sent|, url);
      BodyStep(e.chunks, 0);
      assert e.chunks[..0] == [];
      ghost var fits := !target.delegate.faulty && !target.limitExceeded
                        && |target.delegate.bytes| + |Body(e.chunks)| <= target.limit;
      sent, lastBody := sent + [url], [];
      ghost var before := target.delegate.bytes;
      var i := 0;
      while i < |e.chunks|
        invariant 0 <= i <= |e.chunks| && sent == old(sent) + [url] && lastBody == Body(e.chunks[..i])
        invariant target.Valid() && target.delegate.AtEnd()
        invariant before <= target.delegate.bytes && |target.delegate.bytes| <= target.limit
        invariant !target.limitExceeded ==>
                    && target.delegate.bytes == before + lastBody
                    && target.bytesWritten == old(target.bytesWritten) + |lastBody|
        invariant fits ==> !target.limitExceeded
      {
        BodyStep(e.chunks, i);
        var ok, refused := target.Write(e.chunks[i]);
        if !ok && !(e.careless && refused) { return None, false; }
        lastBody := lastBody + e.chunks[i];
        i := i + 1;
      }
      assert e.chunks[..i] == e.chunks;
      response, limitError := e.response, e.limitError;
    }
  }

  // ---------- files ----------

  /**
    The file under a download; where it is faulty any operation may fail, and a
    failed write may have written a part.
  */
  class RootedFile {
    const faulty: bool
    var bytes: seq<byte>
    var position: nat

    constructor (bytes: seq<byte>, faulty: bool)
      ensures this.bytes == bytes && this.faulty == faulty && AtEnd()
    {
      this.bytes, this.faulty, position := bytes, faulty, |bytes|;
    }

    /** Whether an operation succeeds. */
    method Probe() returns (ok: bool)
      ensures !faulty ==> ok
    {
      ok := *;
      ok := ok || !faulty;
    }

    predicate AtEnd() reads this { position == |bytes| }

    method Size() returns (size: Option<nat>)
      ensures size.Some? ==> size.value == |bytes|
      ensures !faulty ==> size.Some?
    {
      var ok := Probe();
      size := if ok then Some(|bytes|) else None;
    }

    /** At the end of the file; the amount written before a failure is arbitrary. */
    method Append(data: seq<byte>) returns (ok: bool)
      requires AtEnd()
      modifies this
      ensures AtEnd() && old(bytes) <= bytes && |bytes| <= |old(bytes)| + |data|
      ensures ok ==> bytes == old(bytes) + data
      ensures !faulty ==> ok
    {
      ok := Probe();
      var written: int := *;
      if ok || written < 0 || written > |data| { written := |data|; }
      bytes := bytes + data[..written];
      position := |bytes|;
    }

    method Truncate(size: nat) returns (ok: bool)
      requires size <= |bytes|
      modifies this`bytes
      ensures bytes == if ok then old(bytes)[..size] else old(bytes)
    {
      ok := Probe();
      if ok { bytes := bytes[..size]; }
    }

    method Seek(offset: nat) returns (ok: bool)
      modifies this`position
      ensures position == if ok then offset else old(position)
    {
      ok := Probe();
      if ok { position := offset; }
    }
  }

  /** BoundedRootedFile: no write may take the file past the signed size. */
  class BoundedFile {
    const delegate: RootedFile
    const limit: nat
    const writeBudget: nat
    var position: nat
    var bytesWritten: nat
    var limitExceeded: bool

    constructor (delegate: RootedFile, position: nat, limit: nat)
      requires position <= limit
      ensures this.delegate == delegate && this.limit == limit && this.position == position
      ensures writeBudget == limit - position && bytesWritten == 0 && !limitExceeded
    {
      this.delegate, this.limit, this.writeBudget, this.position := delegate, limit, limit - position, position;
      bytesWritten, limitExceeded := 0, false;
    }

    /** In step with the delegate. */
    predicate Valid() reads this, delegate {
      && position == delegate.position && position <= limit && |delegate.bytes| <= limit
      && bytesWritten <= writeBudget && writeBudget - bytesWritten == limit - position
    }

    /** `refused`: the file would have outgrown its limit, and is as it was. */
    method Write(data: seq<byte>) returns (ok: bool, refused: bool)
      requires Valid() && delegate.AtEnd()
      modifies this, delegate
      ensures |delegate.bytes| <= limit && old(delegate.bytes) <= delegate.bytes
      ensures refused <==> |old(delegate.bytes)| + |data| > limit
      ensures refused ==> !ok && limitExceeded && Valid() && delegate.AtEnd() && delegate.bytes == old(delegate.bytes)
      ensures !refused ==> limitExceeded == old(limitExceeded)
      ensures ok ==> && Valid() && delegate.AtEnd() && delegate.bytes == old(delegate.bytes) + data
                     && bytesWritten == old(bytesWritten) + |data|
      ensures !delegate.faulty && !refused ==> ok
    {
      refused := |data| > limit - position || |data| > writeBudget - bytesWritten;
      if refused {
        limitExceeded := true;
        return false, true;
      }
      ok := delegate.Append(data);
      if ok {
        position := position + |data|;
        bytesWritten := bytesWritten + |data|;
      }
    }
  }

  // ---------- text ----------

  /** An exchange whose body is the answer. */
  predicate AnswersWith(e: Exchange, url: Url, policy: Policy, maxResponseBytes: nat) {
    && e.response.Some? && e.response.value.status == 200 && SingleHop(url, e.response.value, policy)
    && BodyBudgetOk(e.response.value.headers, |Body(e.chunks)|, maxResponseBytes)
  }

  /** At most maxRedirects + 1 requests, along a safe chain, ending in the first answer. */
  method FetchTextWithRedirects(
    initialUrl: string, maxRedirects: nat, maxResponseBytes: nat, policy: Policy, network: Adapter)
    returns (result: Option<(Url, seq<byte>)>)
    modifies network
    ensures |old(network.sent)| <= |network.sent| <= |old(network.sent)| + maxRedirects + 1
    ensures old(network.sent) <= network.sent && SafeChain(policy, network.sent[|old(network.sent)|..])
    ensures result.Some? ==>
              && |network.sent| > |old(network.sent)| && result.value.0 == network.sent[|network.sent| - 1]
                             && result.value.1 == network.lastBody && |result.value.1| <= maxResponseBytes
    ensures |network.sent| > |old(network.sent)| ==>
              var last := network.sent[|network.sent| - 1];
              var e := network.exchange(|network.sent| - 1, last);
              && (result.Some? <==> AnswersWith(e, last, policy, maxResponseBytes))
              && (result.Some? ==> result.value.1 == Body(e.chunks))
    ensures |network.sent| == |old(network.sent)| <==> policy.Authorize(initialUrl).None?
  {
    hide SafeChain, SingleHop, BodyBudgetOk, HeaderBytes;
    hide Location, Policy.Authorized, Policy.Authorize, Policy.AuthorizedTransition;
    result := None;
    var first := policy.Authorize(initialUrl);
    NoChain(policy);
    if first.None? {
      assert network.sent[|old(network.sent)|..] == [];
      return;
    }
    var current := first.value;
    var visited := {current.canonical};
    var redirectCount := 0;
    ghost var hops := [current];
    StartChain(policy, current);
    while true
      invariant redirectCount <= maxRedirects && |hops| == redirectCount + 1 && hops[redirectCount] == current
      invariant network.sent == old(network.sent) + hops[..redirectCount]
      invariant SafeChain(policy, hops) && Visits(hops, visited)
      decreases maxRedirects - redirectCount
    {
      var response, body := network.GetText(current);
      assert network.sent[|old(network.sent)|..] == hops;
      if response.None? { return; }
      var headerBudget := ValidateHeadersBudget(response.value.headers);
      BudgetNeedsHeaders(response.value.headers, |body|, maxResponseBytes);
      if !headerBudget || |body| > maxResponseBytes { return; }
      if response.value.status == 200 {
        var budget := ValidateBodyBudget(response.value.headers, |body|, maxResponseBytes);
        if !budget { return; }
      }
      if !SingleHop(current, response.value, policy) { return; }
      if IsRedirect(response.value.status) {
        var next, visits := NextRedirect(current, response.value, policy, visited, redirectCount, maxRedirects);
        if next.None? { return; }
        ChainGrows(policy, hops, next.value, visited);
        hops := hops + [next.value];
        current, visited, redirectCount := next.value, visits, redirectCount + 1;
        continue;
      }
      if response.value.status != 200 { return; }
      return Some((current, network.lastBody));
    }
  }

  lemma BudgetNeedsHeaders(headers: seq<Header>, actual: nat, budget: nat)
    ensures BodyBudgetOk(headers, actual, budget) ==> HeaderBytes(headers) <= MAX_HEADER_BYTES && actual <= budget
  {
  }

  lemma NoChain(policy: Policy)
    ensures SafeChain(policy, [])
  {
  }

  lemma StartChain(policy: Policy, url: Url)
    requires policy.Authorized(url)
    ensures SafeChain(policy, [url]) && Visits([url], {url.canonical})
  {
  }

  // ---------- downloads ----------

  datatype DownloadError =
    | UrlRejected | OffsetMismatch | FileFailed | TransportFailed
    | LimitExceeded | HeadersTooLarge | BodyBudget | EffectiveUrl | RedirectRejected | HttpStatus

  /** The failures after which the file is put back to its length before the request. */
  predicate Restoring(e: DownloadError) { e in {LimitExceeded, HeadersTooLarge, BodyBudget, EffectiveUrl, HttpStatus} }

  /** restoreFileSize. */
  method RestoreFileSize(target: RootedFile, size: nat) returns (ok: bool)
    requires size <= |target.bytes|
    modifies target
    ensures target.bytes == old(target.bytes) || target.bytes == old(target.bytes)[..size]
    ensures ok ==> target.bytes == old(target.bytes)[..size] && target.AtEnd()
  {
    var current := target.Size();
    if current.None? { return false; }
    if current.value != size {
      ok := target.Truncate(size);
      if !ok { return; }
    } else {
      assert target.bytes[..size] == target.bytes;
    }
    ok := target.Seek(size);
  }

  datatype Attempt = Rejected(error: DownloadError, restored: bool) | Answered(response: Response, sizeBefore: nat)

  /** The status an adapter may write a body for. */
  function WritableStatus(url: Url, resuming: bool): int { if url.scheme != LocalFile && resuming then 206 else 200 }

  predicate Resuming(resume: Option<nat>) { resume.Some? && resume.value > 0 }

  /** An exchange that answers a request for the whole file, with a body of at most `budget` bytes. */
  predicate AnswersInFull(e: Exchange, url: Url, policy: Policy, budget: int) {
    && e.response.Some? && e.response.value.status == 200 && SingleHop(url, e.response.value, policy)
    && budget >= 0 && BodyBudgetOk(e.response.value.headers, |Body(e.chunks)|, budget)
  }

  lemma FullAnswerFits(e: Exchange, url: Url, policy: Policy, budget: int)
    requires AnswersInFull(e, url, policy, budget)
    ensures HeaderBytes(e.response.value.headers) <= MAX_HEADER_BYTES && |Body(e.chunks)| <= budget
  {
  }

  lemma FullAnswerStatus(e: Exchange, url: Url, policy: Policy, budget: int)
    requires AnswersInFull(e, url, policy, budget)
    ensures e.response.Some? && e.response.value.status == 200
  {
  }

  /** One request and the checks every answer must pass. */
  method RequestOnce(
    current: Url, target: RootedFile, maxTotalBytes: nat, policy: Policy, network: Adapter,
    resume: Option<nat>)
    returns (r: Attempt)
    requires target.AtEnd()
    modifies target, network
    ensures network.sent == old(network.sent) || network.sent == old(network.sent) + [current]
    ensures |old(target.bytes)| <= maxTotalBytes ==> |target.bytes| <= maxTotalBytes
    ensures |old(target.bytes)| > maxTotalBytes ==> r.Rejected? && target.bytes == old(target.bytes)
    ensures r.Rejected? && Restoring(r.error) && r.restored ==> target.bytes == old(target.bytes)
    ensures r.Rejected? && r.error == TransportFailed ==> old(target.bytes) <= target.bytes
    ensures r.Rejected? ==> r.error !in {RedirectRejected, HttpStatus}
    ensures r.Answered? ==>
              && network.sent == old(network.sent) + [current] && target.AtEnd() && r.sizeBefore == |old(target.bytes)|
              && network.exchange(|old(network.sent)|, current).response == Some(r.response)
              && target.bytes == old(target.bytes) + Body(network.exchange(|old(network.sent)|, current).chunks)
              && (Resuming(resume) ==> resume.value == |old(target.bytes)|)
              && SingleHop(current, r.response, policy)
    ensures var e := network.exchange(|old(network.sent)|, current);
            !target.faulty && !Resuming(resume) ==>
              AnswersInFull(e, current, policy, maxTotalBytes - |old(target.bytes)|) ==> r.Answered?
  {
    hide SingleHop, BodyBudgetOk, HeaderBytes, Body;
    ghost var e := network.exchange(|network.sent|, current);
    if AnswersInFull(e, current, policy, maxTotalBytes - |target.bytes|) {
      FullAnswerFits(e, current, policy, maxTotalBytes - |target.bytes|);
    }
    var sizeBefore := target.Size();
    if sizeBefore.None? { return Rejected(FileFailed, false); }
    var size := sizeBefore.value;
    if size > maxTotalBytes { return Rejected(LimitExceeded, true); }
    if Resuming(resume) && resume.value != size { return Rejected(OffsetMismatch, false); }
    var bounded := new BoundedFile(target, size, maxTotalBytes);
    var response, limitError := network.DownloadToFile(current, bounded);
    ghost var written := target.bytes;
    assert written[..size] == old(target.bytes);
    var error := None;
    if response.None? {
      if !bounded.limitExceeded && !limitError { return Rejected(TransportFailed, false); }
      error := Some(LimitExceeded);
    } else {
      error := CheckAnswer(
        current, response.value, bounded.limitExceeded, bounded.bytesWritten, maxTotalBytes - size, policy,
        Resuming(resume));
    }
    if error.Some? {
      var restored := RestoreFileSize(target, size);
      return Rejected(error.value, restored);
    }
    r := Answered(response.value, size);
  }

  /** The checks on an answer, in the order the code makes them. */
  method CheckAnswer(
    current: Url, response: Response, limitExceeded: bool, bytesWritten: nat, remaining: nat, policy: Policy,
    resuming: bool)
    returns (error: Option<DownloadError>)
    ensures error.Some? ==> error.value in {HeadersTooLarge, LimitExceeded, BodyBudget, EffectiveUrl}
    ensures error.None? <==>
              && HeaderBytes(response.headers) <= MAX_HEADER_BYTES && !limitExceeded
              && (response.status == WritableStatus(current, resuming) ==>
                    BodyBudgetOk(response.headers, bytesWritten, remaining))
              && SingleHop(current, response, policy)
  {
    hide SingleHop, BodyBudgetOk, HeaderBytes;
    var headerBudget := ValidateHeadersBudget(response.headers);
    if !headerBudget { return Some(HeadersTooLarge); }
    if limitExceeded { return Some(LimitExceeded); }
    if response.status == WritableStatus(current, resuming) {
      var budget := ValidateBodyBudget(response.headers, bytesWritten, remaining);
      if !budget { return Some(BodyBudget); }
    }
    error := if SingleHop(current, response, policy) then None else Some(EffectiveUrl);
  }

  datatype Outcome = Success(url: Url, status: int) | Failure(error: DownloadError, restored: bool)

  datatype Settled = Follow(next: Url, visited: set<string>) | Restart | Finish(outcome: Outcome)

  /** What an answer leads to: the next hop, the same URL again in full, or the end of the download. */
  method SettleAnswer(
    current: Url, response: Response, sizeBefore: nat, target: RootedFile, policy: Policy, visited: set<string>,
    redirectCount: nat, maxRedirects: nat, resume: Option<nat>)
    returns (r: Settled)
    requires target.AtEnd() && sizeBefore <= |target.bytes|
    modifies target
    ensures |target.bytes| <= |old(target.bytes)|
    ensures r.Follow? ==>
              && redirectCount < maxRedirects && policy.AuthorizedTransition(current, r.next)
              && r.next.canonical !in visited && r.visited == visited + {r.next.canonical}
              && target.AtEnd() && target.bytes == old(target.bytes)[..if resume.Some? then 0 else sizeBefore]
    ensures r.Restart? ==> resume.Some? && target.AtEnd() && target.bytes == []
    ensures r.Finish? && r.outcome.Success? ==>
              && r.outcome == Success(current, response.status) && target.bytes == old(target.bytes)
              && response.status == WritableStatus(current, Resuming(resume))
    ensures resume.None? && response.status == 200 ==> r == Finish(Success(current, 200))
    ensures r.Finish? && r.outcome.Failure? ==>
              && r.outcome.error in {FileFailed, HttpStatus, RedirectRejected}
              && (r.outcome.error == HttpStatus ==> target.bytes == old(target.bytes)[..sizeBefore])
              && (r.outcome.error == RedirectRejected ==>
                    target.bytes == old(target.bytes)[..if resume.Some? then 0 else sizeBefore])
  {
    hide Policy.Authorized, Policy.AuthorizedTransition, Location;
    var failed := Finish(Failure(FileFailed, false));
    if IsRedirect(response.status) {
      var restored := RestoreFileSize(target, if resume.Some? then 0 else sizeBefore);
      if !restored { return failed; }
      var next, visits := NextRedirect(current, response, policy, visited, redirectCount, maxRedirects);
      return if next.None? then Finish(Failure(RedirectRejected, false)) else Follow(next.value, visits);
    }
    if response.status < 200 || response.status >= 300 {
      var restored := RestoreFileSize(target, sizeBefore);
      return if restored then Finish(Failure(HttpStatus, true)) else failed;
    }
    if Resuming(resume) && current.scheme != LocalFile && response.status == 200 {
      var restarted := RestoreFileSize(target, 0);
      return if restarted then Restart else failed;
    }
    if response.status != WritableStatus(current, Resuming(resume)) {
      var restored := RestoreFileSize(target, sizeBefore);
      return if restored then Finish(Failure(HttpStatus, true)) else failed;
    }
    r := Finish(Success(current, response.status));
  }

  /** One turn of the redirect loop: a request, and what its answer leads to. */
  method TakeHop(
    current: Url, target: RootedFile, maxTotalBytes: nat, policy: Policy, network: Adapter, visited: set<string>,
    redirectCount: nat, maxRedirects: nat, resume: Option<nat>)
    returns (r: Settled)
    requires target.AtEnd()
    modifies target, network
    ensures network.sent == old(network.sent) || network.sent == old(network.sent) + [current]
    ensures r.Follow? || r.Restart? || r.outcome.Success? ==> network.sent == old(network.sent) + [current]
    ensures |old(target.bytes)| <= maxTotalBytes ==> |target.bytes| <= maxTotalBytes
    ensures r.Follow? ==>
              && redirectCount < maxRedirects && policy.AuthorizedTransition(current, r.next)
              && r.next.canonical !in visited && r.visited == visited + {r.next.canonical}
              && target.AtEnd() && target.bytes == if resume.Some? then [] else old(target.bytes)
    ensures r.Restart? ==> resume.Some? && target.AtEnd() && target.bytes == []
    ensures r.Finish? && r.outcome.Success? ==>
              var e := network.exchange(|old(network.sent)|, current);
              && r.outcome.url == current && r.outcome.status == WritableStatus(current, Resuming(resume))
              && e.response.Some? && e.response.value.status == r.outcome.status
              && SingleHop(current, e.response.value, policy)
              && target.bytes == old(target.bytes) + Body(e.chunks)
              && (Resuming(resume) ==> resume.value == |old(target.bytes)|)
    ensures r.Finish? && r.outcome.Failure? ==>
              && (Restoring(r.outcome.error) && r.outcome.restored ==> target.bytes == old(target.bytes))
              && (r.outcome.error == TransportFailed ==> old(target.bytes) <= target.bytes)
              && (r.outcome.error == RedirectRejected ==>
                    target.bytes == if resume.Some? then [] else old(target.bytes))
    ensures resume.None? && !target.faulty ==>
              AnswersInFull(network.exchange(|old(network.sent)|, current), current, policy,
                            maxTotalBytes - |old(target.bytes)|) ==>
              r == Finish(Success(current, 200))
  {
    hide SingleHop, Body, WritableStatus, AnswersInFull, Policy.AuthorizedTransition;
    ghost var before, e := target.bytes, network.exchange(|network.sent|, current);
    ghost var full := AnswersInFull(e, current, policy, maxTotalBytes - |before|);
    if full { FullAnswerStatus(e, current, policy, maxTotalBytes - |before|); }
    var attempt := RequestOnce(current, target, maxTotalBytes, policy, network, resume);
    if attempt.Rejected? { return Finish(Failure(attempt.error, attempt.restored)); }
    assert target.bytes[..|before|] == before && target.bytes[..0] == [];
    r := SettleAnswer(
      current, attempt.response, attempt.sizeBefore, target, policy, visited, redirectCount, maxRedirects, resume);
  }

  /** Every request since `earlier` went to one of the hops. */
  predicate AllFrom(earlier: seq<Url>, sent: seq<Url>, hops: seq<Url>) {
    forall i :: |earlier| <= i < |sent| ==> sent[i] in hops
  }

  lemma NothingSent(earlier: seq<Url>)
    ensures forall hops :: AllFrom(earlier, earlier, hops)
  {
  }

  lemma SentFrom(earlier: seq<Url>, before: seq<Url>, sent: seq<Url>, hops: seq<Url>, i: nat)
    requires AllFrom(earlier, before, hops) && i < |hops| && (sent == before || sent == before + [hops[i]])
    ensures AllFrom(earlier, sent, hops)
  {
  }

  lemma MoreHops(earlier: seq<Url>, sent: seq<Url>, hops: seq<Url>, next: Url)
    requires AllFrom(earlier, sent, hops)
    ensures AllFrom(earlier, sent, hops + [next])
  {
  }

  /**
    At most maxRedirects + 2 requests along a safe chain, never more bytes than
    the signed size, and on success the kept contents (all of them, or none
    after a restart of a resumed download) followed by exactly the body of the
    last exchange.  `before` is the file as the last request found it.  After a
    refused redirect the file is as it was exactly when nothing was resumed or
    there was nothing to keep.
  */
  method DownloadWithRedirects(
    initialUrl: string, target: RootedFile, maxRedirects: nat, maxTotalBytes: nat, policy: Policy, network: Adapter,
    resume: Option<nat>)
    returns (outcome: Outcome, kept: bool, ghost before: seq<byte>, ghost hops: seq<Url>)
    requires target.AtEnd()
    modifies target, network
    ensures |old(network.sent)| <= |network.sent| <= |old(network.sent)| + maxRedirects + 2
    ensures SafeChain(policy, hops) && |hops| <= maxRedirects + 1
    ensures old(network.sent) <= network.sent
    ensures AllFrom(old(network.sent), network.sent, hops)
    ensures |old(target.bytes)| <= maxTotalBytes ==> |target.bytes| <= maxTotalBytes
    ensures !kept ==> resume.Some?
    ensures outcome.Success? ==>
              && |network.sent| > |old(network.sent)| && network.sent[|network.sent| - 1] == outcome.url
              && var last := network.exchange(|network.sent| - 1, outcome.url);
                 && last.response.Some? && last.response.value.status == outcome.status
                 && SingleHop(outcome.url, last.response.value, policy)
                 && target.bytes == (if kept then old(target.bytes) else []) + Body(last.chunks)
    ensures outcome.Success? ==>
              && (kept && Resuming(resume) ==> resume.value == |old(target.bytes)|)
              && outcome.status == WritableStatus(outcome.url, kept && Resuming(resume))
    ensures outcome.Failure? && Restoring(outcome.error) && outcome.restored ==> target.bytes == before
    ensures outcome.Failure? && outcome.error == TransportFailed ==> before <= target.bytes
    ensures outcome.Failure? && outcome.error == RedirectRejected ==>
              target.bytes == if resume.Some? then [] else old(target.bytes)
    ensures before == if kept then old(target.bytes) else []
    // without faults, a download from scratch that is answered in full succeeds at once
    ensures var url := policy.Authorize(initialUrl);
            url.Some? && resume.None? && !target.faulty ==>
              AnswersInFull(network.exchange(|old(network.sent)|, url.value), url.value, policy,
                            maxTotalBytes - |old(target.bytes)|) ==>
              outcome == Success(url.value, 200) && |network.sent| == |old(network.sent)| + 1
  {
    hide AnswersInFull;
    hide SafeChain, SingleHop, Body, Visits, WritableStatus, AllFrom;
    NothingSent(network.sent);
    hide Policy.Authorized, Policy.Authorize, Policy.AuthorizedTransition;
    ghost var first, earlier := target.bytes, network.sent;
    kept, before, hops := true, first, [];
    NoChain(policy);
    var start := policy.Authorize(initialUrl);
    if start.None? { return Failure(UrlRejected, false), kept, before, hops; }
    var current := start.value;
    ghost var direct := resume.None? && !target.faulty
                        && AnswersInFull(network.exchange(|network.sent|, current), current, policy,
                                         maxTotalBytes - |target.bytes|);
    if resume.Some? && resume.value > maxTotalBytes { return Failure(LimitExceeded, true), kept, before, hops; }
    var visited := {current.canonical};
    var redirectCount, restarts := 0, 0;
    var activeResume := resume;
    hops := [current];
    StartChain(policy, current);
    while true
      invariant redirectCount <= maxRedirects && |hops| == redirectCount + 1 && hops[redirectCount] == current
      invariant SafeChain(policy, hops) && Visits(hops, visited)
      invariant restarts <= 1 && (restarts == 1 ==> activeResume.None?)
      invariant |network.sent| == |old(network.sent)| + redirectCount + restarts && old(network.sent) <= network.sent
      invariant AllFrom(earlier, network.sent, hops)
      invariant target.AtEnd() && target.bytes == before == (if kept then first else [])
      invariant activeResume == (if kept then resume else None) && (!kept ==> resume.Some?)
      invariant direct ==> redirectCount == 0 && restarts == 0 && current == start.value
      decreases maxRedirects - redirectCount, if activeResume.Some? then 1 else 0
    {
      ghost var asked := network.sent;
      var settled := TakeHop(
        current, target, maxTotalBytes, policy, network, visited, redirectCount, maxRedirects, activeResume);
      SentFrom(earlier, asked, network.sent, hops, redirectCount);
      match settled {
        case Finish(o) => return o, kept, before, hops;
        case Restart =>
          kept, activeResume, restarts := false, None, 1;
        case Follow(next, visits) =>
          if activeResume.Some? { kept := false; }
          activeResume := None;
          ChainGrows(policy, hops, next, visited);
          MoreHops(earlier, network.sent, hops, next);
          hops := hops + [next];
          current, visited, redirectCount := next, visits, redirectCount + 1;
      }
      before := target.bytes;
    }
  }
}
