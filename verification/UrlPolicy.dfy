/**
  Which URLs a request may go to (src/UrlPolicy.cpp).  Parsing and resolving
  URL text are parameters; a parsed URL carries its canonical text.
*/
module UrlPolicies {
  import opened Wrappers
  import opened Strings

  datatype Scheme = Http | Https | LocalFile

  datatype Url = Url(scheme: Scheme, host: string, port: nat, path: string, canonical: string)

  datatype Policy = Policy(
    local: bool, localRoot: Url, scopes: seq<Url>, windows: bool,
    parse: string -> Option<Url>, resolve: (Url, string) -> Option<Url>)
  {
    predicate MatchesNetworkScope(url: Url) {
      && url.scheme != LocalFile
      && exists i :: 0 <= i < |scopes| && SameOrigin(url, scopes[i])
                     && PathMatchesBoundary(url.path, scopes[i].path, false)
    }

    predicate MatchesLocalScope(url: Url) {
      url.scheme == LocalFile && PathMatchesBoundary(url.path, localRoot.path, windows)
    }

    predicate Authorized(url: Url) { if local then MatchesLocalScope(url) else MatchesNetworkScope(url) }

    predicate AuthorizedTransition(from: Url, to: Url) {
      && Authorized(from) && Authorized(to)
      && !(from.scheme == Https && to.scheme == Http)
      && (from.scheme == LocalFile <==> to.scheme == LocalFile)
    }

    function Authorize(text: string): (r: Option<Url>)
      ensures r.Some? ==> Authorized(r.value)
    {
      var url := parse(text);
      if url.Some? && Authorized(url.value) then url else None
    }

    function ResolveAndAuthorize(base: Url, reference: string): (r: Option<Url>)
      ensures r.Some? ==> AuthorizedTransition(base, r.value)
    {
      var url := resolve(base, reference);
      if Authorized(base) && url.Some? && AuthorizedTransition(base, url.value) then url else None
    }
  }

  predicate SameOrigin(a: Url, b: Url) { a.scheme == b.scheme && a.host == b.host && a.port == b.port }

  function Lower(s: string): (r: string)
    ensures |r| == |s| && forall i :: 0 <= i < |s| ==> r[i] == FoldChar(s[i])
  {
    seq(|s|, i requires 0 <= i < |s| => FoldChar(s[i]))
  }

  function Folded(s: string, ignoreCase: bool): string { if ignoreCase then Lower(s) else s }

  /** pathMatchesBoundary; Windows compares local paths character by character without ASCII case. */
  predicate PathMatchesBoundary(path: string, scope: string, ignoreCase: bool) {
    if scope == "/" then path != "" && path[0] == '/'
    else
      && |path| >= |scope|
      && (if ignoreCase then forall i :: 0 <= i < |scope| ==> FoldChar(path[i]) == FoldChar(scope[i])
          else path[..|scope|] == scope)
      && (|path| == |scope| || (scope != "" && scope[|scope| - 1] == '/') || path[|scope|] == '/')
  }

  // ---------- what a scope means ----------

  /** The scope without its final slash. */
  function Directory(scope: string): string {
    if scope != "" && scope[|scope| - 1] == '/' then scope[..|scope| - 1] else scope
  }

  lemma {:induction false} SplitConcat(a: string, b: string)
    ensures Split(a + ['/'] + b, '/') == Split(a, '/') + Split(b, '/')
    decreases |a|
  {
    var text := a + ['/'] + b;
    var i := Find(a, '/');
    FindAt(text, '/', i);
    if i == |a| {
      assert text[..i] == a && text[i + 1..] == b;
    } else {
      assert text[..i] == a[..i];
      assert text[i + 1..] == a[i + 1..] + ['/'] + b;
      SplitConcat(a[i + 1..], b);
    }
  }

  lemma {:induction false} JoinConcat(xs: seq<string>, ys: seq<string>)
    requires |xs| >= 1 && |ys| >= 1
    ensures Join(xs + ys, '/') == Join(xs, '/') + ['/'] + Join(ys, '/')
  {
    if |xs| == 1 {
      JoinCons(xs[0], ys, '/');
      assert xs + ys == [xs[0]] + ys;
    } else {
      JoinConcat(xs[1..], ys);
      assert xs + ys == [xs[0]] + (xs[1..] + ys);
      JoinCons(xs[0], xs[1..] + ys, '/');
    }
  }

  /** The directory itself, or something inside it. */
  predicate AtOrInside(path: string, directory: string) {
    path == directory || (|path| > |directory| && path[..|directory|] == directory && path[|directory|] == '/')
  }

  lemma InsideSplits(path: string, directory: string)
    requires AtOrInside(path, directory)
    ensures Split(directory, '/') <= Split(path, '/')
  {
    hide Split;
    if path != directory {
      var rest := path[|directory| + 1..];
      assert path == directory + ['/'] + rest;
      SplitConcat(directory, rest);
    }
  }

  lemma ConcatIsInside(directory: string, rest: string)
    ensures AtOrInside(directory + ['/'] + rest, directory)
  {
    var path := directory + ['/'] + rest;
    assert path[..|directory|] == directory;
  }

  lemma SplitIsInside(path: string, directory: string)
    requires Split(directory, '/') <= Split(path, '/')
    ensures AtOrInside(path, directory)
  {
    hide Split, Join, AtOrInside;
    var ds, ps := Split(directory, '/'), Split(path, '/');
    JoinSplit(path, '/');
    JoinSplit(directory, '/');
    if |ps| > |ds| {
      var rest := ps[|ds|..];
      assert ds + rest == ps;
      JoinConcat(ds, rest);
      ConcatIsInside(directory, Join(rest, '/'));
    } else {
      assert ds == ps;
      ItselfInside(path);
    }
  }

  lemma ItselfInside(path: string)
    ensures AtOrInside(path, path)
  {
  }

  /** A path lies below a directory exactly when the directory's segments begin the path's segments. */
  lemma SegmentsBegin(path: string, directory: string)
    ensures Split(directory, '/') <= Split(path, '/') <==> AtOrInside(path, directory)
  {
    hide Split, AtOrInside;
    if AtOrInside(path, directory) { InsideSplits(path, directory); }
    if Split(directory, '/') <= Split(path, '/') { SplitIsInside(path, directory); }
  }

  /** Ignoring case is comparing the folded texts. */
  lemma BoundaryOfFolded(path: string, scope: string, ignoreCase: bool)
    ensures PathMatchesBoundary(path, scope, ignoreCase)
            <==> PathMatchesBoundary(Folded(path, ignoreCase), Folded(scope, ignoreCase), false)
    ensures Directory(Folded(scope, ignoreCase)) == Folded(Directory(scope), ignoreCase)
  {
    if ignoreCase {
      var p, s := Lower(path), Lower(scope);
      if scope != "" { assert s == "/" <==> scope == "/" by { assert s[0] == FoldChar(scope[0]); } }
      if |path| >= |scope| {
        assert p[..|s|] == s <==> forall i :: 0 <= i < |s| ==> p[i] == s[i];
      }
    }
  }

  /**
    A scope admits the paths whose segments begin with its own, up to case
    where case is ignored: no partial segment ever matches.
  */
  lemma BoundaryMeansSegments(path: string, scope: string, ignoreCase: bool)
    requires scope != ""
    ensures var p, s := Folded(path, ignoreCase), Folded(scope, ignoreCase);
            PathMatchesBoundary(path, scope, ignoreCase) <==>
              && Split(Directory(s), '/') <= Split(p, '/')
              && (s != Directory(s) ==> p != Directory(s))
  {
    hide Split;
    BoundaryOfFolded(path, scope, ignoreCase);
    CaseMatters(Folded(path, ignoreCase), Folded(scope, ignoreCase));
  }

  lemma CaseMatters(path: string, scope: string)
    requires scope != ""
    ensures PathMatchesBoundary(path, scope, false) <==>
              && Split(Directory(scope), '/') <= Split(path, '/')
              && (scope != Directory(scope) ==> path != Directory(scope))
  {
    var directory := Directory(scope);
    SegmentsBegin(path, directory);
    hide Split;
    if scope != directory {
      assert scope == directory + ['/'];
      if |path| > |directory| && path[..|directory|] == directory && path[|directory|] == '/' {
        assert path[..|scope|] == scope;
      }
      if |path| >= |scope| && path[..|scope|] == scope {
        assert path[..|directory|] == path[..|scope|][..|directory|];
        assert path[|directory|] == path[..|scope|][|directory|];
      }
    } else {
      if |path| == |scope| { assert path[..|scope|] == path; }
    }
  }
}
