/** Searching, cutting, joining and case-folding text, as std::string::find and `split` do. */
module Strings {

  /** ASCII upper case to lower case. */
  function FoldChar(c: char): char { if 'A' <= c <= 'Z' then c - 'A' + 'a' else c }

  function Find(s: string, c: char): (i: nat)
    ensures i <= |s|
    ensures i < |s| ==> s[i] == c
    ensures forall j :: 0 <= j < i ==> s[j] != c
  {
    if |s| == 0 || s[0] == c then 0 else 1 + Find(s[1..], c)
  }

  lemma FindAt(s: string, c: char, i: nat)
    requires i <= |s| && (i < |s| ==> s[i] == c)
    requires forall j :: 0 <= j < i ==> s[j] != c
    ensures Find(s, c) == i
  {
    var k := Find(s, c);
    assert !(k < i) && !(i < k);
  }

  function Split(s: string, c: char): (parts: seq<string>)
    ensures |parts| >= 1
    decreases |s|
  {
    var i := Find(s, c);
    if i == |s| then [s] else [s[..i]] + Split(s[i + 1..], c)
  }

  function Join(parts: seq<string>, c: char): string
    requires |parts| >= 1
  {
    if |parts| == 1 then parts[0] else parts[0] + [c] + Join(parts[1..], c)
  }

  predicate Without(s: string, c: char) { forall j :: 0 <= j < |s| ==> s[j] != c }

  lemma {:induction false} JoinSplit(s: string, c: char)
    ensures Join(Split(s, c), c) == s
    ensures forall p :: p in Split(s, c) ==> Without(p, c)
    decreases |s|
  {
    var i := Find(s, c);
    if i < |s| {
      var rest := Split(s[i + 1..], c);
      JoinSplit(s[i + 1..], c);
      JoinCons(s[..i], rest, c);
      assert s == s[..i] + [c] + s[i + 1..];
      assert forall p :: p in [s[..i]] + rest ==> p == s[..i] || p in rest;
    }
  }

  lemma JoinCons(first: string, rest: seq<string>, c: char)
    requires |rest| >= 1
    ensures Join([first] + rest, c) == first + [c] + Join(rest, c)
  {
    assert ([first] + rest)[1..] == rest;
  }

  lemma {:induction false} SplitJoin(parts: seq<string>, c: char)
    requires |parts| >= 1 && forall p :: p in parts ==> Without(p, c)
    ensures Split(Join(parts, c), c) == parts
  {
    var s := Join(parts, c);
    assert parts[0] in parts;
    if |parts| == 1 {
      FindAt(s, c, |s|);
    } else {
      var tail := Join(parts[1..], c);
      FindAt(s, c, |parts[0]|);
      assert s[..|parts[0]|] == parts[0];
      assert s[|parts[0]| + 1..] == tail;
      SplitJoin(parts[1..], c);
      assert parts == [parts[0]] + parts[1..];
    }
  }

  /** Cutting at the first delimiter found from `start`. */
  lemma SplitFrom(text: string, c: char, start: nat, end: nat)
    requires start <= |text| && end == start + Find(text[start..], c)
    ensures end <= |text| && (end < |text| ==> text[end] == c)
    ensures end == |text| ==> Split(text[start..], c) == [text[start..end]]
    ensures end < |text| ==> Split(text[start..], c) == [text[start..end]] + Split(text[end + 1..], c)
  {
    var rest := text[start..];
    assert rest[..end - start] == text[start..end];
    if end < |text| {
      assert rest[end - start + 1..] == text[end + 1..];
    } else {
      assert rest == text[start..end];
    }
  }

  /** The loop of `split`: find from `start`, cut, continue after the delimiter. */
  method SplitText(text: string, delimiter: char) returns (parts: seq<string>)
    ensures parts == Split(text, delimiter)
  {
    hide Split, Find;
    parts := [];
    var start := 0;
    assert text[0..] == text;
    while true
      invariant 0 <= start <= |text|
      invariant Split(text, delimiter) == parts + Split(text[start..], delimiter)
      decreases |text| - start
    {
      var end := start + Find(text[start..], delimiter);
      SplitFrom(text, delimiter, start, end);
      var part := text[start..end];
      if end == |text| { return parts + [part]; }
      ghost var rest := Split(text[end + 1..], delimiter);
      assert parts + ([part] + rest) == (parts + [part]) + rest;
      parts := parts + [part];
      start := end + 1;
    }
  }

  lemma {:induction false} JoinThree(parts: seq<string>)
    requires |parts| == 3
    ensures Join(parts, '.') == parts[0] + "." + parts[1] + "." + parts[2]
  {
    assert Join(parts[1..], '.') == parts[1] + "." + Join(parts[1..][1..], '.');
    assert parts[1..][1..] == [parts[2]];
  }

  lemma SplitIsInjective(a: string, b: string)
    requires Split(a, '.') == Split(b, '.')
    ensures a == b
  {
    JoinSplit(a, '.');
    JoinSplit(b, '.');
  }

  function Suffix(mark: string, text: string): string { if text == "" then "" else mark + text }

  lemma CutAt(head: string, mark: char, tail: string)
    requires Without(head, mark)
    ensures var text := head + Suffix([mark], tail);
            var i := Find(text, mark);
            i == |head| && text[..i] == head
            && (i < |text| <==> tail != "") && (i < |text| ==> text[i + 1..] == tail)
  {
    var text := head + Suffix([mark], tail);
    FindAt(text, mark, |head|);
  }
}
