/**
  Semantic versions (src/Version.cpp): text round trip and precedence.
  The precedence specification follows section 11 of Semantic Versioning 2.0.0
  and compares numeric identifiers by value; the code compares them by length
  and then by text, without ever computing the value.
*/
module Versions {
  import opened Wrappers
  import opened Strings
  import opened Topology
  import opened Decimal

  const INT_MAX: nat := 0x7fff_ffff

  // ---------- identifiers ----------

  predicate IsIdentifierChar(c: char) {
    IsDigit(c) || 'A' <= c <= 'Z' || 'a' <= c <= 'z' || c == '-'
  }

  predicate Numeric(s: string) { |s| > 0 && AllDigits(s) }

  predicate ValidIdentifier(part: string, rejectLeadingZeroes: bool) {
    && |part| > 0
    && (forall i :: 0 <= i < |part| ==> IsIdentifierChar(part[i]))
    && !(rejectLeadingZeroes && Numeric(part) && |part| > 1 && part[0] == '0')
  }

  predicate ValidDotIdentifiers(text: string, rejectLeadingZeroes: bool) {
    |text| > 0 && forall p :: p in Split(text, '.') ==> ValidIdentifier(p, rejectLeadingZeroes)
  }

  lemma IdentifiersNonEmpty(text: string, reject: bool)
    ensures ValidDotIdentifiers(text, reject) ==> text != ""
  {
  }

  lemma {:induction false} DotIdentifierChars(text: string, reject: bool)
    requires forall p :: p in Split(text, '.') ==> ValidIdentifier(p, reject)
    ensures forall j :: 0 <= j < |text| ==> IsIdentifierChar(text[j]) || text[j] == '.'
    decreases |text|
  {
    var i := Find(text, '.');
    if i < |text| {
      var parts := Split(text, '.');
      assert parts[0] == text[..i];
      assert parts[0] in parts;
      assert forall p :: p in parts[1..] ==> p in parts;
      DotIdentifierChars(text[i + 1..], reject);
      forall j | 0 <= j < |text| ensures IsIdentifierChar(text[j]) || text[j] == '.' {
        if j < i { assert text[j] == parts[0][j]; }
        else if j > i { assert text[j] == text[i + 1..][j - i - 1]; }
      }
    } else {
      assert text in Split(text, '.');
    }
  }

  // ---------- versions ----------

  datatype Version = Version(major: nat, minor: nat, patch: nat, prerelease: string, build: string)

  predicate WellFormed(v: Version) {
    && v.major <= INT_MAX && v.minor <= INT_MAX && v.patch <= INT_MAX
    && (v.prerelease == "" || ValidDotIdentifiers(v.prerelease, true))
    && (v.build == "" || ValidDotIdentifiers(v.build, false))
  }

  function ParseNumber(text: string): Option<nat> {
    if |text| == 0 then None
    else if |text| > 1 && text[0] == '0' then None
    else if !AllDigits(text) then None
    else if Value(text) > INT_MAX then None
    else Some(Value(text))
  }

  function CoreText(major: nat, minor: nat, patch: nat): string {
    Text(major) + "." + Text(minor) + "." + Text(patch)
  }

  function ToString(v: Version): string {
    CoreText(v.major, v.minor, v.patch) + Suffix("-", v.prerelease) + Suffix("+", v.build)
  }

  function ParseCore(core: string, prerelease: string, build: string): Option<Version> {
    var numbers := Split(core, '.');
    if |numbers| != 3 then None
    else
      var major, minor, patch := ParseNumber(numbers[0]), ParseNumber(numbers[1]), ParseNumber(numbers[2]);
      if major.None? || minor.None? || patch.None? then None
      else Some(Version(major.value, minor.value, patch.value, prerelease, build))
  }

  function ParseRest(rest: string, build: string): Option<Version> {
    var dash := Find(rest, '-');
    var prerelease := if dash < |rest| then rest[dash + 1..] else "";
    if dash < |rest| && !ValidDotIdentifiers(prerelease, true) then None
    else ParseCore(rest[..dash], prerelease, build)
  }

  function Parse(text: string): Option<Version> {
    if text == "" then None
    else
      var plus := Find(text, '+');
      var build := if plus < |text| then text[plus + 1..] else "";
      if plus < |text| && !ValidDotIdentifiers(build, false) then None
      else ParseRest(text[..plus], build)
  }

  lemma ThreeNumbers(a: string, b: string, c: string)
    requires AllDigits(a) && AllDigits(b) && AllDigits(c)
    ensures var core := a + "." + b + "." + c;
            Split(core, '.') == [a, b, c] && Without(core, '-') && Without(core, '+')
  {
    hide AllDigits, Without, Split, Join;
    DigitsWithout(a);
    DigitsWithout(b);
    DigitsWithout(c);
    JoinThree([a, b, c]);
    SplitJoin([a, b, c], '.');
    CoreWithout(a, b, c, '-');
    CoreWithout(a, b, c, '+');
  }

  lemma DigitsWithout(a: string)
    requires AllDigits(a)
    ensures Without(a, '.') && Without(a, '-') && Without(a, '+')
  {
  }

  lemma CoreWithout(a: string, b: string, c: string, mark: char)
    requires Without(a, mark) && Without(b, mark) && Without(c, mark) && mark != '.'
    ensures Without(a + "." + b + "." + c, mark)
  {
  }

  lemma NumberRoundTrip(n: nat)
    requires n <= INT_MAX
    ensures ParseNumber(Text(n)) == Some(n)
  {
  }

  lemma RestRoundTrip(v: Version)
    requires WellFormed(v)
    ensures var rest := CoreText(v.major, v.minor, v.patch) + Suffix("-", v.prerelease);
            rest != "" && Without(rest, '+') && ParseRest(rest, v.build) == Some(v)
  {
    hide ParseNumber, ValidDotIdentifiers, Split, Find, Suffix, ParseCore;
    var core := CoreText(v.major, v.minor, v.patch);
    CoreRoundTrip(v.major, v.minor, v.patch, v.prerelease, v.build);
    RestWithoutPlus(core, v.prerelease);
    CutAt(core, '-', v.prerelease);
  }

  lemma CoreRoundTrip(major: nat, minor: nat, patch: nat, prerelease: string, build: string)
    requires major <= INT_MAX && minor <= INT_MAX && patch <= INT_MAX
    ensures var core := CoreText(major, minor, patch);
            && core != "" && ParseCore(core, prerelease, build) == Some(Version(major, minor, patch, prerelease, build))
            && Without(core, '-') && Without(core, '+')
  {
    hide ParseNumber, Split, Without;
    ThreeNumbers(Text(major), Text(minor), Text(patch));
    NumberRoundTrip(major);
    NumberRoundTrip(minor);
    NumberRoundTrip(patch);
  }

  /** parse(toString(v)) = v for every version parse can produce. */
  lemma ParseAfterToString(v: Version)
    requires WellFormed(v)
    ensures Parse(ToString(v)) == Some(v)
  {
    hide CoreText, ParseRest, Suffix, Find;
    var rest := CoreText(v.major, v.minor, v.patch) + Suffix("-", v.prerelease);
    RestRoundTrip(v);
    CutAt(rest, '+', v.build);
    assert ToString(v) == rest + Suffix("+", v.build);
  }

  lemma RestWithoutPlus(core: string, prerelease: string)
    requires Without(core, '+') && (prerelease == "" || ValidDotIdentifiers(prerelease, true))
    ensures Without(core + Suffix("-", prerelease), '+')
  {
    if prerelease != "" { DotIdentifierChars(prerelease, true); }
  }

  lemma CoreAfterParse(core: string, prerelease: string, build: string)
    requires ParseCore(core, prerelease, build).Some?
    ensures var v := ParseCore(core, prerelease, build).value;
            CoreText(v.major, v.minor, v.patch) == core && v.prerelease == prerelease && v.build == build
            && v.major <= INT_MAX && v.minor <= INT_MAX && v.patch <= INT_MAX
  {
    var numbers := Split(core, '.');
    JoinSplit(core, '.');
    JoinThree(numbers);
    TextOfValue(numbers[0]);
    TextOfValue(numbers[1]);
    TextOfValue(numbers[2]);
  }

  /** toString(parse(t)) = t, and everything parse returns is well formed. */
  lemma ToStringAfterParse(text: string)
    requires Parse(text).Some?
    ensures ToString(Parse(text).value) == text
    ensures WellFormed(Parse(text).value)
  {
    hide ParseCore, CoreText, ValidDotIdentifiers;
    var plus := Find(text, '+');
    var rest := text[..plus];
    var build := if plus < |text| then text[plus + 1..] else "";
    var dash := Find(rest, '-');
    var prerelease := if dash < |rest| then rest[dash + 1..] else "";
    CoreAfterParse(rest[..dash], prerelease, build);
    assert rest == rest[..dash] + Suffix("-", prerelease) by { IdentifiersNonEmpty(prerelease, true); }
    assert text == rest + Suffix("+", build) by { IdentifiersNonEmpty(build, false); }
  }

  // ---------- precedence, as section 11 of Semantic Versioning 2.0.0 states it ----------

  predicate IdentifierLess(a: string, b: string) {
    if Numeric(a) && Numeric(b) then Value(a) < Value(b)
    else if Numeric(a) then true
    else if Numeric(b) then false
    else Less(a, b)
  }

  predicate FieldsLess(a: seq<string>, b: seq<string>) {
    |b| > 0 && (|a| == 0 || IdentifierLess(a[0], b[0]) || (a[0] == b[0] && FieldsLess(a[1..], b[1..])))
  }

  predicate PrereleaseLess(a: string, b: string) {
    a != "" && (b == "" || FieldsLess(Split(a, '.'), Split(b, '.')))
  }

  predicate Precedes(v: Version, w: Version) {
    if v.major != w.major then v.major < w.major
    else if v.minor != w.minor then v.minor < w.minor
    else if v.patch != w.patch then v.patch < w.patch
    else PrereleaseLess(v.prerelease, w.prerelease)
  }

  /** operator==: build metadata is ignored. */
  predicate SamePrecedence(v: Version, w: Version) {
    v.major == w.major && v.minor == w.minor && v.patch == w.patch && v.prerelease == w.prerelease
  }

  predicate ValidFields(fields: seq<string>) {
    forall p :: p in fields ==> ValidIdentifier(p, true)
  }

  lemma IdentifierTrichotomy(a: string, b: string)
    requires ValidIdentifier(a, true) && ValidIdentifier(b, true)
    ensures IdentifierLess(a, b) || a == b || IdentifierLess(b, a)
    ensures !(IdentifierLess(a, b) && IdentifierLess(b, a))
    ensures IdentifierLess(a, b) ==> a != b
  {
    if Numeric(a) && Numeric(b) {
      LengthThenText(a, b);
    } else {
      LessTotal(a, b);
      LessIrreflexive(a);
      if Less(a, b) && Less(b, a) { LessTransitive(a, b, a); }
    }
  }

  lemma IdentifierTransitive(a: string, b: string, c: string)
    requires IdentifierLess(a, b) && IdentifierLess(b, c)
    ensures IdentifierLess(a, c)
  {
    if !Numeric(a) && !Numeric(b) && !Numeric(c) { LessTransitive(a, b, c); }
  }

  lemma {:induction false} FieldsTrichotomy(a: seq<string>, b: seq<string>)
    requires ValidFields(a) && ValidFields(b)
    ensures FieldsLess(a, b) || a == b || FieldsLess(b, a)
    ensures !(FieldsLess(a, b) && FieldsLess(b, a))
    ensures FieldsLess(a, b) ==> a != b
  {
    if |a| > 0 && |b| > 0 {
      IdentifierTrichotomy(a[0], b[0]);
      assert a == [a[0]] + a[1..] && b == [b[0]] + b[1..];
      FieldsTrichotomy(a[1..], b[1..]);
    }
  }

  lemma {:induction false} FieldsTransitive(a: seq<string>, b: seq<string>, c: seq<string>)
    requires FieldsLess(a, b) && FieldsLess(b, c)
    ensures FieldsLess(a, c)
  {
    if |a| > 0 {
      if IdentifierLess(a[0], b[0]) && IdentifierLess(b[0], c[0]) {
        IdentifierTransitive(a[0], b[0], c[0]);
      } else if a[0] == b[0] == c[0] && !IdentifierLess(a[0], b[0]) && !IdentifierLess(b[0], c[0]) {
        FieldsTransitive(a[1..], b[1..], c[1..]);
      }
    }
  }

  /** Trichotomy up to build metadata: with transitivity below, a strict total order. */
  lemma PrecedesTotal(v: Version, w: Version)
    requires WellFormed(v) && WellFormed(w)
    ensures Precedes(v, w) || SamePrecedence(v, w) || Precedes(w, v)
    ensures !(Precedes(v, w) && Precedes(w, v))
    ensures Precedes(v, w) ==> !SamePrecedence(v, w)
  {
    if v.prerelease != "" && w.prerelease != "" {
      FieldsTrichotomy(Split(v.prerelease, '.'), Split(w.prerelease, '.'));
      if Split(v.prerelease, '.') == Split(w.prerelease, '.') {
        SplitIsInjective(v.prerelease, w.prerelease);
      }
    }
  }

  lemma PrecedesTransitive(u: Version, v: Version, w: Version)
    requires Precedes(u, v) && Precedes(v, w)
    ensures Precedes(u, w)
  {
    if u.prerelease != "" && v.prerelease != "" && w.prerelease != ""
      && PrereleaseLess(u.prerelease, v.prerelease) && PrereleaseLess(v.prerelease, w.prerelease) {
      FieldsTransitive(Split(u.prerelease, '.'), Split(v.prerelease, '.'), Split(w.prerelease, '.'));
    }
  }

  // ---------- the code's comparison ----------

  /** Length first, then text: no number is ever computed. */
  function CompareNumericIdentifier(lhs: string, rhs: string): (r: int)
    requires Canonical(lhs) && Canonical(rhs)
    ensures r < 0 <==> Value(lhs) < Value(rhs)
    ensures r > 0 <==> Value(lhs) > Value(rhs)
  {
    LengthThenText(lhs, rhs);
    LengthThenText(rhs, lhs);
    if |lhs| < |rhs| then -1
    else if |lhs| > |rhs| then 1
    else if Less(lhs, rhs) then -1
    else if Less(rhs, lhs) then 1
    else 0
  }

  lemma {:induction false} SkipEqualPrefix(a: seq<string>, b: seq<string>, i: nat)
    requires i <= |a| && i <= |b| && a[..i] == b[..i]
    requires forall p :: p in a[..i] ==> ValidIdentifier(p, true)
    ensures FieldsLess(a, b) <==> FieldsLess(a[i..], b[i..])
  {
    if i > 0 {
      assert a[0] == a[..i][0] == b[..i][0] == b[0];
      assert a[0] in a[..i];
      IdentifierTrichotomy(a[0], b[0]);
      assert a[1..][..i - 1] == a[..i][1..] == b[..i][1..] == b[1..][..i - 1];
      SkipEqualPrefix(a[1..], b[1..], i - 1);
      assert a[1..][i - 1..] == a[i..] && b[1..][i - 1..] == b[i..];
    } else {
      assert a[0..] == a && b[0..] == b;
    }
  }

  method ComparePrerelease(lhs: string, rhs: string) returns (r: int)
    requires lhs == "" || ValidDotIdentifiers(lhs, true)
    requires rhs == "" || ValidDotIdentifiers(rhs, true)
    ensures r < 0 <==> PrereleaseLess(lhs, rhs)
    ensures r > 0 <==> PrereleaseLess(rhs, lhs)
    ensures r == 0 <==> lhs == rhs
  {
    if lhs == "" && rhs == "" { return 0; }
    if lhs == "" { return 1; }
    if rhs == "" { return -1; }
    var left := SplitText(lhs, '.');
    var right := SplitText(rhs, '.');
    FieldsTrichotomy(left, right);
    FieldsTrichotomy(right, left);
    if left == right { SplitIsInjective(lhs, rhs); }
    var count := if |left| < |right| then |left| else |right|;
    var i := 0;
    while i < count
      invariant 0 <= i <= count
      invariant left[..i] == right[..i]
    {
      var a, b := left[i], right[i];
      assert a in left && b in right;
      SkipEqualPrefix(left, right, i);
      SkipEqualPrefix(right, left, i);
      assert left[i..][0] == a && right[i..][0] == b;
      IdentifierTrichotomy(a, b);
      if Numeric(a) && Numeric(b) {
        var compared := CompareNumericIdentifier(a, b);
        if compared != 0 { return compared; }
        LengthThenText(a, b);
      } else if Numeric(a) != Numeric(b) {
        return if Numeric(a) then -1 else 1;
      } else {
        if Less(a, b) { return -1; }
        if Less(b, a) { return 1; }
        LessTotal(a, b);
      }
      assert left[..i + 1] == left[..i] + [a] && right[..i + 1] == right[..i] + [b];
      i := i + 1;
    }
    SkipEqualPrefix(left, right, i);
    SkipEqualPrefix(right, left, i);
    if |left| < |right| { return -1; }
    if |left| > |right| { return 1; }
    assert left == left[..i] && right == right[..i];
    return 0;
  }

  /** operator<, in the code's order of tests, decides the specified precedence. */
  method LessThan(lhs: Version, rhs: Version) returns (less: bool)
    requires WellFormed(lhs) && WellFormed(rhs)
    ensures less <==> Precedes(lhs, rhs)
  {
    if lhs.major != rhs.major { return lhs.major < rhs.major; }
    if lhs.minor != rhs.minor { return lhs.minor < rhs.minor; }
    if lhs.patch != rhs.patch { return lhs.patch < rhs.patch; }
    var compared := ComparePrerelease(lhs.prerelease, rhs.prerelease);
    return compared < 0;
  }
}
