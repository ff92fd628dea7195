/**
  Decimal text and its value: the canonical form (no leading zero), the
  exact overflow-checked reader of updater/ApplyJournal.cpp, and the fact that
  comparing canonical numerals by length and then by text is comparing values.
*/
module Decimal {
  import opened Wrappers
  import opened Topology

  const UINT64_LIMIT: nat := 0x1_0000_0000_0000_0000

  predicate IsDigit(c: char) { '0' <= c <= '9' }

  function DigitValue(c: char): (d: nat)
    requires IsDigit(c)
    ensures d < 10
  { (c - '0') as int }

  function DigitChar(d: nat): (c: char)
    requires d < 10
    ensures IsDigit(c) && DigitValue(c) == d
  { '0' + d as char }

  predicate AllDigits(s: string) { forall i :: 0 <= i < |s| ==> IsDigit(s[i]) }

  /** The number a digit string denotes (zero for the empty string). */
  function Value(s: string): nat
    requires AllDigits(s)
  {
    if |s| == 0 then 0 else Value(s[..|s| - 1]) * 10 + DigitValue(s[|s| - 1])
  }

  predicate Canonical(s: string) {
    |s| > 0 && AllDigits(s) && (|s| > 1 ==> s[0] != '0')
  }

  /** std::to_string of an unsigned value. */
  function Text(n: nat): (s: string)
    ensures Canonical(s) && Value(s) == n
  {
    if n < 10 then
      var s := [DigitChar(n)];
      assert s[..0] == [];
      s
    else
      var head := Text(n / 10);
      var s := head + [DigitChar(n % 10)];
      assert s[..|s| - 1] == head;
      assert |head| > 1 ==> s[0] == head[0];
      assert |head| == 1 ==> head[0] != '0' by {
        assert head[..0] == [];
        assert |head| == 1 ==> Value(head) == DigitValue(head[0]);
      }
      s
  }

  function Pow10(k: nat): (p: nat)
    ensures p >= 1
  { if k == 0 then 1 else 10 * Pow10(k - 1) }

  lemma {:induction false} ValueBound(s: string)
    requires AllDigits(s)
    ensures Value(s) < Pow10(|s|)
  {
    if |s| > 0 { ValueBound(s[..|s| - 1]); }
  }

  /** A canonical numeral of length k >= 2 is at least 10^(k-1). */
  lemma {:induction false} CanonicalLowerBound(s: string)
    requires Canonical(s)
    ensures |s| > 1 ==> Value(s) >= Pow10(|s| - 1)
  {
    if |s| > 1 {
      var head := s[..|s| - 1];
      assert head[0] == s[0];
      if |head| == 1 {
        assert head[..0] == [];
        assert Pow10(1) == 10 * Pow10(0) == 10;
      } else {
        CanonicalLowerBound(head);
      }
    }
  }

  lemma {:induction false} Pow10Monotone(a: nat, b: nat)
    requires a <= b
    ensures Pow10(a) <= Pow10(b)
  {
    if a < b { Pow10Monotone(a, b - 1); }
  }

  lemma {:induction false} ValueSplit(a: string, b: string)
    requires AllDigits(a) && AllDigits(b)
    ensures AllDigits(a + b)
    ensures Value(a + b) == Value(a) * Pow10(|b|) + Value(b)
  {
    if |b| == 0 {
      assert a + b == a;
    } else {
      var b0 := b[..|b| - 1];
      assert (a + b)[..|a + b| - 1] == a + b0;
      ValueSplit(a, b0);
      assert (a + b)[|a + b| - 1] == b[|b| - 1];
      ShiftedSum(Value(a), Pow10(|b0|), Value(b0));
    }
  }

  lemma ShiftedSum(x: nat, p: nat, y: nat)
    ensures (x * p + y) * 10 == x * (10 * p) + y * 10
  {
  }

  lemma ValueHead(s: string)
    requires AllDigits(s) && |s| > 0
    ensures AllDigits(s[1..])
    ensures Value(s) == DigitValue(s[0]) * Pow10(|s| - 1) + Value(s[1..])
  {
    assert s == [s[0]] + s[1..];
    assert [s[0]][..0] == [];
    ValueSplit([s[0]], s[1..]);
    assert Value([s[0]]) == DigitValue(s[0]);
  }

  /** The leading digit decides, then the rest. */
  lemma HeadThenRest(x: nat, y: nat, p: nat, u: nat, v: nat)
    requires u < p && v < p
    ensures x * p + u < y * p + v <==> x < y || (x == y && u < v)
    ensures x * p + u == y * p + v <==> x == y && u == v
  {
    if x < y {
      MulMonotone(x + 1, y, p);
    } else if y < x {
      MulMonotone(y + 1, x, p);
    }
  }

  lemma MulMonotone(x: nat, y: nat, p: nat)
    requires x <= y
    ensures x * p <= y * p
  {
  }

  /** Equal-length digit strings: text order is numeric order. */
  lemma {:induction false} SameLengthOrder(a: string, b: string)
    requires AllDigits(a) && AllDigits(b) && |a| == |b|
    ensures Less(a, b) <==> Value(a) < Value(b)
    ensures a == b <==> Value(a) == Value(b)
  {
    if |a| > 0 {
      ValueHead(a);
      ValueHead(b);
      ValueBound(a[1..]);
      ValueBound(b[1..]);
      hide Value, Pow10, AllDigits;
      HeadThenRest(DigitValue(a[0]), DigitValue(b[0]), Pow10(|a| - 1), Value(a[1..]), Value(b[1..]));
      SameLengthOrder(a[1..], b[1..]);
      assert a == [a[0]] + a[1..] && b == [b[0]] + b[1..];
    }
  }

  /** Length-then-text comparison of canonical numerals is numeric comparison, for numbers of any size. */
  lemma LengthThenText(a: string, b: string)
    requires Canonical(a) && Canonical(b)
    ensures Value(a) < Value(b) <==> |a| < |b| || (|a| == |b| && Less(a, b))
    ensures Value(a) == Value(b) <==> a == b
  {
    if |a| == |b| {
      SameLengthOrder(a, b);
    } else if |a| < |b| {
      ShorterIsSmaller(a, b);
    } else {
      ShorterIsSmaller(b, a);
    }
  }

  lemma ShorterIsSmaller(a: string, b: string)
    requires Canonical(a) && Canonical(b) && |a| < |b|
    ensures Value(a) < Value(b)
  {
    ValueBound(a);
    CanonicalLowerBound(b);
    Pow10Monotone(|a|, |b| - 1);
  }

  /** Canonical text is the only canonical text of its value. */
  lemma TextOfValue(s: string)
    requires Canonical(s)
    ensures Text(Value(s)) == s
  {
    LengthThenText(Text(Value(s)), s);
  }

  lemma {:induction false} PrefixValue(s: string, k: nat)
    requires AllDigits(s) && k <= |s|
    ensures AllDigits(s[..k]) && Value(s[..k]) <= Value(s)
    decreases |s|
  {
    if k == |s| {
      assert s[..k] == s;
    } else {
      PrefixValue(s[..|s| - 1], k);
      assert s[..|s| - 1][..k] == s[..k];
    }
  }

  /** The value of a decimal field, or None where parseDecimal rejects the text. */
  function ReadDecimal(text: string): Option<nat> {
    if Canonical(text) && Value(text) < UINT64_LIMIT then Some(Value(text)) else None
  }

  /**
    parseDecimal (updater/ApplyJournal.cpp:101-124): accepts exactly the
    canonical numerals below 2^64, and reads them exactly; the overflow test
    never rejects a representable value and never lets one wrap.
  */
  method ParseDecimal(text: string) returns (result: Option<nat>)
    ensures result == ReadDecimal(text)
  {
    if |text| == 0 { return None; }
    if |text| > 1 && text[0] == '0' { return None; }
    var value: nat := 0;
    var i := 0;
    while i < |text|
      invariant 0 <= i <= |text|
      invariant AllDigits(text[..i]) && value == Value(text[..i]) && value < UINT64_LIMIT
    {
      var character := text[i];
      if character < '0' || character > '9' {
        assert !IsDigit(text[i]);
        return None;
      }
      var digit := DigitValue(character);
      assert text[..i + 1][..i] == text[..i];
      assert AllDigits(text[..i + 1]);
      assert Value(text[..i + 1]) == value * 10 + digit;
      if value > (UINT64_LIMIT - 1 - digit) / 10 {
        assert value * 10 + digit >= UINT64_LIMIT;
        if AllDigits(text) { PrefixValue(text, i + 1); }
        return None;
      }
      value := value * 10 + digit;
      i := i + 1;
    }
    assert text[..i] == text;
    return Some(value);
  }
}
