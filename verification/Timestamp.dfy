/**
  Completion timestamps: civil-date arithmetic and RFC 3339 text
  (src/ApplyTransactionReceipt.cpp, src/util/Rfc3339.cpp, tools/evidence_contract.py).
  The reference calendar is the Gregorian day count: leap years, month lengths,
  one day after another.
*/
module Timestamps {
  import opened Wrappers
  import opened Decimal

  datatype Instant = Instant(seconds: int, nanoseconds: nat)
  datatype CivilDate = CivilDate(year: int, month: int, day: int)

  const MIN_SECONDS: int := -62135596800
  const MAX_SECONDS: int := 253402300799
  const NANOS: nat := 1000000000

  /** Exactly the instants formatApplyCompletionTimestamp accepts. */
  predicate InRange(t: Instant) {
    MIN_SECONDS <= t.seconds <= MAX_SECONDS && t.nanoseconds < NANOS
  }

  // ---------- the reference calendar ----------

  predicate IsLeapYear(y: int) { y % 4 == 0 && (y % 100 != 0 || y % 400 == 0) }

  function DaysInMonth(y: int, m: int): int
    requires 1 <= m <= 12
  {
    if m == 2 then (if IsLeapYear(y) then 29 else 28)
    else if m == 4 || m == 6 || m == 9 || m == 11 then 30 else 31
  }

  predicate ValidDate(c: CivilDate) {
    1 <= c.year <= 9999 && 1 <= c.month <= 12 && 1 <= c.day <= DaysInMonth(c.year, c.month)
  }

  function DaysBeforeYear(y: int): int
    requires y >= 1
  {
    if y == 1 then 0 else DaysBeforeYear(y - 1) + (if IsLeapYear(y - 1) then 366 else 365)
  }

  function DaysBeforeMonth(y: int, m: int): int
    requires 1 <= m <= 12
  {
    if m == 1 then 0 else DaysBeforeMonth(y, m - 1) + DaysInMonth(y, m - 1)
  }

  /** Day number of a date, 0001-01-01 being day 1 (Python's date.toordinal). */
  function Ordinal(c: CivilDate): int
    requires ValidDate(c)
  {
    DaysBeforeYear(c.year) + DaysBeforeMonth(c.year, c.month) + c.day
  }

  /** The ordinal of 1970-01-01. */
  const EPOCH_ORDINAL: int := 719163

  lemma DivisionSteps(n: nat)
    ensures (n + 1) / 4 == n / 4 + (if (n + 1) % 4 == 0 then 1 else 0)
    ensures (n + 1) / 100 == n / 100 + (if (n + 1) % 100 == 0 then 1 else 0)
    ensures (n + 1) / 400 == n / 400 + (if (n + 1) % 400 == 0 then 1 else 0)
  {
  }

  lemma CenturyDivides(n: nat)
    ensures n % 100 == 0 ==> n % 4 == 0
    ensures n % 400 == 0 ==> n % 100 == 0
  {
    HundredIsFourfold(n / 100);
    FourHundredIsHundredfold(n / 400);
  }

  lemma HundredIsFourfold(k: nat)
    ensures (100 * k) % 4 == 0
  {
  }

  lemma FourHundredIsHundredfold(k: nat)
    ensures (400 * k) % 100 == 0
  {
  }

  lemma {:induction false} DaysBeforeYearClosed(y: int)
    requires y >= 1
    ensures DaysBeforeYear(y) == 365 * (y - 1) + LeapYears(y - 1)
  {
    if y > 1 {
      DaysBeforeYearClosed(y - 1);
      NextLeapYears(y - 2);
      hide LeapYears;
    }
  }

  /** The leap years among the years 1 to n. */
  function LeapYears(n: nat): int { n / 4 - n / 100 + n / 400 }

  lemma NextLeapYears(n: nat)
    ensures LeapYears(n + 1) == LeapYears(n) + (if IsLeapYear(n + 1) then 1 else 0)
  {
    DivisionSteps(n);
    CenturyDivides(n + 1);
  }

  function Cumulative(m: int): int
    requires 1 <= m <= 12
  {
    if m == 1 then 0 else if m == 2 then 31 else if m == 3 then 59 else if m == 4 then 90
    else if m == 5 then 120 else if m == 6 then 151 else if m == 7 then 181 else if m == 8 then 212
    else if m == 9 then 243 else if m == 10 then 273 else if m == 11 then 304 else 334
  }

  lemma {:induction false} DaysBeforeMonthClosed(y: int, m: int)
    requires 1 <= m <= 12
    ensures DaysBeforeMonth(y, m) == Cumulative(m) + (if m > 2 && IsLeapYear(y) then 1 else 0)
  {
    if m > 1 { DaysBeforeMonthClosed(y, m - 1); }
  }

  // ---------- civilFromDays and daysFromCivil ----------

  /** C++ integer division truncates toward zero. */
  function TruncDiv(a: int, b: int): int
    requires b > 0
  { if a >= 0 then a / b else -((-a) / b) }

  function CivilFromDays(day: int): CivilDate {
    var days := day + 719468;
    var era := TruncDiv(if days >= 0 then days else days - 146096, 146097);
    var dayOfEra := days - era * 146097;
    var yearOfEra := (dayOfEra - dayOfEra / 1460 + dayOfEra / 36524 - dayOfEra / 146096) / 365;
    var dayOfYear := dayOfEra - (365 * yearOfEra + yearOfEra / 4 - yearOfEra / 100);
    FromMarchYear(yearOfEra + era * 400, dayOfYear)
  }

  /** Month and day of the given day of a year that starts on 1 March. */
  function FromMarchYear(year: int, dayOfYear: int): CivilDate {
    var monthPrime := (5 * dayOfYear + 2) / 153;
    var d := dayOfYear - (153 * monthPrime + 2) / 5 + 1;
    var month := monthPrime + (if monthPrime < 10 then 3 else -9);
    CivilDate(year + (if month <= 2 then 1 else 0), month, d)
  }

  function DaysFromCivil(c: CivilDate): int
    requires 1 <= c.month <= 12
  {
    var year := c.year - (if c.month <= 2 then 1 else 0);
    var era := TruncDiv(if year >= 0 then year else year - 399, 400);
    var yearOfEra := year - era * 400;
    var adjustedMonth := c.month + (if c.month > 2 then -3 else 9);
    var dayOfYear := (153 * adjustedMonth + 2) / 5 + c.day - 1;
    era * 146097 + (yearOfEra * 365 + yearOfEra / 4 - yearOfEra / 100 + dayOfYear) - 719468
  }

  /** Days from the start of a 400-year era (which begins on 1 March) to year `y` of it. */
  function EraDays(y: int): int { 365 * y + y / 4 - y / 100 }

  /** Day x of year r of four-year cycle q of century c, all counted inside one era. */
  predicate EraSplit(dayOfEra: int, c: int, q: int, r: int, x: int) {
    && 0 <= c <= 3 && 0 <= q <= 24 && 0 <= r <= 3 && 0 <= x <= 365
    && (x == 365 ==> r == 3 && (q == 24 ==> c == 3))
    && dayOfEra == 36524 * c + 1461 * q + 365 * r + x
  }

  lemma SplitEra(dayOfEra: int) returns (c: int, q: int, r: int, x: int)
    requires 0 <= dayOfEra < 146097
    ensures EraSplit(dayOfEra, c, q, r, x)
  {
    c := if dayOfEra / 36524 < 3 then dayOfEra / 36524 else 3;
    var inCentury := dayOfEra - 36524 * c;
    q := if inCentury / 1461 < 24 then inCentury / 1461 else 24;
    var inCycle := inCentury - 1461 * q;
    r := if inCycle / 365 < 3 then inCycle / 365 else 3;
    x := inCycle - 365 * r;
  }

  lemma EraYear(c: int, q: int, r: int)
    requires 0 <= c <= 3 && 0 <= q <= 24 && 0 <= r <= 3
    ensures var y := 100 * c + 4 * q + r;
            EraDays(y) == 36524 * c + 1461 * q + 365 * r && 0 <= y < 400
  {
    var y := 100 * c + 4 * q + r;
    assert y / 4 == 25 * c + q;
    assert y / 100 == c;
  }

  lemma EraQuotients(dayOfEra: int, c: int, q: int, r: int, x: int)
    requires EraSplit(dayOfEra, c, q, r, x)
    ensures dayOfEra / 1460 == 25 * c + q + (if 24 * c + q + 365 * r + x >= 1460 then 1 else 0)
    ensures dayOfEra / 36524 - dayOfEra / 146096 == c
  {
    var carry := 24 * c + q + 365 * r + x;
    assert dayOfEra == 1460 * (25 * c + q) + carry;
  }

  /** The year-of-era formula picks the year whose days contain dayOfEra. */
  lemma YearOfEra(dayOfEra: int) returns (y: int)
    requires 0 <= dayOfEra < 146097
    ensures y == (dayOfEra - dayOfEra / 1460 + dayOfEra / 36524 - dayOfEra / 146096) / 365
    ensures 0 <= y < 400 && EraDays(y) <= dayOfEra
    ensures dayOfEra < (if y == 399 then 146097 else EraDays(y + 1))
  {
    var c, q, r, x := SplitEra(dayOfEra);
    y := 100 * c + 4 * q + r;
    YearFormula(dayOfEra, c, q, r, x);
    YearContains(dayOfEra, c, q, r, x);
    hide EraDays, EraSplit;
  }

  lemma YearFormula(dayOfEra: int, c: int, q: int, r: int, x: int)
    requires EraSplit(dayOfEra, c, q, r, x)
    ensures (dayOfEra - dayOfEra / 1460 + dayOfEra / 36524 - dayOfEra / 146096) / 365 == 100 * c + 4 * q + r
  {
    EraQuotients(dayOfEra, c, q, r, x);
    YearQuotient(dayOfEra, dayOfEra / 1460, dayOfEra / 36524, dayOfEra / 146096, c, q, r, x);
  }

  lemma YearContains(dayOfEra: int, c: int, q: int, r: int, x: int)
    requires EraSplit(dayOfEra, c, q, r, x)
    ensures var y := 100 * c + 4 * q + r;
            0 <= y < 400 && EraDays(y) <= dayOfEra && dayOfEra < (if y == 399 then 146097 else EraDays(y + 1))
  {
    hide EraDays;
    EraYear(c, q, r);
    NextEraYear(c, q, r);
  }

  lemma YearQuotient(dayOfEra: int, cycles: int, centuries: int, eras: int, c: int, q: int, r: int, x: int)
    requires EraSplit(dayOfEra, c, q, r, x) && centuries - eras == c
    requires cycles == 25 * c + q + (if 24 * c + q + 365 * r + x >= 1460 then 1 else 0)
    ensures (dayOfEra - cycles + centuries - eras) / 365 == 100 * c + 4 * q + r
  {
    var rest := x - (if 24 * c + q + 365 * r + x >= 1460 then 1 else 0);
    assert dayOfEra - cycles + centuries - eras == 365 * (100 * c + 4 * q + r) + rest;
  }

  lemma NextEraYear(c: int, q: int, r: int)
    requires 0 <= c <= 3 && 0 <= q <= 24 && 0 <= r <= 3
    ensures var y := 100 * c + 4 * q + r;
            y < 399 ==> EraDays(y + 1) == 36524 * c + 1461 * q + 365 * r + 365
                        + (if r == 3 && (q < 24 || c == 3) then 1 else 0)
  {
    if r < 3 { EraYear(c, q, r + 1); }
    else if q < 24 { EraYear(c, q + 1, 0); }
    else if c < 3 { EraYear(c + 1, 0, 0); }
  }

  lemma MonthOfYear(dayOfYear: int)
    requires 0 <= dayOfYear <= 365
    ensures var mp := (5 * dayOfYear + 2) / 153;
            var d := dayOfYear - (153 * mp + 2) / 5 + 1;
            0 <= mp <= 11 && 1 <= d <= 31
            && (mp in {1, 3, 6, 8} ==> d <= 30) && (mp == 11 ==> d <= 29)
            && (mp == 11 && d == 29 <==> dayOfYear == 365)
  {
  }

  lemma EraTotal(year: nat) returns (era: nat, y: int)
    ensures year == era * 400 + y
    ensures 0 <= y < 400 && era * 146097 + EraDays(y) == 365 * year + LeapYears(year)
  {
    era := year / 400;
    y := year - era * 400;
    assert year / 4 == 100 * era + y / 4;
    assert year / 100 == 4 * era + y / 100;
  }

  /** daysFromCivil counts Gregorian days from 1970-01-01, on every date of years 1..9999. */
  lemma DaysFromCivilIsOrdinal(c: CivilDate)
    requires ValidDate(c)
    ensures DaysFromCivil(c) == Ordinal(c) - EPOCH_ORDINAL
  {
    hide DaysFromCivil, EraDays, DaysBeforeYear, DaysBeforeMonth, Cumulative, DaysInMonth, LeapYears, IsLeapYear;
    var year := c.year - (if c.month <= 2 then 1 else 0);
    var era, y := EraTotal(year);
    EraInverse(era, y, c);
    DaysBeforeYearClosed(c.year);
    DaysBeforeMonthClosed(c.year, c.month);
    MonthOffset(c.month);
    NextLeapYears(c.year - 1);
  }

  lemma MonthOffset(m: int)
    requires 1 <= m <= 12
    ensures var adjusted := m + (if m > 2 then -3 else 9);
            (153 * adjusted + 2) / 5 == Cumulative(m) + (if m > 2 then -59 else 306)
  {
  }

  const FIRST_DAY: int := -719162
  const LAST_DAY: int := 2932896

  /** A 366-day year of the era ends on the 29 February of a leap year. */
  lemma LongEraYear(era: nat, y: int)
    requires 0 <= y < 400
    ensures (if y == 399 then 146097 else EraDays(y + 1)) - EraDays(y) == 366
            <==> IsLeapYear(era * 400 + y + 1)
    ensures (if y == 399 then 146097 else EraDays(y + 1)) - EraDays(y) <= 366
  {
    DivisionSteps(y);
    CenturyDivides(y + 1);
    SameLeapRule(era, y + 1);
  }

  lemma SameLeapRule(era: nat, k: nat)
    ensures IsLeapYear(era * 400 + k) == IsLeapYear(k)
  {
    FourFold(100 * era, k);
    HundredFold(4 * era, k);
  }

  lemma FourFold(q: nat, k: nat)
    ensures (4 * q + k) % 4 == k % 4
  {
  }

  lemma HundredFold(q: nat, k: nat)
    ensures (100 * q + k) % 100 == k % 100
  {
  }

  /**
    civilFromDays, on every day of years 1..9999: a valid Gregorian date whose
    day count is the input, so it inverts daysFromCivil.
  */
  lemma CivilFromDaysIsGregorian(day: int)
    requires FIRST_DAY <= day <= LAST_DAY
    ensures ValidDate(CivilFromDays(day))
    ensures Ordinal(CivilFromDays(day)) == day + EPOCH_ORDINAL
    ensures DaysFromCivil(CivilFromDays(day)) == day
  {
    hide DaysFromCivil, Ordinal, ValidDate, FromMarchYear, EraDays, CivilFromDays;
    var era, y, dayOfYear := MarchSplit(day);
    YearBounds(day, era, y, dayOfYear);
    MarchYearDate(era, y, dayOfYear);
    DaysFromCivilIsOrdinal(CivilFromDays(day));
  }

  /** civilFromDays finds the year, and the day in it, of a calendar that starts each year on 1 March. */
  lemma MarchSplit(day: int) returns (era: nat, y: int, dayOfYear: int)
    requires FIRST_DAY <= day <= LAST_DAY
    ensures CivilFromDays(day) == FromMarchYear(y + era * 400, dayOfYear)
    ensures 0 <= y < 400 && day + 719468 == era * 146097 + EraDays(y) + dayOfYear
    ensures 0 <= dayOfYear < (if y == 399 then 146097 else EraDays(y + 1)) - EraDays(y)
    ensures 0 <= EraDays(y) + dayOfYear < 146097 && dayOfYear <= 365
  {
    hide FromMarchYear;
    var days := day + 719468;
    era := days / 146097;
    var dayOfEra := days - era * 146097;
    y := YearOfEra(dayOfEra);
    dayOfYear := dayOfEra - EraDays(y);
    LongEraYear(era, y);
  }

  lemma YearBounds(day: int, era: int, y: int, dayOfYear: int)
    requires FIRST_DAY <= day <= LAST_DAY && 0 <= y < 400 && 0 <= dayOfYear <= 365
    requires day + 719468 == era * 146097 + EraDays(y) + dayOfYear
    requires 0 <= EraDays(y) + dayOfYear < 146097
    ensures 0 <= era <= 24
    ensures 1 <= FromMarchYear(y + era * 400, dayOfYear).year <= 9999
  {
    MonthOfYear(dayOfYear);
    assert era < 25 && era > -1;
    if era == 24 && y == 399 { assert EraDays(y) == 145731; }
    if era == 0 && y == 0 { assert EraDays(y) == 0; }
  }

  lemma MarchYearDate(era: nat, y: int, dayOfYear: int)
    requires 0 <= y < 400
    requires 0 <= dayOfYear < (if y == 399 then 146097 else EraDays(y + 1)) - EraDays(y)
    requires 1 <= FromMarchYear(y + era * 400, dayOfYear).year <= 9999
    ensures var c := FromMarchYear(y + era * 400, dayOfYear);
            ValidDate(c) && DaysFromCivil(c) == era * 146097 + EraDays(y) + dayOfYear - 719468
  {
    LongEraYear(era, y);
    MonthOfYear(dayOfYear);
    EraInverse(era, y, FromMarchYear(y + era * 400, dayOfYear));
  }

  lemma EraInverse(era: nat, y: int, c: CivilDate)
    requires 0 <= y < 400 && 1 <= c.month <= 12
    requires c.year == era * 400 + y + (if c.month <= 2 then 1 else 0)
    ensures DaysFromCivil(c) ==
            era * 146097 + EraDays(y) + (153 * (c.month + (if c.month > 2 then -3 else 9)) + 2) / 5 + c.day - 1 - 719468
  {
    var year := era * 400 + y;
    assert year / 400 == era;
  }

  // ---------- RFC 3339 text ----------

  function Zeros(k: nat): (z: string)
    ensures |z| == k && AllDigits(z)
  { seq(k, i => '0') }

  /** A number written with setw(width) and setfill('0'). */
  function Padded(n: nat, width: nat): (s: string)
    ensures AllDigits(s)
  {
    var t := Text(n);
    if |t| < width then Zeros(width - |t|) + t else t
  }

  lemma {:induction false} ZerosValue(k: nat)
    ensures Value(Zeros(k)) == 0
  {
    if k > 0 {
      ZerosValue(k - 1);
      assert Zeros(k)[..k - 1] == Zeros(k - 1);
    }
  }

  lemma PaddedReads(n: nat, width: nat)
    requires width >= 1 && n < Pow10(width)
    ensures |Padded(n, width)| == width && Value(Padded(n, width)) == n
  {
    var t := Text(n);
    CanonicalLowerBound(t);
    if |t| > width { Pow10Monotone(width, |t| - 1); }
    if |t| < width {
      ZerosValue(width - |t|);
      ValueSplit(Zeros(width - |t|), t);
    }
  }

  /** The digits without their trailing zeroes. */
  function Stripped(digits: string): (s: string)
    ensures |s| <= |digits| && s == digits[..|s|]
    ensures |s| > 0 ==> s[|s| - 1] != '0'
    ensures forall i :: |s| <= i < |digits| ==> digits[i] == '0'
  {
    if |digits| > 0 && digits[|digits| - 1] == '0' then Stripped(digits[..|digits| - 1]) else digits
  }

  lemma {:induction false} StrippedValue(digits: string)
    requires AllDigits(digits)
    ensures AllDigits(Stripped(digits))
    ensures Value(digits) == Value(Stripped(digits)) * Pow10(|digits| - |Stripped(digits)|)
  {
    if |digits| > 0 && digits[|digits| - 1] == '0' {
      var front := digits[..|digits| - 1];
      StrippedValue(front);
      ShiftedSum(Value(Stripped(front)), Pow10(|front| - |Stripped(front)|), 0);
    }
  }

  function FractionText(nanoseconds: nat): string {
    if nanoseconds == 0 then "" else "." + Stripped(Padded(nanoseconds, 9))
  }

  function DateTimeText(c: CivilDate, hour: nat, minute: nat, second: nat, tail: string): string
    requires c.year >= 0 && c.month >= 0 && c.day >= 0
  {
    Padded(c.year, 4) + ("-" + (Padded(c.month, 2) + ("-" + (Padded(c.day, 2) + ("T"
    + (Padded(hour, 2) + (":" + (Padded(minute, 2) + (":" + (Padded(second, 2) + tail))))))))))
  }

  lemma DaysStayInRange(seconds: int)
    requires MIN_SECONDS <= seconds <= MAX_SECONDS
    ensures FIRST_DAY <= seconds / 86400 <= LAST_DAY
  {
  }

  /**
    The text formatApplyCompletionTimestamp gives an instant in range.
    Reading it back gives the same instant, in the C++ and in the Python reader.
  */
  function FormatSpec(t: Instant): (text: string)
    requires InRange(t)
    ensures ParseRfc3339(text) == Some(t)
    ensures PythonReads(text, Nanoseconds(t))
  {
    DaysStayInRange(t.seconds);
    CivilFromDaysIsGregorian(t.seconds / 86400);
    var s := t.seconds % 86400;
    ClockSplit(s);
    WrittenReads(t, CivilFromDays(t.seconds / 86400), s / 3600, s % 3600 / 60, s % 60);
    DateTimeText(CivilFromDays(t.seconds / 86400), s / 3600, s % 3600 / 60, s % 60,
                 FractionText(t.nanoseconds) + "Z")
  }

  /** C++ remainder: the sign of the dividend. */
  function TruncMod(a: int, b: int): int
    requires b > 0
  { a - TruncDiv(a, b) * b }

  /** The day split with its sign fix: C++ division rounds toward zero. */
  method SplitDay(seconds: int) returns (days: int, secondsOfDay: int)
    ensures days == seconds / 86400 && secondsOfDay == seconds % 86400
  {
    days := TruncDiv(seconds, 86400);
    secondsOfDay := TruncMod(seconds, 86400);
    if secondsOfDay < 0 {
      days := days - 1;
      secondsOfDay := secondsOfDay + 86400;
    }
  }

  /** The loop that drops trailing zeroes of a non-zero fraction. */
  method StripZeroes(fraction: string) returns (digits: string)
    requires AllDigits(fraction) && Value(fraction) > 0
    ensures digits == Stripped(fraction) && |digits| > 0
  {
    digits := fraction;
    while digits[|digits| - 1] == '0'
      invariant 0 < |digits| && AllDigits(digits)
      invariant Stripped(digits) == Stripped(fraction)
      invariant Value(digits) > 0
      decreases |digits|
    {
      assert Value(digits) == Value(digits[..|digits| - 1]) * 10;
      digits := digits[..|digits| - 1];
    }
  }

  method FormatFraction(nanoseconds: nat) returns (text: string)
    requires nanoseconds < NANOS
    ensures text == FractionText(nanoseconds)
  {
    if nanoseconds == 0 { return ""; }
    NanosecondDigits();
    PaddedReads(nanoseconds, 9);
    var digits := StripZeroes(Padded(nanoseconds, 9));
    return "." + digits;
  }

  lemma NanosecondDigits()
    ensures Pow10(9) == NANOS
  {
    assert Pow10(1) == 10 && Pow10(2) == 100 && Pow10(3) == 1000 && Pow10(4) == 10000 && Pow10(5) == 100000;
    assert Pow10(6) == 1000000 && Pow10(7) == 10000000 && Pow10(8) == 100000000;
  }

  /** formatApplyCompletionTimestamp. */
  method FormatTimestamp(t: Instant) returns (text: Option<string>)
    ensures text == if InRange(t) then Some(FormatSpec(t)) else None
  {
    if t.seconds < MIN_SECONDS || t.seconds > MAX_SECONDS || t.nanoseconds >= NANOS { return None; }
    var days, secondsOfDay := SplitDay(t.seconds);
    DaysStayInRange(t.seconds);
    CivilFromDaysIsGregorian(days);
    var fraction := FormatFraction(t.nanoseconds);
    return Some(DateTimeText(CivilFromDays(days), secondsOfDay / 3600, secondsOfDay % 3600 / 60, secondsOfDay % 60,
                             fraction + "Z"));
  }

  // ---------- reading ----------

  function ReadFixed(text: string, offset: nat, count: nat): Option<nat> {
    if offset + count <= |text| && AllDigits(text[offset..offset + count])
    then Some(Value(text[offset..offset + count])) else None
  }

  /** End of the run of digits that starts at `from`. */
  function DigitRunEnd(text: string, from: nat): (end: nat)
    requires from <= |text|
    ensures from <= end <= |text|
    ensures forall i :: from <= i < end ==> IsDigit(text[i])
    ensures end < |text| ==> !IsDigit(text[end])
    decreases |text| - from
  {
    if from < |text| && IsDigit(text[from]) then DigitRunEnd(text, from + 1) else from
  }

  datatype Fields = Fields(date: CivilDate, secondsOfDay: nat, nanoseconds: nat, zoneStart: nat)

  predicate HasSeparators(text: string) {
    |text| >= 20 && text[4] == '-' && text[7] == '-' && text[10] == 'T' && text[13] == ':' && text[16] == ':'
  }

  /** Fraction digits: 1 to 9 of them, scaled to nanoseconds. */
  function ReadFraction(text: string): Option<(nat, nat)>
    requires |text| >= 20
  {
    if text[19] != '.' then Some((0, 19))
    else
      var end := DigitRunEnd(text, 20);
      if end == 20 || end - 20 > 9 then None
      else Some((Value(text[20..end]) * Pow10(9 - (end - 20)), end))
  }

  function ReadFields(text: string): Option<Fields> {
    if !HasSeparators(text) then None
    else
      var year, month, day := ReadFixed(text, 0, 4), ReadFixed(text, 5, 2), ReadFixed(text, 8, 2);
      var hour, minute, second := ReadFixed(text, 11, 2), ReadFixed(text, 14, 2), ReadFixed(text, 17, 2);
      if year.None? || month.None? || day.None? || hour.None? || minute.None? || second.None? then None
      else
        var date := CivilDate(year.value, month.value, day.value);
        if !ValidDate(date) || hour.value > 23 || minute.value > 59 || second.value > 59 then None
        else
          match ReadFraction(text)
          case None => None
          case Some((nanoseconds, end)) =>
            Some(Fields(date, hour.value * 3600 + minute.value * 60 + second.value, nanoseconds, end))
  }

  /** The zone: Z, or a signed HH:MM that is not -00:00, ending the text. */
  function ReadZone(text: string, position: nat): Option<int> {
    if position + 1 == |text| && text[position] == 'Z' then Some(0)
    else if position + 6 == |text| && text[position] in {'+', '-'} && text[position + 3] == ':' then
      var hour, minute := ReadFixed(text, position + 1, 2), ReadFixed(text, position + 4, 2);
      if hour.None? || minute.None? || hour.value > 23 || minute.value > 59
        || (text[position] == '-' && hour.value == 0 && minute.value == 0) then None
      else
        var offset := hour.value * 3600 + minute.value * 60;
        Some(if text[position] == '-' then -offset else offset)
    else None
  }

  /** parseRfc3339 of src/util/Rfc3339.cpp. */
  function ParseRfc3339(text: string): Option<Instant> {
    match ReadFields(text)
    case None => None
    case Some(f) =>
      match ReadZone(text, f.zoneStart)
      case None => None
      case Some(offset) => Some(Instant(DaysFromCivil(f.date) * 86400 + f.secondsOfDay - offset, f.nanoseconds))
  }

  // ---------- the Python reader ----------

  /** The groups of the pattern in tools/evidence_contract.py. */
  datatype Components = Components(
    year: string, month: string, day: string, hour: string, minute: string, second: string,
    fraction: Option<string>, zone: string)
  {
    function Date(): CivilDate { CivilDate(Number(year), Number(month), Number(day)) }
    function Clock(): nat { Number(hour) * 3600 + Number(minute) * 60 + Number(second) }
    function Rest(): string { (if fraction.Some? then "." + fraction.value else "") + zone }
  }

  function Number(s: string): nat { if AllDigits(s) then Value(s) else 0 }

  predicate Digits(s: string, width: nat) { |s| == width && AllDigits(s) }

  predicate ZoneShape(zone: string) {
    || zone == "Z"
    || (|zone| == 6 && zone[0] in {'+', '-'} && Digits(zone[1..3], 2) && zone[3] == ':' && Digits(zone[4..6], 2))
  }

  /** The text is an instance of the pattern with these groups. */
  predicate Matches(text: string, c: Components) {
    && Digits(c.year, 4) && Digits(c.month, 2) && Digits(c.day, 2)
    && Digits(c.hour, 2) && Digits(c.minute, 2) && Digits(c.second, 2)
    && (c.fraction.Some? ==> 1 <= |c.fraction.value| <= 9 && AllDigits(c.fraction.value))
    && ZoneShape(c.zone)
    && text == c.year + ("-" + (c.month + ("-" + (c.day + ("T"
               + (c.hour + (":" + (c.minute + (":" + (c.second + c.Rest()))))))))))
  }

  /** Seconds east of UTC. */
  function ZoneOffset(zone: string): int {
    if |zone| != 6 then 0
    else
      var offset := Number(zone[1..3]) * 3600 + Number(zone[4..6]) * 60;
      if zone[0] == '+' then offset else -offset
  }

  predicate ZoneInProfile(zone: string) {
    |zone| == 6 ==>
      && Number(zone[1..3]) <= 23 && Number(zone[4..6]) <= 59
      && !(zone[0] == '-' && Number(zone[1..3]) == 0 && Number(zone[4..6]) == 0)
  }

  /** The ranges is_rfc3339_timestamp checks after the pattern. */
  predicate InProfile(c: Components) {
    && ValidDate(c.Date()) && Number(c.hour) <= 23 && Number(c.minute) <= 59 && Number(c.second) <= 59
    && ZoneInProfile(c.zone)
  }

  /** The fraction, padded on the right to nine digits. */
  function PaddedFraction(c: Components): nat {
    if c.fraction.None? || |c.fraction.value| > 9 then 0 else Number(c.fraction.value + Zeros(9 - |c.fraction.value|))
  }

  /** timestamp_nanoseconds, through the ordinal of the date. */
  function PythonValue(c: Components): int {
    var days := if ValidDate(c.Date()) then Ordinal(c.Date()) - EPOCH_ORDINAL else 0;
    (days * 86400 + c.Clock() - ZoneOffset(c.zone)) * NANOS + PaddedFraction(c)
  }

  ghost predicate PythonReads(text: string, nanoseconds: int) {
    exists c :: Matches(text, c) && InProfile(c) && nanoseconds == PythonValue(c)
  }

  function Nanoseconds(t: Instant): int { t.seconds * NANOS + t.nanoseconds }

  /** The Python reader accepts exactly the texts the C++ reader accepts, and gives the same instant. */
  lemma ReadersAgree(text: string, n: int)
    ensures PythonReads(text, n) <==> ParseRfc3339(text).Some? && n == Nanoseconds(ParseRfc3339(text).value)
  {
    hide Matches, InProfile, ParseRfc3339, PythonValue;
    if PythonReads(text, n) {
      var c :| Matches(text, c) && InProfile(c) && n == PythonValue(c);
      MatchParses(text, c);
    }
    if ParseRfc3339(text).Some? {
      var c := ParsedMatches(text);
      MatchParses(text, c);
    }
  }

  /** A run of digits and its separator at position `at` of the text. */
  lemma FieldAt(text: string, at: nat, field: string, separator: char, rest: string)
    requires at <= |text| && text[at..] == field + ([separator] + rest) && AllDigits(field)
    ensures at + |field| < |text| && ReadFixed(text, at, |field|) == Some(Value(field))
    ensures text[at + |field|] == separator && text[at + |field| + 1..] == rest
    ensures text[at + |field|..] == [separator] + rest
  {
    hide Value;
    Peel(text, at, field, [separator] + rest);
    Peel(text, at + |field|, [separator], rest);
    assert text[at + |field|] == text[at + |field|..][0];
  }

  lemma MatchDate(text: string, c: Components, rest: string)
    requires Digits(c.year, 4) && Digits(c.month, 2) && Digits(c.day, 2)
    requires text == c.year + ("-" + (c.month + ("-" + (c.day + ("T" + rest)))))
    ensures |text| >= 11 && text[4] == '-' && text[7] == '-' && text[10] == 'T' && text[11..] == rest
    ensures ReadFixed(text, 0, 4) == Some(Number(c.year))
    ensures ReadFixed(text, 5, 2) == Some(Number(c.month)) && ReadFixed(text, 8, 2) == Some(Number(c.day))
  {
    hide Value, AllDigits, ReadFixed;
    var m2 := c.day + ("T" + rest);
    var m1 := c.month + ("-" + m2);
    assert text[0..] == text;
    FieldAt(text, 0, c.year, '-', m1);
    FieldAt(text, 5, c.month, '-', m2);
    FieldAt(text, 8, c.day, 'T', rest);
  }

  lemma MatchClock(text: string, c: Components)
    requires Digits(c.hour, 2) && Digits(c.minute, 2) && Digits(c.second, 2) && |c.Rest()| >= 1 && |text| >= 11
    requires text[11..] == c.hour + (":" + (c.minute + (":" + (c.second + c.Rest()))))
    ensures |text| >= 20 && text[13] == ':' && text[16] == ':' && text[19..] == c.Rest()
    ensures ReadFixed(text, 11, 2) == Some(Number(c.hour))
    ensures ReadFixed(text, 14, 2) == Some(Number(c.minute)) && ReadFixed(text, 17, 2) == Some(Number(c.second))
  {
    hide Value, AllDigits, ReadFixed, Components.Rest;
    var rest := c.Rest();
    var m2 := c.second + rest;
    var m1 := c.minute + (":" + m2);
    assert rest == [rest[0]] + rest[1..];
    FieldAt(text, 11, c.hour, ':', m1);
    FieldAt(text, 14, c.minute, ':', m2);
    FieldAt(text, 17, c.second, rest[0], rest[1..]);
  }

  lemma FractionValue(f: string)
    requires AllDigits(f) && |f| <= 9
    ensures AllDigits(f + Zeros(9 - |f|)) && Value(f + Zeros(9 - |f|)) == Value(f) * Pow10(9 - |f|)
  {
    hide Value, Pow10, Zeros;
    ZerosValue(9 - |f|);
    ValueSplit(f, Zeros(9 - |f|));
  }

  /** The fraction and the zone of a matching text. */
  lemma MatchFraction(text: string, c: Components)
    requires |text| >= 20 && text[19..] == c.Rest() && ZoneShape(c.zone)
    requires c.fraction.Some? ==> 1 <= |c.fraction.value| <= 9 && AllDigits(c.fraction.value)
    ensures |c.zone| <= |text| && text[|text| - |c.zone|..] == c.zone
    ensures ReadFraction(text) == Some((PaddedFraction(c), |text| - |c.zone|))
  {
    hide Value, Pow10;
    assert |text| == 19 + |c.Rest()|;
    if c.fraction.None? {
      assert text[19] == text[19..][0] == c.zone[0];
    } else {
      var f := c.fraction.value;
      assert text[19..] == "." + (f + c.zone);
      Peel(text, 19, ".", f + c.zone);
      Peel(text, 20, f, c.zone);
      var end := 20 + |f|;
      assert text[19] == text[19..][0] && text[end] == text[end..][0] == c.zone[0];
      forall i | 20 <= i < end ensures IsDigit(text[i]) { assert text[i] == text[20..end][i - 20] == f[i - 20]; }
      RunEndsAt(text, 20, end);
      FractionValue(f);
    }
  }

  lemma MatchZone(text: string, c: Components, p: nat)
    requires ZoneShape(c.zone) && p <= |text| && text[p..] == c.zone
    ensures ReadZone(text, p) == if ZoneInProfile(c.zone) then Some(ZoneOffset(c.zone)) else None
  {
    hide Value, AllDigits;
    assert |text| == p + |c.zone|;
    assert forall i :: 0 <= i < |c.zone| ==> text[p + i] == c.zone[i];
    if c.zone != "Z" {
      assert text[p + 1..p + 3] == c.zone[1..3];
      assert text[p + 4..p + 6] == c.zone[4..6];
    }
  }

  /** What the C++ reader finds at the fixed places of a matching text. */
  predicate ReadsGroups(text: string, c: Components) {
    && HasSeparators(text)
    && ReadFixed(text, 0, 4) == Some(Number(c.year)) && ReadFixed(text, 5, 2) == Some(Number(c.month))
    && ReadFixed(text, 8, 2) == Some(Number(c.day)) && ReadFixed(text, 11, 2) == Some(Number(c.hour))
    && ReadFixed(text, 14, 2) == Some(Number(c.minute)) && ReadFixed(text, 17, 2) == Some(Number(c.second))
    && |c.zone| <= |text| && ReadFraction(text) == Some((PaddedFraction(c), |text| - |c.zone|))
    && ReadZone(text, |text| - |c.zone|) == if ZoneInProfile(c.zone) then Some(ZoneOffset(c.zone)) else None
  }

  lemma MatchReads(text: string, c: Components)
    requires Matches(text, c)
    ensures ReadsGroups(text, c)
  {
    hide ReadFixed, ReadFraction, ReadZone, Number, Components.Rest;
    hide ZoneInProfile, ZoneOffset, PaddedFraction, AllDigits;
    MatchDate(text, c, c.hour + (":" + (c.minute + (":" + (c.second + c.Rest())))));
    RestIsThere(c);
    MatchClock(text, c);
    MatchFraction(text, c);
    MatchZone(text, c, |text| - |c.zone|);
  }

  lemma RestIsThere(c: Components)
    requires ZoneShape(c.zone)
    ensures |c.Rest()| >= 1
  {
  }

  /** On a matching text the C++ reader gives what the groups mean. */
  lemma MatchParses(text: string, c: Components)
    requires Matches(text, c)
    ensures InProfile(c) <==> ParseRfc3339(text).Some?
    ensures InProfile(c) ==> Nanoseconds(ParseRfc3339(text).value) == PythonValue(c)
    ensures InProfile(c) ==> ParseRfc3339(text).value.nanoseconds == PaddedFraction(c)
  {
    hide Matches, ReadFixed, ReadFraction, ReadZone, Ordinal;
    hide DaysFromCivil, ValidDate, Number, PaddedFraction, ZoneOffset;
    hide ZoneInProfile;
    MatchReads(text, c);
    if ValidDate(c.Date()) { DaysFromCivilIsOrdinal(c.Date()); }
  }

  // ---------- the written text ----------

  /** The groups of the text FormatSpec writes. */
  function Written(date: CivilDate, hour: nat, minute: nat, second: nat, nanoseconds: nat): Components
    requires ValidDate(date)
  {
    Components(
      Padded(date.year, 4), Padded(date.month, 2), Padded(date.day, 2), Padded(hour, 2), Padded(minute, 2),
      Padded(second, 2), if nanoseconds == 0 then None else Some(Stripped(Padded(nanoseconds, 9))), "Z")
  }

  lemma WrittenGroups(date: CivilDate, hour: nat, minute: nat, second: nat, nanoseconds: nat)
    requires ValidDate(date) && hour <= 23 && minute <= 59 && second <= 59
    ensures var c := Written(date, hour, minute, second, nanoseconds);
            && Digits(c.year, 4) && Digits(c.month, 2) && Digits(c.day, 2)
            && Digits(c.hour, 2) && Digits(c.minute, 2) && Digits(c.second, 2)
            && c.Date() == date && c.Clock() == hour * 3600 + minute * 60 + second && InProfile(c)
  {
    SmallPowers();
    PaddedReads(date.year, 4);
    PaddedReads(date.month, 2);
    PaddedReads(date.day, 2);
    PaddedReads(hour, 2);
    PaddedReads(minute, 2);
    PaddedReads(second, 2);
    hide Padded, Value, Pow10, IsLeapYear, DaysInMonth;
  }

  lemma WrittenFraction(date: CivilDate, hour: nat, minute: nat, second: nat, nanoseconds: nat)
    requires ValidDate(date) && nanoseconds < NANOS
    ensures var c := Written(date, hour, minute, second, nanoseconds);
            && PaddedFraction(c) == nanoseconds
            && (c.fraction.Some? ==> 1 <= |c.fraction.value| <= 9 && AllDigits(c.fraction.value))
            && c.Rest() == FractionText(nanoseconds) + "Z"
  {
    if nanoseconds > 0 {
      NanosecondDigits();
      var padded := Padded(nanoseconds, 9);
      PaddedReads(nanoseconds, 9);
      StrippedValue(padded);
      FractionValue(Stripped(padded));
      hide Padded, Pow10;
    }
  }

  /** The written text is an instance of the pattern. */
  lemma WrittenMatches(date: CivilDate, hour: nat, minute: nat, second: nat, nanoseconds: nat)
    requires ValidDate(date) && hour <= 23 && minute <= 59 && second <= 59 && nanoseconds < NANOS
    ensures Matches(DateTimeText(date, hour, minute, second, FractionText(nanoseconds) + "Z"),
                    Written(date, hour, minute, second, nanoseconds))
  {
    WrittenGroups(date, hour, minute, second, nanoseconds);
    WrittenFraction(date, hour, minute, second, nanoseconds);
    hide Padded, Digits, ValidDate, InProfile, PaddedFraction, FractionText;
    hide Components.Rest, Components.Clock, Components.Date;
  }

  lemma WrittenValue(date: CivilDate, hour: nat, minute: nat, second: nat, nanoseconds: nat)
    requires ValidDate(date) && hour <= 23 && minute <= 59 && second <= 59 && nanoseconds < NANOS
    ensures PythonValue(Written(date, hour, minute, second, nanoseconds))
            == (DaysFromCivil(date) * 86400 + hour * 3600 + minute * 60 + second) * NANOS + nanoseconds
  {
    WrittenGroups(date, hour, minute, second, nanoseconds);
    WrittenFraction(date, hour, minute, second, nanoseconds);
    DaysFromCivilIsOrdinal(date);
    hide ValidDate, Ordinal, DaysFromCivil, InProfile, PaddedFraction, Digits;
    hide FractionText, Components.Rest, Components.Clock, Components.Date;
  }

  /** It means the instant it was written for. */
  lemma WrittenReads(t: Instant, date: CivilDate, hour: nat, minute: nat, second: nat)
    requires ValidDate(date) && hour <= 23 && minute <= 59 && second <= 59 && t.nanoseconds < NANOS
    requires DaysFromCivil(date) * 86400 + hour * 3600 + minute * 60 + second == t.seconds
    ensures var text := DateTimeText(date, hour, minute, second, FractionText(t.nanoseconds) + "Z");
            ParseRfc3339(text) == Some(t) && PythonReads(text, Nanoseconds(t))
  {
    hide Written, Digits, DaysFromCivil, InProfile, PaddedFraction, PythonValue, ParseRfc3339, Matches;
    hide DateTimeText, FractionText, ZoneOffset, Components.Rest, Components.Clock, Components.Date;
    var text := DateTimeText(date, hour, minute, second, FractionText(t.nanoseconds) + "Z");
    var c := Written(date, hour, minute, second, t.nanoseconds);
    WrittenGroups(date, hour, minute, second, t.nanoseconds);
    WrittenFraction(date, hour, minute, second, t.nanoseconds);
    WrittenValue(date, hour, minute, second, t.nanoseconds);
    WrittenMatches(date, hour, minute, second, t.nanoseconds);
    MatchParses(text, c);
    assert ParseRfc3339(text).value.seconds == t.seconds;
  }

  lemma Cut(text: string, at: nat, width: nat)
    requires at + width < |text|
    ensures text[at..] == text[at..at + width] + ([text[at + width]] + text[at + width + 1..])
  {
  }

  /** Every text the C++ reader accepts is an instance of the pattern. */
  lemma ParsedMatches(text: string) returns (c: Components)
    requires ParseRfc3339(text).Some?
    ensures Matches(text, c)
  {
    var zoneStart := ReadFields(text).value.zoneStart;
    c := Components(
      text[0..4], text[5..7], text[8..10], text[11..13], text[14..16], text[17..19],
      if text[19] == '.' then Some(text[20..zoneStart]) else None, text[zoneStart..]);
    ParsedRest(text, c);
    ParsedDigits(text, c);
    hide ParseRfc3339, ReadFraction, ReadZone, ReadFields, ReadFixed, ZoneShape, Components.Rest, Digits, AllDigits;
    CutAll(text, c.Rest());
  }

  lemma ParsedDigits(text: string, c: Components)
    requires ReadFields(text).Some? && ReadFields(text).value.zoneStart <= |text| && |text| >= 20
    requires c.year == text[0..4] && c.month == text[5..7] && c.day == text[8..10]
    requires c.hour == text[11..13] && c.minute == text[14..16] && c.second == text[17..19]
    requires c.fraction == if text[19] == '.' then Some(text[20..ReadFields(text).value.zoneStart]) else None
    ensures Digits(c.year, 4) && Digits(c.month, 2) && Digits(c.day, 2)
    ensures Digits(c.hour, 2) && Digits(c.minute, 2) && Digits(c.second, 2)
    ensures c.fraction.Some? ==> 1 <= |c.fraction.value| <= 9 && AllDigits(c.fraction.value)
    ensures HasSeparators(text)
  {
    hide Value, ValidDate;
  }

  lemma CutAll(text: string, rest: string)
    requires HasSeparators(text) && text[19..] == rest
    ensures text == text[0..4] + ("-" + (text[5..7] + ("-" + (text[8..10] + ("T"
                    + (text[11..13] + (":" + (text[14..16] + (":" + (text[17..19] + rest))))))))))
  {
    assert text == text[0..];
    Cut(text, 0, 4);
    Cut(text, 5, 2);
    Cut(text, 8, 2);
    Cut(text, 11, 2);
    Cut(text, 14, 2);
    assert text[17..] == text[17..19] + text[19..];
  }

  lemma ParsedRest(text: string, c: Components)
    requires ReadFields(text).Some? && ReadZone(text, ReadFields(text).value.zoneStart).Some?
    requires var zoneStart := ReadFields(text).value.zoneStart;
             && zoneStart <= |text| && c.zone == text[zoneStart..] && |text| >= 20
             && c.fraction == if text[19] == '.' then Some(text[20..zoneStart]) else None
    ensures text[19..] == c.Rest() && ZoneShape(c.zone)
  {
    hide Value;
    var p := ReadFields(text).value.zoneStart;
    assert forall i :: 0 <= i < |c.zone| ==> text[p + i] == c.zone[i];
    if |c.zone| == 6 {
      assert text[p + 1..p + 3] == c.zone[1..3];
      assert text[p + 4..p + 6] == c.zone[4..6];
    }
    if text[19] == '.' { assert text[19..] == "." + text[20..p] + text[p..]; }
  }

  lemma Peel(text: string, at: nat, field: string, rest: string)
    requires at <= |text| && text[at..] == field + rest
    ensures at + |field| <= |text|
    ensures text[at..at + |field|] == field && text[at + |field|..] == rest
  {
    assert text[at..][..|field|] == text[at..at + |field|];
    assert text[at..][|field|..] == text[at + |field|..];
  }

  lemma SmallPowers()
    ensures Pow10(2) == 100 && Pow10(4) == 10000
  {
    assert Pow10(0) == 1 && Pow10(1) == 10 && Pow10(3) == 1000;
  }

  lemma {:induction false} RunEndsAt(text: string, from: nat, end: nat)
    requires from <= end < |text| && !IsDigit(text[end])
    requires forall i :: from <= i < end ==> IsDigit(text[i])
    ensures DigitRunEnd(text, from) == end
    decreases end - from
  {
    if from < end { RunEndsAt(text, from + 1, end); }
  }

  lemma ClockSplit(s: nat)
    requires s < 86400
    ensures s / 3600 <= 23 && s % 3600 / 60 <= 59 && s % 60 <= 59
    ensures s / 3600 * 3600 + s % 3600 / 60 * 60 + s % 60 == s
  {
  }
}
