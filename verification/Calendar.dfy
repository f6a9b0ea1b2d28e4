/** ISO date strings: their order as strings, and the days they name in the proleptic Gregorian calendar. */
module Calendar {
  import opened Text
  import opened CompiledTruth
  import opened SortedText

  function Digit(c: char): nat
    requires IsDigit(c)
  {
    c as int - '0' as int
  }

  function Year(s: string): nat
    requires IsDate(s)
  {
    1000 * Digit(s[0]) + 100 * Digit(s[1]) + 10 * Digit(s[2]) + Digit(s[3])
  }

  function Month(s: string): nat
    requires IsDate(s)
  {
    10 * Digit(s[5]) + Digit(s[6])
  }

  function Day(s: string): nat
    requires IsDate(s)
  {
    10 * Digit(s[8]) + Digit(s[9])
  }

  predicate Leap(y: nat) {
    y % 4 == 0 && (y % 100 != 0 || y % 400 == 0)
  }

  function DaysInMonth(y: nat, m: nat): nat {
    if m == 2 then (if Leap(y) then 29 else 28)
    else if m in {4, 6, 9, 11} then 30
    else 31
  }

  function DaysBeforeYear(y: nat): nat
    requires y >= 1
  {
    (y - 1) * 365 + (y - 1) / 4 - (y - 1) / 100 + (y - 1) / 400
  }

  function DaysBeforeMonth(y: nat, m: nat): nat {
    if m <= 1 then 0 else DaysBeforeMonth(y, m - 1) + DaysInMonth(y, m - 1)
  }

  predicate RealDate(s: string) {
    && IsDate(s)
    && Year(s) >= 1 && 1 <= Month(s) <= 12
    && 1 <= Day(s) <= DaysInMonth(Year(s), Month(s))
  }

  /** The ordinal of the day that a timeline date names, if there is such a day. */
  function ParseDate(s: string): Option<int> {
    if RealDate(s) then Some(DaysBeforeYear(Year(s)) + DaysBeforeMonth(Year(s), Month(s)) + Day(s)) else None
  }

  // ---- The string order of real dates is the order of days ----

  lemma MultiplesUpTo(y: nat, d: nat)
    requires y >= 1 && d in {4, 100, 400}
    ensures y / d == (y - 1) / d + if y % d == 0 then 1 else 0
  {
  }

  /** A leap day is one more multiple of 4, less one of 100, and one more of 400. */
  lemma LeapCount(y: nat)
    ensures (if Leap(y) then 1 else 0)
      == (if y % 4 == 0 then 1 else 0) - (if y % 100 == 0 then 1 else 0) + (if y % 400 == 0 then 1 else 0)
  {
    if y % 100 == 0 {
      HundredsAreFours(y);
    }
    if y % 400 == 0 {
      FourHundredsAreHundreds(y);
    }
  }

  lemma HundredsAreFours(y: nat)
    requires y % 100 == 0
    ensures y % 4 == 0
  {
    assert y % 4 == 4 * (25 * (y / 100) - y / 4);
  }

  lemma FourHundredsAreHundreds(y: nat)
    requires y % 400 == 0
    ensures y % 100 == 0
  {
    assert y % 100 == 100 * (4 * (y / 400) - y / 100);
  }

  lemma YearLength(y: nat)
    requires y >= 1
    ensures DaysBeforeYear(y + 1) == DaysBeforeYear(y) + if Leap(y) then 366 else 365
  {
    hide Leap;
    MultiplesUpTo(y, 4);
    MultiplesUpTo(y, 100);
    MultiplesUpTo(y, 400);
    LeapCount(y);
  }

  lemma {:induction false} YearsGrow(y: nat, z: nat)
    requires 1 <= y < z
    ensures DaysBeforeYear(y) + (if Leap(y) then 366 else 365) <= DaysBeforeYear(z)
  {
    hide DaysBeforeYear, Leap;
    if y + 1 < z {
      YearsGrow(y, z - 1);
      YearLength(z - 1);
    } else {
      YearLength(y);
    }
  }

  lemma {:induction false} MonthsGrow(y: nat, m: nat, n: nat)
    requires 1 <= m < n
    ensures DaysBeforeMonth(y, m) + DaysInMonth(y, m) <= DaysBeforeMonth(y, n)
  {
    if m + 1 < n { MonthsGrow(y, m, n - 1); }
  }

  lemma MonthsFill(y: nat)
    ensures DaysBeforeMonth(y, 12) == if Leap(y) then 335 else 334
  {
    hide Leap;
    assert DaysBeforeMonth(y, 2) == DaysBeforeMonth(y, 1) + 31;
    assert DaysBeforeMonth(y, 3) == DaysBeforeMonth(y, 2) + DaysInMonth(y, 2);
    assert DaysBeforeMonth(y, 5) == DaysBeforeMonth(y, 3) + 61;
    assert DaysBeforeMonth(y, 7) == DaysBeforeMonth(y, 5) + 61;
    assert DaysBeforeMonth(y, 9) == DaysBeforeMonth(y, 7) + 62;
    assert DaysBeforeMonth(y, 11) == DaysBeforeMonth(y, 9) + 61;
    assert DaysBeforeMonth(y, 12) == DaysBeforeMonth(y, 11) + 30;
  }

  /** A day lies within its year. */
  lemma DayOfYear(y: nat, m: nat, d: nat)
    requires 1 <= m <= 12 && d <= DaysInMonth(y, m)
    ensures DaysBeforeMonth(y, m) + d <= if Leap(y) then 366 else 365
  {
    hide Leap;
    MonthsFill(y);
    if m < 12 { MonthsGrow(y, m, 12); }
  }

  /** Two dates, compared field by field. */
  predicate Earlier(a: string, b: string)
    requires IsDate(a) && IsDate(b)
  {
    || Year(a) < Year(b)
    || (Year(a) == Year(b) && Month(a) < Month(b))
    || (Year(a) == Year(b) && Month(a) == Month(b) && Day(a) < Day(b))
  }

  lemma EarlierByDifference(a: string, b: string, i: nat)
    requires IsDate(a) && IsDate(b) && i < 10 && a[i] < b[i] && forall j | 0 <= j < i :: a[j] == b[j]
    ensures Earlier(a, b)
  {
    assert i != 4 && i != 7;
    if i < 4 {
      YearByDifference(a, b, i);
    } else if i < 7 {
      assert Month(a) < Month(b);
    } else {
      assert Day(a) < Day(b);
    }
  }

  lemma YearByDifference(a: string, b: string, i: nat)
    requires IsDate(a) && IsDate(b) && i < 4 && a[i] < b[i] && forall j | 0 <= j < i :: a[j] == b[j]
    ensures Year(a) < Year(b)
  {
    assert Digit(a[i]) < Digit(b[i]);
  }

  lemma EarlierOrdinal(a: string, b: string)
    requires RealDate(a) && RealDate(b) && Earlier(a, b)
    ensures ParseDate(a).value < ParseDate(b).value
  {
    hide Year, Month, Day, Leap, DaysBeforeYear, DaysInMonth, IsDate, DaysBeforeMonth;
    DayOfYear(Year(a), Month(a), Day(a));
    if Year(a) < Year(b) {
      YearsGrow(Year(a), Year(b));
    } else if Month(a) < Month(b) {
      MonthsGrow(Year(a), Month(a), Month(b));
    }
  }

  /** On real dates the order of the strings is exactly the order of the days. */
  lemma DateOrder(a: string, b: string)
    requires RealDate(a) && RealDate(b)
    ensures StrLe(a, b) <==> ParseDate(a).value <= ParseDate(b).value
  {
    hide RealDate, ParseDate, Earlier;
    RealDatesAreDates(a);
    RealDatesAreDates(b);
    StrLeTotal(a, b);
    if a != b {
      if StrLe(a, b) {
        DateOrderStrict(a, b);
      } else {
        DateOrderStrict(b, a);
      }
    }
  }

  lemma RealDatesAreDates(a: string)
    requires RealDate(a)
    ensures IsDate(a) && |a| == 10 && ParseDate(a).Some?
  {
  }

  lemma DateOrderStrict(a: string, b: string)
    requires RealDate(a) && RealDate(b) && a != b && StrLe(a, b)
    ensures ParseDate(a).value < ParseDate(b).value
  {
    hide ParseDate, Earlier, Year, Month, Day, DaysInMonth, StrLe;
    var i := FirstDifference(a, b);
    EarlierByDifference(a, b, i);
    EarlierOrdinal(a, b);
  }

  // ---- The scale of days ----

  /** The numbers that a date is written with. */
  predicate Names(s: string, y: nat, m: nat, d: nat) {
    && |s| == 10 && s[4] == '-' && s[7] == '-'
    && (forall i | 0 <= i < 10 && i !in {4, 7} :: '0' <= s[i] <= '9')
    && y == 1000 * (s[0] - '0') as int + 100 * (s[1] - '0') as int + 10 * (s[2] - '0') as int + (s[3] - '0') as int
    && m == 10 * (s[5] - '0') as int + (s[6] - '0') as int
    && d == 10 * (s[8] - '0') as int + (s[9] - '0') as int
  }

  const MONTH_LENGTHS: seq<nat> := [31, 28, 31, 30, 31, 30, 31, 31, 30, 31, 30, 31]

  /** A date names a real day exactly if its month has that day, in a leap year one more in February. */
  lemma RealDateMeans(s: string, y: nat, m: nat, d: nat)
    requires Names(s, y, m, d)
    ensures RealDate(s) <==>
      && 1 <= y && 1 <= m <= 12 && 1 <= d
      && d <= MONTH_LENGTHS[m - 1] + if m == 2 && y % 4 == 0 && (y % 100 == 0 ==> y % 400 == 0) then 1 else 0
  {
    NamesParts(s, y, m, d);
    hide Year, Month, Day, IsDate, Names;
    if 1 <= m <= 12 { MonthLength(y, m); }
  }

  lemma NamesParts(s: string, y: nat, m: nat, d: nat)
    ensures Names(s, y, m, d) <==> IsDate(s) && Year(s) == y && Month(s) == m && Day(s) == d
  {
  }

  lemma MonthLength(y: nat, m: nat)
    requires 1 <= m <= 12
    ensures DaysInMonth(y, m) == MONTH_LENGTHS[m - 1] + if m == 2 && Leap(y) then 1 else 0
  {
    hide Leap;
  }

  /** What is not written as a date names no day. */
  lemma NotADate(s: string)
    requires forall y, m, d: nat :: !Names(s, y, m, d)
    ensures ParseDate(s).None?
  {
    if IsDate(s) {
      NamesParts(s, Year(s), Month(s), Day(s));
      assert false;
    }
  }

  /** The numbers of the day after. */
  predicate NextDay(y: nat, m: nat, d: nat, z: nat, n: nat, e: nat) {
    || (z == y && n == m && e == d + 1)
    || (z == y && n == m + 1 && e == 1)
    || (z == y + 1 && m == 12 && n == 1 && e == 1)
  }

  /** The month has no later real day. */
  ghost predicate LastOfMonth(y: nat, m: nat, d: nat) {
    forall s, e: nat | Names(s, y, m, e) && RealDate(s) :: e <= d
  }

  /**
   From one real day to the next the scale advances by one: within a month, from the last day of a month to
   the first of the next, and from the last day of a year to the first of the next.
   */
  lemma DaysAdvanceByOne(a: string, b: string, y: nat, m: nat, d: nat, z: nat, n: nat, e: nat)
    requires Names(a, y, m, d) && Names(b, z, n, e) && RealDate(a) && RealDate(b)
    requires NextDay(y, m, d, z, n, e) && (n != m ==> LastOfMonth(y, m, d))
    ensures ParseDate(b).value == ParseDate(a).value + 1
  {
    NamesParts(a, y, m, d);
    NamesParts(b, z, n, e);
    if n != m {
      LastDay(a, y, m, d);
    }
    hide Names, IsDate, Year, Month, Day, Leap, LastOfMonth;
    if n == m + 1 {
      assert DaysBeforeMonth(y, n) == DaysBeforeMonth(y, m) + DaysInMonth(y, m);
    } else if z == y + 1 {
      MonthsFill(y);
      YearLength(y);
    }
  }

  /** The string of a date, digit by digit. */
  function Digits(n: nat, k: nat): (r: string)
    ensures |r| == k && forall i | 0 <= i < k :: '0' <= r[i] <= '9'
  {
    if k == 0 then "" else Digits(n / 10, k - 1) + ['0' + (n % 10) as char]
  }

  lemma LastDay(a: string, y: nat, m: nat, d: nat)
    requires Names(a, y, m, d) && RealDate(a) && LastOfMonth(y, m, d)
    ensures d == DaysInMonth(y, m)
  {
    NamesParts(a, y, m, d);
    var e := DaysInMonth(y, m);
    var s := a[..8] + Digits(e, 2);
    TwoDigits(e);
    assert s[8..] == Digits(e, 2) && forall i | 0 <= i < 8 :: s[i] == a[i];
    assert Names(s, y, m, e);
    NamesParts(s, y, m, e);
    assert RealDate(s);
  }

  lemma TwoDigits(n: nat)
    requires n < 100
    ensures var s := Digits(n, 2); 10 * (s[0] - '0') as int + (s[1] - '0') as int == n
  {
    assert Digits(n / 10 / 10, 0) == "";
    assert Digits(n / 10, 1) == ['0' + (n / 10 % 10) as char];
  }
}
