/** ISO dates as the platform's UTC date checks them, and their order as strings. */
module Calendar {
  import opened Basics
  import opened Text

  // ---------------------------------------------------------------- days

  predicate IsLeap(y: int) {
    y % 4 == 0 && (y % 100 != 0 || y % 400 == 0)
  }

  /** Day number of 1 January, counted from 1970; divisions round down. */
  function DayFromYear(y: int): int {
    365 * (y - 1970) + (y - 1969) / 4 - (y - 1901) / 100 + (y - 1601) / 400
  }

  /** Days of the year before month `m`, counted from zero; month 12 stands for the whole year. */
  function DaysBefore(y: int, m: int): int
    requires 0 <= m <= 12
  {
    [0, 31, 59, 90, 120, 151, 181, 212, 243, 273, 304, 334, 365][m] + if m >= 2 && IsLeap(y) then 1 else 0
  }

  function DaysInMonth(y: int, m: int): int
    requires 0 <= m < 12
  {
    DaysBefore(y, m + 1) - DaysBefore(y, m)
  }

  /** `Date.UTC` for a year, a month from zero and a day, any of which may run over; years 0 to 99 mean 1900 to 1999. */
  function UtcDay(year: int, month: int, day: int): int {
    var y := (if 0 <= year <= 99 then 1900 + year else year) + month / 12;
    DayFromYear(y) + DaysBefore(y, month % 12) + day - 1
  }

  /** The UTC calendar reads day `t` as this year, month from zero and day. */
  predicate ReadsAs(t: int, year: int, month: int, day: int) {
    0 <= month < 12 && 1 <= day <= DaysInMonth(year, month) && t == DayFromYear(year) + DaysBefore(year, month) + day - 1
  }

  lemma YearLength(y: int)
    ensures DayFromYear(y + 1) == DayFromYear(y) + if IsLeap(y) then 366 else 365
  {
    assert (y - 1968) / 4 == (y - 1969) / 4 + if y % 4 == 0 then 1 else 0;
    assert (y - 1900) / 100 == (y - 1901) / 100 + if y % 100 == 0 then 1 else 0;
    assert (y - 1600) / 400 == (y - 1601) / 400 + if y % 400 == 0 then 1 else 0;
    assert y % 400 == 0 ==> y % 100 == 0;
    assert y % 100 == 0 ==> y % 4 == 0;
  }

  lemma {:induction false} YearsInOrder(y: int, z: int)
    requires y < z
    ensures DayFromYear(y) + DaysBefore(y, 12) <= DayFromYear(z)
    decreases z - y
  {
    YearLength(y);
    if y + 1 < z { YearsInOrder(y + 1, z); }
    hide DayFromYear;
  }

  lemma {:induction false} MonthsInOrder(y: int, m: int, n: int)
    requires 0 <= m < n <= 12
    ensures DaysBefore(y, m) + DaysInMonth(y, m) <= DaysBefore(y, n)
  {
  }

  predicate Earlier(y: int, m: int, d: int, z: int, n: int, e: int) {
    y < z || (y == z && (m < n || (m == n && d < e)))
  }

  /** The calendar runs forward: an earlier year, month and day is an earlier day, and conversely. */
  lemma CalendarOrder(s: int, y: int, m: int, d: int, t: int, z: int, n: int, e: int)
    requires ReadsAs(s, y, m, d) && ReadsAs(t, z, n, e)
    ensures Earlier(y, m, d, z, n, e) <==> s < t
    ensures s == t ==> y == z && m == n && d == e
  {
    OneWay(s, y, m, d, t, z, n, e);
    OneWay(t, z, n, e, s, y, m, d);
  }

  lemma OneWay(s: int, y: int, m: int, d: int, t: int, z: int, n: int, e: int)
    requires ReadsAs(s, y, m, d) && ReadsAs(t, z, n, e)
    ensures Earlier(y, m, d, z, n, e) ==> s < t
  {
    if y < z { YearsInOrder(y, z); if m < 11 { MonthsInOrder(y, m + 1, 12); } }
    if y == z && m < n { MonthsInOrder(y, m, n); }
    hide DayFromYear;
  }

  // ---------------------------------------------------------------- strings

  predicate IsDigits(s: string) {
    forall i :: 0 <= i < |s| ==> '0' <= s[i] <= '9'
  }

  function NumberOf(s: string): nat
    requires IsDigits(s)
  {
    if s == "" then 0
    else
      assert '0' <= s[|s| - 1];
      NumberOf(s[..|s| - 1]) * 10 + (s[|s| - 1] as int - '0' as int)
  }

  predicate DatePattern(s: string) {
    |s| == 10 && s[4] == '-' && s[7] == '-' && IsDigits(s[..4]) && IsDigits(s[5..7]) && IsDigits(s[8..])
  }

  function YearOf(s: string): nat requires DatePattern(s) { NumberOf(s[..4]) }
  function MonthOf(s: string): nat requires DatePattern(s) { NumberOf(s[5..7]) }
  function DayOf(s: string): nat requires DatePattern(s) { NumberOf(s[8..]) }

  /** The pattern matches and the UTC date made from its numbers reads back as the same numbers. */
  function StrictDateOrdinal(s: string): Option<int> {
    if !DatePattern(s) then None
    else
      var t := UtcDay(YearOf(s), MonthOf(s) - 1, DayOf(s));
      if ReadsAs(t, YearOf(s), MonthOf(s) - 1, DayOf(s)) then Some(t) else None
  }

  predicate ValidDate(s: string) {
    StrictDateOrdinal(s).Some?
  }

  /** The dates accepted are the real Gregorian ones from year 100 on: earlier years are read as the twentieth century. */
  lemma AcceptedDates(s: string)
    requires DatePattern(s)
    ensures ValidDate(s) <==> YearOf(s) >= 100 && 1 <= MonthOf(s) <= 12 && 1 <= DayOf(s) <= DaysInMonth(YearOf(s), MonthOf(s) - 1)
  {
    var y, m, d := YearOf(s), MonthOf(s) - 1, DayOf(s);
    hide NumberOf, DayFromYear;
    if 0 <= m < 12 {
      assert m / 12 == 0 && m % 12 == m;
      var end := DayFromYear(y) + DaysBefore(y, 12);
      YearsInOrder(y, 1900 + y);
      if m < 11 { MonthsInOrder(y, m + 1, 12); }
      assert ReadsAs(UtcDay(y, m, d), y, m, d) ==> UtcDay(y, m, d) < end && d >= 1;
      assert y < 100 && d >= 1 ==> UtcDay(y, m, d) >= end;
    }
  }

  lemma {:induction false} LessSplits(a: string, x: string, b: string, y: string)
    requires |a| == |b|
    ensures Less(a + x, b + y) <==> Less(a, b) || (a == b && Less(x, y))
  {
    if a == "" {
      assert a + x == x && b + y == y;
    } else {
      LessSplits(a[1..], x, b[1..], y);
      assert (a + x)[1..] == a[1..] + x && (b + y)[1..] == b[1..] + y;
      assert a == [a[0]] + a[1..] && b == [b[0]] + b[1..];
      if |a| == 1 { LessSplits("", x, "", y); }
    }
  }

  /** Digit strings of one length are ordered as the numbers they write. */
  lemma {:induction false} DigitOrder(a: string, b: string)
    requires |a| == |b| && IsDigits(a) && IsDigits(b)
    ensures Less(a, b) <==> NumberOf(a) < NumberOf(b)
    ensures a == b <==> NumberOf(a) == NumberOf(b)
  {
    if a != "" {
      var n := |a| - 1;
      DigitOrder(a[..n], b[..n]);
      assert a == a[..n] + [a[n]] && b == b[..n] + [b[n]];
      LessSplits(a[..n], [a[n]], b[..n], [b[n]]);
      assert '0' <= a[n] <= '9' && '0' <= b[n] <= '9';
      assert Less([a[n]], [b[n]]) <==> a[n] < b[n];
      hide Less;
    }
  }

  lemma FieldOrder(a: string, b: string)
    requires DatePattern(a) && DatePattern(b)
    ensures Less(a, b) <==> Earlier(YearOf(a), MonthOf(a) - 1, DayOf(a), YearOf(b), MonthOf(b) - 1, DayOf(b))
  {
    assert a == a[..4] + ("-" + (a[5..7] + ("-" + a[8..]))) && b == b[..4] + ("-" + (b[5..7] + ("-" + b[8..])));
    LessSplits(a[..4], "-" + (a[5..7] + ("-" + a[8..])), b[..4], "-" + (b[5..7] + ("-" + b[8..])));
    LessSplits("-", a[5..7] + ("-" + a[8..]), "-", b[5..7] + ("-" + b[8..]));
    LessSplits(a[5..7], "-" + a[8..], b[5..7], "-" + b[8..]);
    LessSplits("-", a[8..], "-", b[8..]);
    LessIsStrictOrder("-", "-", "-");
    DigitOrder(a[..4], b[..4]);
    DigitOrder(a[5..7], b[5..7]);
    DigitOrder(a[8..], b[8..]);
    hide Less, NumberOf, IsDigits;
  }

  /** On valid dates, the order of the strings is the order of the days. */
  lemma StringOrderIsDateOrder(a: string, b: string)
    requires ValidDate(a) && ValidDate(b)
    ensures Less(a, b) <==> StrictDateOrdinal(a).value < StrictDateOrdinal(b).value
  {
    FieldOrder(a, b);
    CalendarOrder(StrictDateOrdinal(a).value, YearOf(a), MonthOf(a) - 1, DayOf(a), StrictDateOrdinal(b).value, YearOf(b), MonthOf(b) - 1, DayOf(b));
    hide Less, ReadsAs, UtcDay, Earlier, NumberOf;
  }
}
