/** The calendar of the dates, by its own rules: month lengths, leap years, and one day following the other. */
module Gregorian {
  import opened Basics
  import opened Calendar

  /** Thirty days have April, June, September and November; February has 28, or 29 in a leap year; the rest have 31. */
  function MonthLength(year: int, month: int): int {
    if month == 4 || month == 6 || month == 9 || month == 11 then 30
    else if month == 2 then (if HasLeapDay(year) then 29 else 28)
    else 31
  }

  /** Every fourth year, of the centuries only every fourth. */
  predicate HasLeapDay(year: int) {
    year % 400 == 0 || (year % 4 == 0 && year % 100 != 0)
  }

  predicate IsDate(year: int, month: int, day: int) {
    1 <= month <= 12 && 1 <= day <= MonthLength(year, month)
  }

  datatype Date = Date(year: int, month: int, day: int)

  function Tomorrow(t: Date): Date {
    if t.day < MonthLength(t.year, t.month) then Date(t.year, t.month, t.day + 1)
    else if t.month < 12 then Date(t.year, t.month + 1, 1)
    else Date(t.year + 1, 1, 1)
  }

  function Yesterday(t: Date): Date {
    if t.day > 1 then Date(t.year, t.month, t.day - 1)
    else if t.month > 1 then Date(t.year, t.month - 1, MonthLength(t.year, t.month - 1))
    else Date(t.year - 1, 12, 31)
  }

  predicate OnDate(n: int, t: Date) {
    IsDate(t.year, t.month, t.day) && ReadsAs(n, t.year, t.month - 1, t.day)
  }

  lemma LeapsAgree(year: int)
    ensures HasLeapDay(year) <==> IsLeap(year)
  {
    if year % 400 == 0 { assert year == 4 * (100 * (year / 400)); }
  }

  /** The lengths the day count uses are the months' own. */
  lemma LengthsAgree(year: int, month: int)
    requires 1 <= month <= 12
    ensures DaysInMonth(year, month - 1) == MonthLength(year, month)
  {
    LeapsAgree(year);
    hide HasLeapDay, IsLeap;
  }

  lemma ReadsAsDate(n: int, year: int, month: int, day: int)
    requires ReadsAs(n, year, month - 1, day)
    ensures OnDate(n, Date(year, month, day))
  {
    LengthsAgree(year, month);
    hide DayFromYear;
  }

  /** Day zero is 1 January 1970. */
  lemma Epoch()
    ensures OnDate(0, Date(1970, 1, 1))
  {
  }

  /** The day after a date has the next number. */
  lemma DayAfter(n: int, t: Date)
    requires OnDate(n, t)
    ensures OnDate(n + 1, Tomorrow(t))
  {
    YearLength(t.year);
    LengthsAgree(t.year, t.month);
    hide DayFromYear, IsLeap, HasLeapDay;
  }

  /** The day before a date has the number before. */
  lemma DayBefore(n: int, t: Date)
    requires OnDate(n, t)
    ensures OnDate(n - 1, Yesterday(t))
  {
    YearLength(t.year - 1);
    if t.month > 1 { LengthsAgree(t.year, t.month - 1); }
    hide DayFromYear, IsLeap, HasLeapDay;
  }

  /** Counting from the epoch, forwards or backwards, every day has its date. */
  lemma {:induction false} EveryDayHasADate(n: int)
    ensures exists t :: OnDate(n, t)
    decreases if n < 0 then -n else n
  {
    hide OnDate, Tomorrow, Yesterday;
    if n == 0 {
      Epoch();
    } else if n > 0 {
      EveryDayHasADate(n - 1);
      var t :| OnDate(n - 1, t);
      DayAfter(n - 1, t);
    } else {
      EveryDayHasADate(n + 1);
      var t :| OnDate(n + 1, t);
      DayBefore(n + 1, t);
    }
  }

  /** And no other: a day has one date, and a date one day. */
  lemma OneDatePerDay(n: int, t: Date, m: int, u: Date)
    requires OnDate(n, t) && OnDate(m, u)
    ensures n == m <==> t == u
  {
    CalendarOrder(n, t.year, t.month - 1, t.day, m, u.year, u.month - 1, u.day);
    hide DayFromYear;
  }

  // ---------------------------------------------------------------- date strings

  function Digit(c: char): int {
    c as int - '0' as int
  }

  /** Ten characters, digits but for a hyphen after the year and one after the month. */
  predicate LooksLikeADate(s: string) {
    && |s| == 10 && s[4] == '-' && s[7] == '-'
    && forall i :: 0 <= i < 10 && i != 4 && i != 7 ==> '0' <= s[i] <= '9'
  }

  function Written(s: string): Date
    requires LooksLikeADate(s)
  {
    Date(Digit(s[0]) * 1000 + Digit(s[1]) * 100 + Digit(s[2]) * 10 + Digit(s[3]), Digit(s[5]) * 10 + Digit(s[6]), Digit(s[8]) * 10 + Digit(s[9]))
  }

  lemma {:induction false} TwoDigits(s: string)
    requires |s| == 2 && IsDigits(s)
    ensures NumberOf(s) == Digit(s[0]) * 10 + Digit(s[1])
  {
    assert s[..1][..0] == "" && s[..1][0] == s[0];
    assert NumberOf(s[..1]) == Digit(s[0]);
  }

  lemma FourDigits(s: string)
    requires |s| == 4 && IsDigits(s)
    ensures NumberOf(s) == Digit(s[0]) * 1000 + Digit(s[1]) * 100 + Digit(s[2]) * 10 + Digit(s[3])
  {
    TwoDigits(s[..2]);
    assert s[..3][..2] == s[..2] && s[..3][2] == s[2];
    assert NumberOf(s[..3]) == NumberOf(s[..2]) * 10 + Digit(s[2]);
    assert NumberOf(s) == NumberOf(s[..3]) * 10 + Digit(s[3]);
    hide NumberOf;
  }

  lemma PatternMeans(s: string)
    ensures DatePattern(s) <==> LooksLikeADate(s)
    ensures DatePattern(s) ==> Written(s) == Date(YearOf(s), MonthOf(s), DayOf(s))
  {
    if |s| == 10 {
      assert IsDigits(s[..4]) <==> forall i :: 0 <= i < 4 ==> '0' <= s[i] <= '9';
      assert IsDigits(s[5..7]) <==> '0' <= s[5] <= '9' && '0' <= s[6] <= '9' by { assert s[5..7] == [s[5], s[6]]; }
      assert IsDigits(s[8..]) <==> '0' <= s[8] <= '9' && '0' <= s[9] <= '9' by { assert s[8..] == [s[8], s[9]]; }
    }
    if DatePattern(s) {
      FourDigits(s[..4]);
      TwoDigits(s[5..7]);
      TwoDigits(s[8..]);
    }
    hide NumberOf;
  }

  /** A date string is accepted exactly when it writes a date of the year 100 or later, and counts as that day. */
  lemma AcceptedExactly(s: string)
    ensures ValidDate(s) <==>
      LooksLikeADate(s) && Written(s).year >= 100 && IsDate(Written(s).year, Written(s).month, Written(s).day)
    ensures ValidDate(s) ==> LooksLikeADate(s) && OnDate(StrictDateOrdinal(s).value, Written(s))
  {
    PatternMeans(s);
    if DatePattern(s) {
      AcceptedDates(s);
      if 1 <= MonthOf(s) <= 12 { LengthsAgree(YearOf(s), MonthOf(s)); }
    }
    hide NumberOf, DayFromYear, UtcDay, DatePattern, LooksLikeADate, DaysInMonth, MonthLength;
  }
}
