/**
 UTC timestamps as the job store writes and compares them: `datetime.isoformat()` strings ordered
 by SQLite's byte order.
 */
module Timestamps {
  import opened Wrappers
  import opened Text
  import opened Calendar

  datatype Instant = Instant(date: Date, hour: int, minute: int, second: int, micro: int) {
    predicate Valid() {
      && date.Valid()
      && 0 <= hour < 24 && 0 <= minute < 60 && 0 <= second < 60 && 0 <= micro < 1_000_000
    }
  }

  /** `t.isoformat()` in UTC; the fractional part is left out when it is zero. */
  function IsoFormat(t: Instant): string
    requires t.Valid()
  {
    Padded(t.date.year, 4) + ("-" + (Padded(t.date.month, 2) + ("-" + (Padded(t.date.day, 2) + ("T" +
    (Padded(t.hour, 2) + (":" + (Padded(t.minute, 2) + (":" + (Padded(t.second, 2) + Tail(t.micro)))))))))))
  }

  function Tail(micro: int): string
    requires 0 <= micro < 1_000_000
  {
    if micro == 0 then "+00:00" else "." + (Padded(micro, 6) + "+00:00")
  }

  function SecondsOfDay(t: Instant): int { (t.hour * 60 + t.minute) * 60 + t.second }

  function DayStart(year: int): int
    requires 1 <= year
  {
    if year == 1 then 0 else DayStart(year - 1) + (if Leap(year - 1) then 366 else 365)
  }

  function MonthStart(year: int, month: int): int
    requires 1 <= month
  {
    if month == 1 then 0 else MonthStart(year, month - 1) + DaysInMonth(year, month - 1)
  }

  lemma LeapDaysStep(y: nat)
    ensures (y + 1) / 4 - y / 4 == (if (y + 1) % 4 == 0 then 1 else 0)
    ensures (y + 1) / 100 - y / 100 == (if (y + 1) % 100 == 0 then 1 else 0)
    ensures (y + 1) / 400 - y / 400 == (if (y + 1) % 400 == 0 then 1 else 0)
  {
  }

  /** The years before `year` have 365 days each and one more in every fourth, but for centuries not divisible by 400. */
  lemma {:induction false} GregorianYears(year: int)
    requires 1 <= year
    ensures DayStart(year) == (year - 1) * 365 + (year - 1) / 4 - (year - 1) / 100 + (year - 1) / 400
  {
    if year > 1 {
      GregorianYears(year - 1);
      LeapDaysStep(year - 2);
      LeapIsCounted(year - 1);
      hide Leap;
    }
  }

  lemma LeapIsCounted(y: int)
    ensures (if Leap(y) then 1 else 0) ==
      (if y % 4 == 0 then 1 else 0) - (if y % 100 == 0 then 1 else 0) + (if y % 400 == 0 then 1 else 0)
  {
    if y % 400 == 0 { assert y == 400 * (y / 400); assert y == 100 * (4 * (y / 400)); }
    if y % 100 == 0 { assert y == 100 * (y / 100); assert y == 4 * (25 * (y / 100)); }
  }

  /** Lengths of the months, and of February by the length of its year. */
  lemma GregorianMonths(year: int, month: int)
    requires 1 <= year && 1 <= month <= 12
    ensures month != 2 ==> DaysInMonth(year, month) == [31, 28, 31, 30, 31, 30, 31, 31, 30, 31, 30, 31][month - 1]
    ensures DaysInMonth(year, 2) == 28 + (DayStart(year + 1) - DayStart(year) - 365)
  {
  }

  /** Days since 1 January of year 1. */
  function Ordinal(d: Date): int
    requires d.Valid()
  {
    DayStart(d.year) + MonthStart(d.year, d.month) + d.day - 1
  }

  /** Microseconds since the start of year 1: the time itself, independent of any text form. */
  function Micros(t: Instant): int
    requires t.Valid()
  {
    (Ordinal(t.date) * 86400 + SecondsOfDay(t)) * 1_000_000 + t.micro
  }

  lemma {:induction false} MonthStartMonotone(year: int, m: int, n: int)
    requires 1 <= m < n
    ensures MonthStart(year, m) + DaysInMonth(year, m) <= MonthStart(year, n)
  {
    if m + 1 < n { MonthStartMonotone(year, m, n - 1); }
  }

  lemma {:induction false} DayStartMonotone(y: int, z: int)
    requires 1 <= y < z
    ensures DayStart(y) + (if Leap(y) then 366 else 365) <= DayStart(z)
  {
    if y + 1 < z { DayStartMonotone(y, z - 1); }
  }

  lemma YearLength(year: int)
    ensures MonthStart(year, 12) + 31 == if Leap(year) then 366 else 365
  {
    assert MonthStart(year, 2) == 31;
    assert MonthStart(year, 3) == 31 + DaysInMonth(year, 2);
    assert MonthStart(year, 5) == MonthStart(year, 3) + 61;
    assert MonthStart(year, 7) == MonthStart(year, 5) + 61;
    assert MonthStart(year, 9) == MonthStart(year, 7) + 62;
    assert MonthStart(year, 11) == MonthStart(year, 9) + 61;
  }

  lemma DayOfYearBound(d: Date)
    requires d.Valid()
    ensures 0 <= MonthStart(d.year, d.month) + d.day - 1 < if Leap(d.year) then 366 else 365
  {
    YearLength(d.year);
    if d.month < 12 { MonthStartMonotone(d.year, d.month, 12); }
    if 1 < d.month { MonthStartMonotone(d.year, 1, d.month); }
  }

  /** The field-wise order of dates is the order of days. */
  lemma OrdinalOrder(a: Date, b: Date)
    requires a.Valid() && b.Valid()
    ensures DateLess(a, b) <==> Ordinal(a) < Ordinal(b)
    ensures a == b <==> Ordinal(a) == Ordinal(b)
  {
    OrdinalMonotone(a, b);
    OrdinalMonotone(b, a);
  }

  lemma OrdinalMonotone(a: Date, b: Date)
    requires a.Valid() && b.Valid()
    ensures DateLess(a, b) ==> Ordinal(a) < Ordinal(b)
  {
    DayOfYearBound(a);
    DayOfYearBound(b);
    if a.year < b.year {
      DayStartMonotone(a.year, b.year);
    } else if a.year == b.year && a.month < b.month {
      MonthStartMonotone(a.year, a.month, b.month);
    }
  }

  /** Field-wise comparison of timestamps. */
  predicate InstantLess(a: Instant, b: Instant) {
    || DateLess(a.date, b.date)
    || (a.date == b.date && (SecondsOfDay(a) < SecondsOfDay(b)
                             || (SecondsOfDay(a) == SecondsOfDay(b) && a.micro < b.micro)))
  }

  lemma InstantOrder(a: Instant, b: Instant)
    requires a.Valid() && b.Valid()
    ensures InstantLess(a, b) <==> Micros(a) < Micros(b)
    ensures a == b <==> Micros(a) == Micros(b)
  {
    OrdinalOrder(a.date, b.date);
  }

  lemma SeparatorOrder(c: char, p: string, q: string)
    ensures StrLess([c] + p, [c] + q) <==> StrLess(p, q)
  {
    StrLessConcat([c], [c], p, q);
    StrLessTrichotomy([c], [c]);
  }

  lemma TailOrder(m: int, n: int)
    requires 0 <= m < 1_000_000 && 0 <= n < 1_000_000
    ensures StrLess(Tail(m), Tail(n)) <==> m < n
  {
    StrLessTrichotomy("+00:00", "+00:00");
    if m != 0 && n != 0 {
      SeparatorOrder('.', Padded(m, 6) + "+00:00", Padded(n, 6) + "+00:00");
      assert Pow10(6) == 1_000_000 by { assert Pow10(3) == 1000; }
      PaddedPrefixOrder(m, n, 6, "+00:00", "+00:00");
    } else if m != 0 {
      assert Tail(m)[0] == '.' && Tail(n)[0] == '+';
    } else if n != 0 {
      assert Tail(n)[0] == '.' && Tail(m)[0] == '+';
    }
  }

  function Clock(t: Instant): string
    requires t.Valid()
  {
    Padded(t.hour, 2) + (":" + (Padded(t.minute, 2) + (":" + (Padded(t.second, 2) + Tail(t.micro)))))
  }

  lemma ClockOrder(a: Instant, b: Instant)
    requires a.Valid() && b.Valid()
    ensures StrLess(Clock(a), Clock(b)) <==>
            SecondsOfDay(a) < SecondsOfDay(b) || (SecondsOfDay(a) == SecondsOfDay(b) && a.micro < b.micro)
  {
    var sa, sb := Padded(a.second, 2) + Tail(a.micro), Padded(b.second, 2) + Tail(b.micro);
    var ma, mb := Padded(a.minute, 2) + (":" + sa), Padded(b.minute, 2) + (":" + sb);
    assert Pow10(2) == 100;
    PaddedPrefixOrder(a.hour, b.hour, 2, ":" + ma, ":" + mb);
    SeparatorOrder(':', ma, mb);
    PaddedPrefixOrder(a.minute, b.minute, 2, ":" + sa, ":" + sb);
    SeparatorOrder(':', sa, sb);
    PaddedPrefixOrder(a.second, b.second, 2, Tail(a.micro), Tail(b.micro));
    TailOrder(a.micro, b.micro);
  }

  /**
   Byte order of the stored text is time order, including when one or both timestamps fall on a
   whole second and carry no fractional part.
   */
  lemma IsoOrderIsTimeOrder(a: Instant, b: Instant)
    requires a.Valid() && b.Valid()
    ensures StrLess(IsoFormat(a), IsoFormat(b)) <==> Micros(a) < Micros(b)
    ensures IsoFormat(a) == IsoFormat(b) <==> Micros(a) == Micros(b)
  {
    IsoOrderIsFieldOrder(a, b);
    IsoOrderIsFieldOrder(b, a);
    InstantOrder(a, b);
    InstantOrder(b, a);
    StrLessTrichotomy(IsoFormat(a), IsoFormat(b));
  }

  lemma IsoOrderIsFieldOrder(a: Instant, b: Instant)
    requires a.Valid() && b.Valid()
    ensures StrLess(IsoFormat(a), IsoFormat(b)) <==> InstantLess(a, b)
  {
    var da, db := Padded(a.date.day, 2) + ("T" + Clock(a)), Padded(b.date.day, 2) + ("T" + Clock(b));
    var ma, mb := Padded(a.date.month, 2) + ("-" + da), Padded(b.date.month, 2) + ("-" + db);
    assert IsoFormat(a) == Padded(a.date.year, 4) + ("-" + ma);
    assert IsoFormat(b) == Padded(b.date.year, 4) + ("-" + mb);
    assert Pow10(2) == 100 && Pow10(4) == 10000;
    PaddedPrefixOrder(a.date.year, b.date.year, 4, "-" + ma, "-" + mb);
    SeparatorOrder('-', ma, mb);
    PaddedPrefixOrder(a.date.month, b.date.month, 2, "-" + da, "-" + db);
    SeparatorOrder('-', da, db);
    PaddedPrefixOrder(a.date.day, b.date.day, 2, "T" + Clock(a), "T" + Clock(b));
    SeparatorOrder('T', Clock(a), Clock(b));
    ClockOrder(a, b);
  }

  /** The next calendar day; None past 31 December 9999, where Python raises OverflowError. */
  function NextDay(d: Date): (r: Option<Date>)
    requires d.Valid()
    ensures r.Some? ==> r.value.Valid() && Ordinal(r.value) == Ordinal(d) + 1
  {
    if d.day < DaysInMonth(d.year, d.month) then Some(Date(d.year, d.month, d.day + 1))
    else if d.month < 12 then Some(Date(d.year, d.month + 1, 1))
    else if d.year < 9999 then
      YearLength(d.year);
      Some(Date(d.year + 1, 1, 1))
    else None
  }

  function AddDays(d: Date, n: nat): (r: Option<Date>)
    requires d.Valid()
    ensures r.Some? ==> r.value.Valid() && Ordinal(r.value) == Ordinal(d) + n
    decreases n
  {
    if n == 0 then Some(d)
    else match NextDay(d)
      case None => None
      case Some(next) => AddDays(next, n - 1)
  }

  lemma AddedSeconds(t: Instant, s: nat, day: Date)
    requires t.Valid() && day.Valid() && Ordinal(day) == Ordinal(t.date) + (SecondsOfDay(t) + s) / 86400
    ensures var rest := (SecondsOfDay(t) + s) % 86400;
      var r := Instant(day, rest / 3600, rest / 60 % 60, rest % 60, t.micro);
      r.Valid() && Micros(r) == Micros(t) + s * 1_000_000
  {
    hide Ordinal;
    var total := SecondsOfDay(t) + s;
    ClockOf(total % 86400);
    assert total == total / 86400 * 86400 + total % 86400;
    hide Date.Valid;
  }

  /** Hours, minutes and seconds of a second of the day. */
  lemma ClockOf(rest: nat)
    requires rest < 86400
    ensures rest / 3600 < 24 && (rest / 3600 * 60 + rest / 60 % 60) * 60 + rest % 60 == rest
  {
    assert rest / 60 / 60 == rest / 3600;
    assert rest / 60 == rest / 60 / 60 * 60 + rest / 60 % 60;
  }

  /** `t + timedelta(seconds=s)`; None where the result would pass year 9999. */
  function AddSeconds(t: Instant, s: nat): (r: Option<Instant>)
    requires t.Valid()
    ensures r.Some? ==> r.value.Valid() && Micros(r.value) == Micros(t) + s * 1_000_000
  {
    var total := SecondsOfDay(t) + s;
    var rest := total % 86400;
    match AddDays(t.date, total / 86400)
    case None => None
    case Some(day) =>
      AddedSeconds(t, s, day);
      Some(Instant(day, rest / 3600, rest / 60 % 60, rest % 60, t.micro))
  }

  const LAST_DAY := Date(9999, 12, 31)

  lemma NoDayAfterIff(d: Date)
    requires d.Valid()
    ensures NextDay(d).None? <==> d == LAST_DAY
    ensures Ordinal(d) <= Ordinal(LAST_DAY)
  {
    OrdinalOrder(LAST_DAY, d);
    hide Ordinal;
  }

  /** Adding days fails exactly past the last day of year 9999. */
  lemma {:induction false} AddDaysFailsIff(d: Date, n: nat)
    requires d.Valid()
    ensures AddDays(d, n).None? <==> Ordinal(d) + n > Ordinal(LAST_DAY)
    decreases n
  {
    hide Ordinal, NextDay;
    NoDayAfterIff(d);
    if n > 0 && NextDay(d).Some? {
      AddDaysFailsIff(NextDay(d).value, n - 1);
    }
  }

  lemma AddSecondsFailsIff(t: Instant, s: nat)
    requires t.Valid()
    ensures AddSeconds(t, s).None? <==> Ordinal(t.date) + (SecondsOfDay(t) + s) / 86400 > Ordinal(LAST_DAY)
  {
    AddDaysFailsIff(t.date, (SecondsOfDay(t) + s) / 86400);
    hide Ordinal, AddDays, Micros;
  }
}
