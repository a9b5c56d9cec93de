/**
 The proleptic Gregorian calendar of Python's `date`, the strict YYYY-MM-DD form and the
 `isoformat()` text of UTC timestamps.
 */
module Calendar {
  import opened Wrappers
  import opened Text

  datatype Date = Date(year: int, month: int, day: int) {
    predicate Valid() {
      1 <= year <= 9999 && 1 <= month <= 12 && 1 <= day <= DaysInMonth(year, month)
    }
  }

  predicate Leap(year: int) {
    year % 4 == 0 && (year % 100 != 0 || year % 400 == 0)
  }

  function DaysInMonth(year: int, month: int): int {
    if month == 2 then (if Leap(year) then 29 else 28)
    else if month in {4, 6, 9, 11} then 30
    else 31
  }

  /** Python's `date < date`. */
  predicate DateLess(a: Date, b: Date) {
    || a.year < b.year
    || (a.year == b.year && (a.month < b.month || (a.month == b.month && a.day < b.day)))
  }

  predicate IsDigit(c: char) { '0' <= c <= '9' }

  function DigitValue(c: char): (d: int)
    requires IsDigit(c)
    ensures 0 <= d <= 9
  {
    c as int - '0' as int
  }

  function DigitChar(d: int): (c: char)
    requires 0 <= d <= 9
    ensures IsDigit(c) && DigitValue(c) == d
  {
    (d + 48) as char
  }

  /** `re.fullmatch(r"\d{4}-\d{2}-\d{2}", s)` */
  predicate DateShaped(s: string) {
    && |s| == 10
    && s[4] == '-' && s[7] == '-'
    && (forall i :: 0 <= i < 10 && i != 4 && i != 7 ==> IsDigit(s[i]))
  }

  lemma DateShapedIsNotBlank(s: string)
    ensures DateShaped(s) ==> !Blank(s)
  {
    if DateShaped(s) {
      assert IsDigit(s[0]) && !IsSpace(s[0]);
    }
  }

  function DateFields(s: string): Date
    requires DateShaped(s)
  {
    Date(1000 * DigitValue(s[0]) + 100 * DigitValue(s[1]) + 10 * DigitValue(s[2]) + DigitValue(s[3]),
         10 * DigitValue(s[5]) + DigitValue(s[6]),
         10 * DigitValue(s[8]) + DigitValue(s[9]))
  }

  /** `date.fromisoformat` on the accepted shape; None where it raises ValueError. */
  function ParseDate(s: string): (d: Option<Date>)
    ensures d.Some? ==> d.value.Valid()
  {
    if DateShaped(s) && DateFields(s).Valid() then Some(DateFields(s)) else None
  }

  /** `n` in decimal, zero-padded to `width` digits. */
  function Padded(n: nat, width: nat): (s: string)
    ensures |s| == width
  {
    if width == 0 then "" else Padded(n / 10, width - 1) + [DigitChar(n % 10)]
  }

  function Pow10(n: nat): (p: int)
    ensures p >= 1
  {
    if n == 0 then 1 else 10 * Pow10(n - 1)
  }

  /** Zero-padded numbers that fit their width compare as numbers. */
  lemma {:induction false} PaddedOrder(m: nat, n: nat, width: nat)
    requires m < Pow10(width) && n < Pow10(width)
    ensures StrLess(Padded(m, width), Padded(n, width)) <==> m < n
    ensures Padded(m, width) == Padded(n, width) <==> m == n
  {
    if width > 0 {
      var hm, hn := Padded(m / 10, width - 1), Padded(n / 10, width - 1);
      var lm, ln := [DigitChar(m % 10)], [DigitChar(n % 10)];
      PaddedOrder(m / 10, n / 10, width - 1);
      StrLessConcat(hm, hn, lm, ln);
      assert Padded(m, width)[..width - 1] == hm && Padded(n, width)[..width - 1] == hn;
      assert Padded(m, width)[width - 1] == lm[0] && Padded(n, width)[width - 1] == ln[0];
      assert StrLess(lm, ln) <==> m % 10 < n % 10;
    }
  }

  lemma PaddedPrefixOrder(m: nat, n: nat, width: nat, p: string, q: string)
    requires m < Pow10(width) && n < Pow10(width)
    ensures StrLess(Padded(m, width) + p, Padded(n, width) + q) <==> m < n || (m == n && StrLess(p, q))
  {
    PaddedOrder(m, n, width);
    StrLessConcat(Padded(m, width), Padded(n, width), p, q);
  }

  // ----- Dates and their texts

  /** `d.isoformat()` */
  function DateText(d: Date): string
    requires d.Valid()
  {
    Padded(d.year, 4) + "-" + Padded(d.month, 2) + "-" + Padded(d.day, 2)
  }

  lemma OneDigit(n: nat)
    requires n < 10
    ensures Padded(n, 1) == [DigitChar(n)]
  {
    assert Padded(n / 10, 0) == "";
  }

  lemma TwoDigits(n: nat)
    requires n < 100
    ensures Padded(n, 2) == [DigitChar(n / 10), DigitChar(n % 10)]
  {
    OneDigit(n / 10);
    assert Padded(n, 2) == Padded(n / 10, 1) + [DigitChar(n % 10)];
    hide Padded, DigitChar;
  }

  lemma FourDigits(n: nat)
    requires n < 10000
    ensures Padded(n, 4) == [DigitChar(n / 1000), DigitChar(n / 100 % 10), DigitChar(n / 10 % 10), DigitChar(n % 10)]
  {
    TwoDigits(n / 100);
    Hundreds(n);
    assert Padded(n, 4) == Padded(n / 10, 3) + [DigitChar(n % 10)];
    assert Padded(n / 10, 3) == Padded(n / 10 / 10, 2) + [DigitChar(n / 10 % 10)];
    hide Padded, DigitChar;
  }

  lemma Hundreds(n: nat)
    ensures n / 10 / 10 == n / 100 && n / 100 / 10 == n / 1000
  {
  }

  /** The text of a date, character by character. */
  lemma TextOfDate(d: Date)
    requires d.Valid()
    ensures DateText(d) ==
      [DigitChar(d.year / 1000), DigitChar(d.year / 100 % 10), DigitChar(d.year / 10 % 10), DigitChar(d.year % 10), '-',
       DigitChar(d.month / 10), DigitChar(d.month % 10), '-', DigitChar(d.day / 10), DigitChar(d.day % 10)]
  {
    FourDigits(d.year);
    TwoDigits(d.month);
    TwoDigits(d.day);
    hide Padded, Leap, DigitChar;
  }

  lemma DigitsAddUp(n: nat)
    ensures n == 10 * (n / 10) + n % 10
    ensures n == 1000 * (n / 1000) + 100 * (n / 100 % 10) + 10 * (n / 10 % 10) + n % 10
  {
    Hundreds(n);
    assert n / 10 == 10 * (n / 10 / 10) + n / 10 % 10;
    assert n / 100 == 10 * (n / 100 / 10) + n / 100 % 10;
  }

  /** Every date is read back from its text. */
  lemma DateReadsBack(d: Date)
    requires d.Valid()
    ensures ParseDate(DateText(d)) == Some(d)
  {
    TextOfDate(d);
    DigitsAddUp(d.year);
    DigitsAddUp(d.month);
    DigitsAddUp(d.day);
    hide DateText, DigitChar, DigitValue, IsDigit, Leap, DaysInMonth;
    var s := DateText(d);
    assert DateShaped(s);
    assert DateFields(s).year == d.year && DateFields(s).month == d.month && DateFields(s).day == d.day;
  }

  lemma DigitIsChar(c: char)
    requires IsDigit(c)
    ensures DigitChar(DigitValue(c)) == c
  {
  }

  lemma FieldDigits(a: nat, b: nat, c: nat, d: nat)
    requires a < 10 && b < 10 && c < 10 && d < 10
    ensures var n := 1000 * a + 100 * b + 10 * c + d;
      n / 1000 == a && n / 100 % 10 == b && n / 10 % 10 == c && n % 10 == d
    ensures var n := 10 * a + b; n / 10 == a && n % 10 == b
  {
    var n := 1000 * a + 100 * b + 10 * c + d;
    LastDigit(a, b);
    LastDigit(10 * a + b, c);
    LastDigit(100 * a + 10 * b + c, d);
    Hundreds(n);
  }

  lemma LastDigit(front: nat, last: nat)
    requires last < 10
    ensures (10 * front + last) / 10 == front && (10 * front + last) % 10 == last
  {
  }

  /** Nothing but the text of a date is read as one. */
  lemma OnlyTextsAreRead(s: string)
    requires ParseDate(s).Some?
    ensures s == DateText(ParseDate(s).value)
  {
    TextOfDate(ParseDate(s).value);
    FieldDigits(DigitValue(s[0]), DigitValue(s[1]), DigitValue(s[2]), DigitValue(s[3]));
    FieldDigits(DigitValue(s[5]), DigitValue(s[6]), 0, 0);
    FieldDigits(DigitValue(s[8]), DigitValue(s[9]), 0, 0);
    hide DateText, Leap, DaysInMonth, DigitChar, DigitValue, IsDigit;
    forall i | 0 <= i < 10 && i != 4 && i != 7
      ensures IsDigit(s[i]) && DigitChar(DigitValue(s[i])) == s[i]
    {
      DigitIsChar(s[i]);
    }
  }

  /** The order of dates is the order of their texts. */
  lemma DateTextOrder(a: Date, b: Date)
    requires a.Valid() && b.Valid()
    ensures DateLess(a, b) <==> StrLess(DateText(a), DateText(b))
  {
    assert Pow10(2) == 100 && Pow10(4) == 10000;
    var da, db := Padded(a.day, 2), Padded(b.day, 2);
    var ma, mb := Padded(a.month, 2) + ("-" + da), Padded(b.month, 2) + ("-" + db);
    assert DateText(a) == Padded(a.year, 4) + ("-" + ma) && DateText(b) == Padded(b.year, 4) + ("-" + mb);
    PaddedPrefixOrder(a.year, b.year, 4, "-" + ma, "-" + mb);
    DashOrder(ma, mb);
    PaddedPrefixOrder(a.month, b.month, 2, "-" + da, "-" + db);
    DashOrder(da, db);
    PaddedOrder(a.day, b.day, 2);
  }

  lemma DashOrder(p: string, q: string)
    ensures StrLess("-" + p, "-" + q) <==> StrLess(p, q)
  {
    StrLessConcat("-", "-", p, q);
    StrLessTrichotomy("-", "-");
  }

  /** For texts of dates, `not end < start` on the dates is `start <= end` on the texts. */
  lemma ReadOrderIsTextOrder(s: string, t: string)
    requires ParseDate(s).Some? && ParseDate(t).Some?
    ensures DateLess(ParseDate(s).value, ParseDate(t).value) <==> StrLess(s, t)
  {
    OnlyTextsAreRead(s);
    OnlyTextsAreRead(t);
    DateTextOrder(ParseDate(s).value, ParseDate(t).value);
  }
}
