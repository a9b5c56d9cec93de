/**
 Python's `Decimal` division at 38 significant digits: the quotient is computed with at least one digit more,
 whose being inexact is recorded in its last digit, and then rounded half to even once. All statements are about
 integers: "r is close to a / b" compares r * b with a in a unit fine enough for both.
 */
module Division {
  import opened Calendar
  import opened Domain
  import opened Decimals

  /** An inexact quotient never ends in 0 or 5, so that no rounding mistakes it for exact or for a tie. */
  function Sticky(q: nat): nat { if q % 5 == 0 then q + 1 else q }

  /** An exact quotient loses zeros at its end, as far as the exponent it would ideally have. */
  function Strip(coef: nat, exp: int, ideal: int): (r: Dec)
    ensures r.coef >= 0
    decreases ideal - exp
  {
    if exp < ideal && coef % 10 == 0 then Strip(coef / 10, exp + 1, ideal) else Dec(coef, exp)
  }

  /** By how many places the dividend is shifted for a quotient of at least 39 digits. */
  function Shift(a: nat, b: nat): int { Digits(b) - Digits(a) + PRECISION + 1 }

  function Dividend(a: nat, shift: int): nat { if shift >= 0 then a * Pow10(shift) else a }

  function Divisor(b: nat, shift: int): (m: nat)
    requires b > 0
    ensures m > 0
  {
    if shift >= 0 then b
    else
      TimesMonotone(1, b, Pow10(-shift));
      b * Pow10(-shift)
  }

  function Quotient(n: nat, m: nat, exp: int, ideal: int): (r: Dec)
    requires m > 0
    ensures r.coef >= 0
  {
    if n % m == 0 then Strip(n / m, exp, ideal) else Dec(Sticky(n / m), exp)
  }

  /** `a / b` in the 38-digit context, for amounts that are not negative. */
  function Divide(a: Dec, b: Dec): (r: Dec)
    requires 0 <= a.coef && 0 < b.coef
    ensures r.coef >= 0
  {
    if a.coef == 0 then Dec(0, a.exp - b.exp)
    else
      var shift, ideal := Shift(a.coef, b.coef), a.exp - b.exp;
      Round(Quotient(Dividend(a.coef, shift), Divisor(b.coef, shift), ideal - shift, ideal))
  }

  /** `r` is the quotient of `a` and `b`, in the given unit, up to half a unit in its 38th digit. */
  predicate Close(r: Dec, a: Dec, b: Dec, unit: int)
    requires unit <= r.exp && unit <= a.exp - b.exp
  {
    Near(Scaled(r, unit), b.coef, Scaled(a, unit + b.exp))
  }

  /** Up to half a unit in the 38th digit, `x` times `m` is `n`. */
  predicate Near(x: int, m: int, n: int) { 2 * Abs(x * m - n) * Pow10(PRECISION - 1) <= n }

  // ----- Rounding an inexact quotient

  lemma StickyIsNear(n: nat, m: nat)
    requires m > 0 && n % m != 0
    ensures Sticky(n / m) % 5 != 0 && Abs(Sticky(n / m) * m - n) < m
  {
    var q, rest := n / m, n % m;
    assert n == q * m + rest;
    assert (q + 1) * m == q * m + m;
  }

  lemma EndsInZero(q: nat, drop: nat)
    requires drop > 0
    ensures (q * Pow10(drop)) % 10 == 0 && Pow10(drop) % 10 == 0
  {
    hide Pow10;
    var p: int := Pow10(drop - 1);
    Pow10Step(drop - 1);
    TenTimes(q, p);
    MultipleOfTen(q * p);
    MultipleOfTen(p);
  }

  lemma MultipleOfTen(x: int)
    ensures 10 * x % 10 == 0
  {
  }

  lemma NoTie(s: int, i: int, j: int)
    requires s % 5 != 0
    ensures s != 10 * i - 5 * j && s != 10 * i + 5 * j
  {
  }

  /** No tie: what ends in neither 0 nor 5 is strictly nearer to one side, by a whole unit at least. */
  lemma StrictlyNearer(s: nat, c: nat, drop: nat)
    requires drop > 0 && s % 5 != 0 && 2 * Abs(c * Pow10(drop) - s) <= Pow10(drop)
    ensures 2 * (Abs(c * Pow10(drop) - s) + 1) <= Pow10(drop)
  {
    EndsInZero(c, drop);
    hide Pow10;
    var x, u := c * Pow10(drop), Pow10(drop);
    NotHalfway(s, x, u);
  }

  lemma NotHalfway(s: int, x: int, u: int)
    requires x % 10 == 0 && u % 10 == 0 && s % 5 != 0 && 2 * Abs(x - s) <= u
    ensures 2 * (Abs(x - s) + 1) <= u
  {
    NoTie(s, x / 10, u / 10);
  }

  lemma AddErrors(x: int, s: int, n: int, m: nat)
    requires Abs(s * m - n) < m
    ensures Abs(x * m - n) <= (Abs(x - s) + 1) * m
  {
    AbsTimes(x - s, m);
    assert (x - s) * m == x * m - s * m;
    assert (Abs(x - s) + 1) * m == Abs(x - s) * m + m;
  }

  /** The leading digits of an inexact quotient are not the work of its sticky digit. */
  lemma StickyDigits(q: nat)
    requires Digits(Sticky(q)) > PRECISION
    ensures Pow10(Digits(Sticky(q)) - 1) <= q
  {
    var d: nat := Digits(Sticky(q)) - 1;
    EndsInZero(1, d);
    hide Pow10, Digits;
    assert Pow10(d) <= Sticky(q);
  }

  /** Rounding the sticky quotient errs by at most half of the dropped unit, as if the exact quotient were rounded. */
  lemma RoundSticky(n: nat, m: nat, exp: int)
    requires m > 0 && n % m != 0 && Digits(Sticky(n / m)) > PRECISION
    ensures exp <= Round(Dec(Sticky(n / m), exp)).exp
    ensures Near(Scaled(Round(Dec(Sticky(n / m), exp)), exp), m, n)
  {
    hide Digits, Pow10, HalfEven, Sticky, Round, Scaled;
    var q, s := n / m, Sticky(n / m);
    var drop := Digits(s) - PRECISION;
    var unit: nat := Pow10(drop);
    var c := HalfEven(s, unit);
    StickyIsNear(n, m);
    StrictlyNearer(s, c, drop);
    StickyDigits(q);
    Pow10Add(drop, PRECISION - 1);
    RoundedUnits(s, exp);
    AddErrors(c * unit, s, n, m);
    QuotientTimes(n, m);
    HalfOfUnit(Abs(c * unit * m - n), Abs(c * unit - s) + 1, unit, m, Pow10(PRECISION - 1), q, n);
  }

  lemma QuotientTimes(n: nat, m: nat)
    requires m > 0
    ensures n / m * m <= n
  {
  }

  lemma RoundedUnits(s: nat, exp: int)
    requires Digits(s) > PRECISION
    ensures exp <= Round(Dec(s, exp)).exp
    ensures Scaled(Round(Dec(s, exp)), exp) == HalfEven(s, Pow10(Digits(s) - PRECISION)) * Pow10(Digits(s) - PRECISION)
  {
    hide Pow10, HalfEven, Digits, Carry;
    var drop := Digits(s) - PRECISION;
    CarrySame(Dec(HalfEven(s, Pow10(drop)), exp + drop), exp);
  }

  lemma HalfOfUnit(error: nat, near: nat, unit: nat, m: nat, k: nat, q: nat, n: nat)
    requires error <= near * m && 2 * near <= unit && unit * k <= q && q * m <= n
    ensures 2 * error * k <= n
  {
    TimesMonotone(2 * near, unit, m);
    assert 2 * near * m == 2 * (near * m);
    TimesMonotone(2 * error, unit * m, k);
    assert unit * m * k == unit * k * m;
    TimesMonotone(unit * k, q, m);
  }

  // ----- The quotient has digits enough

  lemma EnoughDigits(a: nat, b: nat)
    requires a > 0 && b > 0
    ensures Pow10(PRECISION) <= Dividend(a, Shift(a, b)) / Divisor(b, Shift(a, b))
  {
    hide Pow10, Digits, Dividend, Divisor;
    DividendCovers(a, b);
    QuotientAtLeast(Dividend(a, Shift(a, b)), Divisor(b, Shift(a, b)), Pow10(PRECISION));
  }

  lemma DividendCovers(a: nat, b: nat)
    requires a > 0 && b > 0
    ensures Pow10(PRECISION) * Divisor(b, Shift(a, b)) <= Dividend(a, Shift(a, b))
  {
    var da, db, shift := Digits(a), Digits(b), Shift(a, b);
    assert Pow10(da - 1) <= a && b < Pow10(db);
    hide Pow10, Digits;
    if shift >= 0 { ShiftedUp(a, b, da - 1, db, PRECISION, shift); } else { ShiftedDown(a, b, da - 1, db, PRECISION, -shift); }
  }

  lemma ShiftedUp(a: nat, b: nat, top: nat, low: nat, k: nat, shift: nat)
    requires Pow10(top) <= a && b <= Pow10(low) && top + shift == k + low
    ensures Pow10(k) * b <= a * Pow10(shift)
  {
    hide Pow10;
    Pow10Add(top, shift);
    Pow10Add(k, low);
    Cross(Pow10(k), b, Pow10(low), Pow10(top), a, Pow10(shift));
  }

  lemma Cross(k: int, b: int, low: int, top: int, a: int, p: int)
    requires 0 <= k && 0 <= p && b <= low && top <= a && k * low == top * p
    ensures k * b <= a * p
  {
    TimesMonotone(b, low, k);
    TimesMonotone(top, a, p);
  }

  lemma ShiftedDown(a: nat, b: nat, top: nat, low: nat, k: nat, shift: nat)
    requires Pow10(top) <= a && b <= Pow10(low) && top == k + low + shift
    ensures Pow10(k) * (b * Pow10(shift)) <= a
  {
    hide Pow10;
    Pow10Add(low, shift);
    Pow10Add(k, low + shift);
    Down(Pow10(k), b, Pow10(low), Pow10(shift));
  }

  lemma Down(k: int, b: int, low: int, p: int)
    requires 0 <= k && 0 <= p && b <= low
    ensures k * (b * p) <= k * (low * p)
  {
    TimesMonotone(b, low, p);
    TimesMonotone(b * p, low * p, k);
  }

  lemma QuotientAtLeast(n: nat, m: nat, k: nat)
    requires m > 0 && k * m <= n
    ensures k <= n / m
  {
    var q := n / m;
    assert n == q * m + n % m;
    assert (q + 1) * m == q * m + m;
    if q + 1 <= k { TimesMonotone(q + 1, k, m); }
  }

  // ----- The whole division

  lemma {:induction false} StripSame(coef: nat, exp: int, ideal: int)
    ensures exp <= Strip(coef, exp, ideal).exp && Scaled(Strip(coef, exp, ideal), exp) == coef
    decreases ideal - exp
  {
    if exp < ideal && coef % 10 == 0 {
      StripSame(coef / 10, exp + 1, ideal);
      var r := Strip(coef / 10, exp + 1, ideal);
      Pow10Step(r.exp - exp - 1);
      TenTimes(r.coef, Pow10(r.exp - exp - 1));
      hide Pow10;
    }
  }

  /** An exact quotient of few digits stays exact; a long one is rounded. */
  lemma RoundExactQuotient(n: nat, m: nat, exp: int, ideal: int)
    requires m > 0 && n % m == 0
    ensures exp <= Round(Strip(n / m, exp, ideal)).exp
    ensures Near(Scaled(Round(Strip(n / m, exp, ideal)), exp), m, n)
  {
    hide Pow10, Round, Strip, Scaled;
    var r := Strip(n / m, exp, ideal);
    StripSame(n / m, exp, ideal);
    RoundError(r, exp);
    assert n == n / m * m;
    ErrorTimes(Scaled(Round(r), exp), n / m, m, Pow10(PRECISION - 1));
  }

  lemma ErrorTimes(x: int, q: int, m: nat, k: int)
    requires 0 <= k && 2 * Abs(x - q) * k <= q
    ensures 2 * Abs(x * m - q * m) * k <= q * m
  {
    Distribute(x, q, m);
    AbsTimes(x - q, m);
    TimesMonotone(2 * Abs(x - q) * k, q, m);
    Regroup(Abs(x - q), k, m);
  }

  /** In its working unit the rounded quotient times the divisor is the dividend, up to half a unit in the 38th digit. */
  lemma QuotientError(n: nat, m: nat, exp: int, ideal: int)
    requires m > 0 && Pow10(PRECISION) <= n / m
    ensures exp <= Round(Quotient(n, m, exp, ideal)).exp
    ensures Near(Scaled(Round(Quotient(n, m, exp, ideal)), exp), m, n)
  {
    hide Pow10, Round, Strip, Scaled, Near;
    if n % m == 0 {
      RoundExactQuotient(n, m, exp, ideal);
    } else {
      ManyDigits(Sticky(n / m));
      RoundSticky(n, m, exp);
    }
  }

  lemma ManyDigits(s: nat)
    requires Pow10(PRECISION) <= s
    ensures Digits(s) > PRECISION
  {
    hide Pow10;
    if Digits(s) <= PRECISION { Pow10Monotone(Digits(s), PRECISION); }
  }

  // ----- In any unit

  lemma CancelTimes(x: int, y: int, p: int)
    requires p >= 1
    ensures x * p <= y * p <==> x <= y
  {
    if x <= y { TimesMonotone(x, y, p); } else { TimesMonotone(y + 1, x, p); }
  }

  lemma Reorder(r: int, p: int, b: int)
    ensures (r * p) * b == (r * b) * p
  {
  }

  /** The comparison does not depend on the unit it is made in. */
  lemma ErrorScales(r: int, b: int, n: int, p: int)
    requires p >= 1
    ensures Near(r * p, b, n * p) <==> Near(r, b, n)
  {
    hide Pow10;
    var k := Pow10(PRECISION - 1);
    Reorder(r, p, b);
    Distribute(r * b, n, p);
    AbsTimes(r * b - n, p);
    Regroup(Abs(r * b - n), k, p);
    CancelTimes(2 * Abs(r * b - n) * k, n, p);
  }

  lemma CloseFiner(r: Dec, a: Dec, b: Dec, coarse: int, fine: int)
    requires fine <= coarse <= r.exp && coarse <= a.exp - b.exp
    ensures Close(r, a, b, coarse) <==> Close(r, a, b, fine)
  {
    ScaledFiner(r, coarse, fine);
    ScaledFiner(a, coarse + b.exp, fine + b.exp);
    ErrorScales(Scaled(r, coarse), b.coef, Scaled(a, coarse + b.exp), Pow10(coarse - fine));
    hide Pow10, Scaled, Near;
  }

  lemma CloseAnyUnit(r: Dec, a: Dec, b: Dec, unit: int, other: int)
    requires unit <= r.exp && unit <= a.exp - b.exp && other <= r.exp && other <= a.exp - b.exp
    ensures Close(r, a, b, unit) <==> Close(r, a, b, other)
  {
    hide Close;
    if unit <= other { CloseFiner(r, a, b, other, unit); } else { CloseFiner(r, a, b, unit, other); }
  }

  /** The unit in which dividend and divisor are whole numbers while the quotient is computed. */
  function WorkingUnit(a: Dec, b: Dec): int
    requires 0 < a.coef && 0 < b.coef
  {
    var shift := Shift(a.coef, b.coef);
    if shift >= 0 then a.exp - b.exp - shift else a.exp - b.exp
  }

  lemma CloseShiftedUp(r: Dec, a: Dec, b: Dec, shift: nat)
    requires a.exp - b.exp - shift <= r.exp
    requires Near(Scaled(r, a.exp - b.exp - shift), b.coef, a.coef * Pow10(shift))
    ensures Close(r, a, b, a.exp - b.exp - shift)
  {
    hide Pow10;
    assert a.exp - (a.exp - b.exp - shift + b.exp) == shift;
  }

  lemma CloseShiftedDown(r: Dec, a: Dec, b: Dec, shift: nat)
    requires a.exp - b.exp + shift <= r.exp
    requires Near(Scaled(r, a.exp - b.exp + shift), b.coef * Pow10(shift), a.coef)
    ensures Close(r, a, b, a.exp - b.exp)
  {
    hide Pow10, Scaled;
    var ideal := a.exp - b.exp;
    ScaledFiner(r, ideal + shift, ideal);
    ScaledOwn(a);
    Group(Scaled(r, ideal + shift), Pow10(shift), b.coef);
  }

  lemma DivideNear(a: Dec, b: Dec)
    requires 0 < a.coef && 0 < b.coef
    ensures var shift := Shift(a.coef, b.coef);
      var exp := a.exp - b.exp - shift;
      exp <= Divide(a, b).exp && Near(Scaled(Divide(a, b), exp), Divisor(b.coef, shift), Dividend(a.coef, shift))
  {
    hide Round, Quotient, Shift, Scaled, Near, Dividend, Divisor, Pow10, Digits;
    var shift, ideal := Shift(a.coef, b.coef), a.exp - b.exp;
    EnoughDigits(a.coef, b.coef);
    QuotientError(Dividend(a.coef, shift), Divisor(b.coef, shift), ideal - shift, ideal);
  }

  lemma CloseInWorkingUnit(a: Dec, b: Dec)
    requires 0 < a.coef && 0 < b.coef
    ensures WorkingUnit(a, b) <= Divide(a, b).exp && WorkingUnit(a, b) <= a.exp - b.exp
    ensures Close(Divide(a, b), a, b, WorkingUnit(a, b))
  {
    hide Divide, Shift, Scaled, Close, Near;
    DivideNear(a, b);
    var shift := Shift(a.coef, b.coef);
    if shift >= 0 { CloseShiftedUp(Divide(a, b), a, b, shift); } else { CloseShiftedDown(Divide(a, b), a, b, -shift); }
  }

  lemma Group(r: int, p: int, b: int)
    ensures (r * p) * b == r * (b * p)
  {
  }

  /** A quotient is close to the exact one, seen in any unit. */
  lemma DivideClose(a: Dec, b: Dec, unit: int)
    requires 0 <= a.coef && 0 < b.coef && unit <= Divide(a, b).exp && unit <= a.exp - b.exp
    ensures Close(Divide(a, b), a, b, unit)
  {
    if a.coef > 0 {
      CloseInWorkingUnit(a, b);
      hide Divide, Close, WorkingUnit;
      CloseAnyUnit(Divide(a, b), a, b, WorkingUnit(a, b), unit);
    }
  }

  // ----- Percentages

  function TimesHundred(d: Dec): Dec { Dec(100 * d.coef, d.exp) }

  /** `abs(residual / reported) * 100` */
  function Percentage(residual: Dec, reported: Dec): Dec
    requires 0 < reported.coef
  {
    Round(TimesHundred(Divide(Dec(Abs(residual.coef), residual.exp), reported)))
  }

  lemma HalfEvenExact(k: nat, unit: int)
    requires unit >= 1
    ensures HalfEven(k * unit, unit) == k
  {
    var q := HalfEven(k * unit, unit);
    AbsTimes(q - k, unit);
    Distribute(q, k, unit);
    if q != k { TimesMonotone(1, Abs(q - k), unit); }
  }

  lemma AtMost(q: int, k: int, unit: int, n: int)
    requires unit >= 1 && 2 * Abs(q * unit - n) <= unit && n < k * unit
    ensures q <= k
  {
    if q > k { TimesMonotone(k + 1, q, unit); Distribute(k + 1, k, unit); }
  }

  lemma HalfEvenFits(n: nat, drop: nat)
    requires n < Pow10(PRECISION + drop)
    ensures HalfEven(n, Pow10(drop)) <= Pow10(PRECISION)
  {
    hide Pow10, HalfEven;
    Pow10Add(PRECISION, drop);
    AtMost(HalfEven(n, Pow10(drop)), Pow10(PRECISION), Pow10(drop), n);
  }

  /** A rounded decimal has at most 38 digits. */
  lemma RoundFits(d: Dec)
    ensures Abs(Round(d).coef) < Pow10(PRECISION)
  {
    hide Pow10, HalfEven, Carry;
    var n := Abs(d.coef);
    if Digits(n) <= PRECISION {
      Pow10Monotone(Digits(n), PRECISION);
    } else {
      hide Digits;
      var drop := Digits(n) - PRECISION;
      HalfEvenFits(n, drop);
      var q: int := HalfEven(n, Pow10(drop));
      CarryFits(Dec(if d.coef < 0 then -q else q, d.exp + drop));
    }
  }

  lemma CarryFits(d: Dec)
    requires Abs(d.coef) <= Pow10(PRECISION)
    ensures Abs(Carry(d).coef) < Pow10(PRECISION)
  {
    Pow10Step(PRECISION - 1);
    hide Pow10;
  }

  lemma HundredDigits(c: nat)
    requires c < Pow10(PRECISION)
    ensures Digits(100 * c) <= PRECISION + 2
  {
    hide Pow10, Digits;
    Pow10Step(PRECISION);
    Pow10Step(PRECISION + 1);
    assert Pow10(PRECISION + 2) == 100 * Pow10(PRECISION);
    if Digits(100 * c) > PRECISION + 2 { Pow10Monotone(PRECISION + 2, Digits(100 * c) - 1); }
  }

  lemma HundredDivides(c: nat, drop: nat)
    requires drop == 1 || drop == 2
    ensures HalfEven(100 * c, Pow10(drop)) * Pow10(drop) == 100 * c
  {
    assert Pow10(1) == 10 && Pow10(2) == 100;
    HalfEvenExact(10 * c, 10);
    HalfEvenExact(c, 100);
  }

  /** A hundred times a coefficient of at most 38 digits loses only zeros. */
  lemma HundredExact(d: Dec)
    requires 0 <= d.coef < Pow10(PRECISION)
    ensures d.exp <= Round(TimesHundred(d)).exp && Scaled(Round(TimesHundred(d)), d.exp) == 100 * d.coef
  {
    var n: nat := 100 * d.coef;
    hide Pow10, HalfEven, Digits, Carry;
    if Digits(n) > PRECISION {
      RoundedUnits(n, d.exp);
      HundredDigits(d.coef);
      HundredDivides(d.coef, Digits(n) - PRECISION);
    } else {
      ScaledOwn(TimesHundred(d));
    }
  }

  lemma DivideFits(a: Dec, b: Dec)
    requires 0 <= a.coef && 0 < b.coef
    ensures Abs(Divide(a, b).coef) < Pow10(PRECISION)
  {
    hide Round, Quotient, Pow10;
    if a.coef > 0 {
      var shift, ideal := Shift(a.coef, b.coef), a.exp - b.exp;
      RoundFits(Quotient(Dividend(a.coef, shift), Divisor(b.coef, shift), ideal - shift, ideal));
    }
  }

  lemma HundredClose(r: Dec, a: Dec, b: Dec, unit: int)
    requires 0 <= r.coef < Pow10(PRECISION) && unit <= r.exp && unit <= a.exp - b.exp && Close(r, a, b, unit)
    ensures unit <= Round(TimesHundred(r)).exp
    ensures Close(Round(TimesHundred(r)), TimesHundred(a), b, unit)
  {
    hide Pow10, Round, Near;
    HundredExact(r);
    var p := Round(TimesHundred(r));
    ScaledFiner(p, r.exp, unit);
    HundredNear(Scaled(r, unit), b.coef, Scaled(a, unit + b.exp));
    Hundreds(r.coef, Pow10(r.exp - unit));
    Hundreds(a.coef, Pow10(a.exp - (unit + b.exp)));
  }

  lemma Hundreds(c: int, p: int)
    ensures 100 * c * p == 100 * (c * p)
  {
  }

  lemma HundredNear(x: int, m: int, n: int)
    requires Near(x, m, n)
    ensures Near(100 * x, m, 100 * n)
  {
    ErrorScales(x, m, n, 100);
  }

  /** The published percentage times the reported amount is a hundred times the residual, up to half a unit in its 38th digit. */
  lemma PercentageClose(residual: Dec, reported: Dec, unit: int)
    requires 0 < reported.coef && unit <= Percentage(residual, reported).exp && unit <= residual.exp - reported.exp
    ensures Close(Percentage(residual, reported), TimesHundred(Dec(Abs(residual.coef), residual.exp)), reported, unit)
  {
    var a := Dec(Abs(residual.coef), residual.exp);
    var r := Divide(a, reported);
    var common := Min(r.exp, a.exp - reported.exp);
    DivideClose(a, reported, common);
    DivideFits(a, reported);
    hide Divide, Close, Round;
    HundredClose(r, a, reported, common);
    CloseAnyUnit(Percentage(residual, reported), TimesHundred(a), reported, common, unit);
  }

  /** An exact quotient is given with the ideal exponent, or as near to it as no zero is lost that is not there. */
  lemma {:induction false} StripIsIdeal(coef: nat, exp: int, ideal: int)
    requires exp <= ideal
    ensures Strip(coef, exp, ideal).exp <= ideal
    ensures Strip(coef, exp, ideal).exp < ideal ==> Strip(coef, exp, ideal).coef % 10 != 0
    decreases ideal - exp
  {
    if exp < ideal && coef % 10 == 0 { StripIsIdeal(coef / 10, exp + 1, ideal); }
  }
}
