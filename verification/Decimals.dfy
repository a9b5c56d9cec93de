/**
 Python's `Decimal` subtraction and rounding at 38 significant digits, rounding half to even. All statements are
 about integers: a decimal is read in units of some power of ten no larger than its own.
 */
module Decimals {
  import opened Calendar
  import opened Domain

  const PRECISION := 38

  function Abs(n: int): nat { if n < 0 then -n else n }

  /** The number of decimal digits of `n`. */
  function Digits(n: nat): (d: nat)
    ensures n < Pow10(d) && (d > 0 ==> Pow10(d - 1) <= n)
  {
    if n == 0 then 0 else 1 + Digits(n / 10)
  }

  /** `n / unit`, rounded to the nearest integer, ties to the even one. */
  function HalfEven(n: nat, unit: int): (q: nat)
    requires unit >= 1
    ensures 2 * Abs(q * unit - n) <= unit
  {
    var low := n / unit;
    var rest := n % unit;
    assert n == low * unit + rest;
    assert (low + 1) * unit == low * unit + unit;
    if 2 * rest < unit || (2 * rest == unit && low % 2 == 0) then low else low + 1
  }

  lemma TiesGoToEven(n: nat, unit: int)
    requires unit >= 1 && 2 * (n % unit) == unit
    ensures HalfEven(n, unit) % 2 == 0
  {
  }

  /** A coefficient rounded up to a 39th digit loses its last one, which is zero. */
  function Carry(d: Dec): Dec {
    if Abs(d.coef) == Pow10(PRECISION) then Dec(d.coef / 10, d.exp + 1) else d
  }

  lemma CarrySame(d: Dec, unit: int)
    requires unit <= d.exp
    ensures d.exp <= Carry(d).exp && Scaled(Carry(d), unit) == Scaled(d, unit)
  {
    hide Pow10;
    if Abs(d.coef) == Pow10(PRECISION) {
      Pow10Step(PRECISION - 1);
      Pow10Step(d.exp - unit);
      TenTimes(d.coef / 10, Pow10(d.exp - unit));
    }
  }

  lemma Pow10Step(n: nat)
    ensures Pow10(n + 1) == 10 * Pow10(n)
  {
  }

  lemma TenTimes(c: int, p: int)
    ensures c * (10 * p) == 10 * c * p
  {
  }

  /** Rounding to 38 significant digits. */
  function Round(d: Dec): (r: Dec)
    ensures d.exp <= r.exp && (d.coef >= 0 ==> r.coef >= 0)
  {
    var n := Abs(d.coef);
    if Digits(n) <= PRECISION then d
    else
      var drop := Digits(n) - PRECISION;
      var q: int := HalfEven(n, Pow10(drop));
      Carry(Dec(if d.coef < 0 then -q else q, d.exp + drop))
  }

  /** The exact difference, in the finer of the two units. */
  function Difference(a: Dec, b: Dec): Dec {
    var unit := Min(a.exp, b.exp);
    Dec(Scaled(a, unit) - Scaled(b, unit), unit)
  }

  /** `a - b` in the 38-digit context. */
  function Subtract(a: Dec, b: Dec): Dec { Round(Difference(a, b)) }

  lemma {:induction false} Pow10Add(a: nat, b: nat)
    ensures Pow10(a + b) == Pow10(a) * Pow10(b)
  {
    if a > 0 {
      Pow10Add(a - 1, b);
      assert 10 * (Pow10(a - 1) * Pow10(b)) == (10 * Pow10(a - 1)) * Pow10(b);
    }
  }

  /** Reading a decimal in a finer unit multiplies by the ratio of the units. */
  lemma ScaledFiner(d: Dec, mid: int, unit: int)
    requires unit <= mid <= d.exp
    ensures Scaled(d, unit) == Scaled(d, mid) * Pow10(mid - unit)
  {
    Pow10Add(d.exp - mid, mid - unit);
    var p, q, c := Pow10(d.exp - mid), Pow10(mid - unit), d.coef;
    assert c * (p * q) == (c * p) * q;
  }

  lemma Distribute(a: int, b: int, p: int)
    ensures (a - b) * p == a * p - b * p
  {
  }

  /** In any unit fine enough, the exact difference is the difference of the readings. */
  lemma DifferenceExact(a: Dec, b: Dec, unit: int)
    requires unit <= a.exp && unit <= b.exp
    ensures unit <= Difference(a, b).exp
    ensures Scaled(Difference(a, b), unit) == Scaled(a, unit) - Scaled(b, unit)
  {
    var mid := Min(a.exp, b.exp);
    ScaledFiner(a, mid, unit);
    ScaledFiner(b, mid, unit);
    Distribute(Scaled(a, mid), Scaled(b, mid), Pow10(mid - unit));
  }

  lemma TimesMonotone(a: int, b: int, p: int)
    requires a <= b && 0 <= p
    ensures a * p <= b * p
  {
  }

  lemma AbsTimes(a: int, p: int)
    requires 0 <= p
    ensures Abs(a * p) == Abs(a) * p
  {
    if a < 0 {
      TimesMonotone(a, 0, p);
      assert (-a) * p == -(a * p);
    } else {
      TimesMonotone(0, a, p);
    }
  }

  /** Rounding leaves a decimal of at most 38 digits as it is. */
  lemma RoundExact(d: Dec)
    requires Abs(d.coef) < Pow10(PRECISION)
    ensures Round(d) == d
  {
    hide Pow10, HalfEven;
    if Digits(Abs(d.coef)) > PRECISION {
      Pow10Monotone(PRECISION, Digits(Abs(d.coef)) - 1);
    }
  }

  lemma {:induction false} Pow10Monotone(a: nat, b: nat)
    requires a <= b
    ensures Pow10(a) <= Pow10(b)
  {
    if a < b { Pow10Monotone(a, b - 1); }
  }

  lemma ScaledOwn(d: Dec)
    ensures Scaled(d, d.exp) == d.coef
  {
  }

  lemma ScaledRounded(d: Dec)
    requires Digits(Abs(d.coef)) > PRECISION
    ensures var unit := Pow10(Digits(Abs(d.coef)) - PRECISION);
      Abs(Scaled(Round(d), d.exp) - d.coef) == Abs(HalfEven(Abs(d.coef), unit) * unit - Abs(d.coef))
  {
    hide Pow10, HalfEven, Digits;
    var unit: int := Pow10(Digits(Abs(d.coef)) - PRECISION);
    var q: int := HalfEven(Abs(d.coef), unit);
    assert (-q) * unit == -(q * unit);
    CarrySame(Dec(if d.coef < 0 then -q else q, d.exp + (Digits(Abs(d.coef)) - PRECISION)), d.exp);
    hide Carry;
  }

  lemma HalfUnit(error: nat, unit: int, k: nat, n: int)
    requires 2 * error <= unit && unit * k <= n
    ensures 2 * error * k <= n
  {
    TimesMonotone(2 * error, unit, k);
  }

  /** In its own unit, the rounding error is at most half a unit in the 38th digit. */
  lemma RoundErrorOwnUnit(d: Dec)
    ensures 2 * Abs(Scaled(Round(d), d.exp) - d.coef) * Pow10(PRECISION - 1) <= Abs(d.coef)
  {
    hide Pow10, HalfEven, Scaled;
    var n := Abs(d.coef);
    if Digits(n) <= PRECISION {
      ScaledOwn(d);
      HalfUnit(0, 0, Pow10(PRECISION - 1), n);
    } else {
      hide Digits, Round;
      var drop := Digits(n) - PRECISION;
      var unit := Pow10(drop);
      ScaledRounded(d);
      Pow10Add(drop, PRECISION - 1);
      HalfUnit(Abs(HalfEven(n, unit) * unit - n), unit, Pow10(PRECISION - 1), n);
    }
  }

  lemma Regroup(e: int, k: int, p: int)
    ensures 2 * e * k * p == 2 * (e * p) * k
  {
  }

  /** Rounding errs by at most half a unit in the 38th digit: 10^-37 / 2 of the value. */
  lemma RoundError(d: Dec, unit: int)
    requires unit <= d.exp
    ensures 2 * Abs(Scaled(Round(d), unit) - Scaled(d, unit)) * Pow10(PRECISION - 1) <= Abs(Scaled(d, unit))
  {
    hide Round, Pow10;
    var n, p, k := Abs(d.coef), Pow10(d.exp - unit), Pow10(PRECISION - 1);
    var error := Scaled(Round(d), d.exp) - d.coef;
    RoundErrorOwnUnit(d);
    ScaledFiner(Round(d), d.exp, unit);
    Distribute(Scaled(Round(d), d.exp), d.coef, p);
    AbsTimes(error, p);
    AbsTimes(d.coef, p);
    TimesMonotone(2 * Abs(error) * k, n, p);
    Regroup(Abs(error), k, p);
  }

  lemma SubtractError(a: Dec, b: Dec, unit: int)
    requires unit <= a.exp && unit <= b.exp
    ensures unit <= Subtract(a, b).exp
    ensures var exact := Scaled(a, unit) - Scaled(b, unit);
      && 2 * Abs(Scaled(Subtract(a, b), unit) - exact) * Pow10(PRECISION - 1) <= Abs(exact)
      && (Abs(Difference(a, b).coef) < Pow10(PRECISION) ==> Scaled(Subtract(a, b), unit) == exact)
  {
    hide Round, Pow10, Difference, Scaled;
    DifferenceExact(a, b, unit);
    RoundError(Difference(a, b), unit);
    if Abs(Difference(a, b).coef) < Pow10(PRECISION) {
      RoundExact(Difference(a, b));
    }
  }
}
