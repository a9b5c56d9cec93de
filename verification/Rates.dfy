/** Published rates: a part of a whole, absent where the whole is zero. */
module Rates {
  import opened Wrappers

  predicate InUnit(rate: Option<real>) { rate.Some? ==> 0.0 <= rate.value <= 1.0 }

  function Share(part: nat, whole: nat): (r: Option<real>)
    ensures r.None? <==> whole == 0
    ensures part <= whole ==> InUnit(r)
  {
    if whole == 0 then None else Some(part as real / whole as real)
  }
}
