/**
 * The numeric helpers the source takes from `std` and nalgebra: `min`, absolute value and
 * sums, the saturating `as usize` cast of `floor` and `ceil`, `f32::clamp` and
 * `nalgebra::wrap`.
 */
module Numbers {

  /** `std::f32::consts::PI`, as the f32 constant rounds it. */
  const Pi: real := 3.1415927

  function Min(a: nat, b: nat): nat
  {
    if a < b then a else b
  }

  function Abs(x: real): real
  {
    if x < 0.0 then -x else x
  }

  function Sum(xs: seq<real>): real
    decreases |xs|
  {
    if |xs| == 0 then 0.0 else xs[0] + Sum(xs[1..])
  }

  /** `v.floor() as usize`: the cast saturates, so a negative value gives 0. */
  function FloorNat(v: real): (r: nat)
    ensures v >= 0.0 ==> r as real <= v < r as real + 1.0
    ensures v < 1.0 ==> r == 0
  {
    if v < 0.0 then 0 else v.Floor
  }

  /** `v.ceil() as usize`: the smallest natural number not below v. */
  function CeilNat(v: real): (r: nat)
    ensures v <= r as real
    ensures v <= 0.0 ==> r == 0
    ensures v > 0.0 ==> v <= r as real < v + 1.0
  {
    if v <= 0.0 then 0 else if v.Floor as real == v then v.Floor else v.Floor + 1
  }

  /** `f32::clamp`, which panics unless lo <= hi. */
  function Clamp(v: real, lo: real, hi: real): (r: real)
    requires lo <= hi
    ensures lo <= r <= hi
    ensures lo <= v <= hi ==> r == v
    ensures v < lo ==> r == lo
    ensures v > hi ==> r == hi
  {
    if v < lo then lo else if v > hi then hi else v
  }

  /**
   * `nalgebra::wrap(v, lo, hi)`: adds or subtracts the width hi - lo until the value
   * lies in [lo, hi]; a value already inside is returned as it is.
   */
  function Wrap(v: real, lo: real, hi: real): (r: real)
    requires lo < hi
    ensures lo <= r <= hi
    ensures lo <= v <= hi ==> r == v
    decreases if v < lo then ((lo - v) / (hi - lo)).Floor + 1
              else if v > hi then ((v - hi) / (hi - lo)).Floor + 1
              else 0
  {
    if v < lo then
      ShiftQuotient(lo - v, hi - lo);
      Wrap(v + (hi - lo), lo, hi)
    else if v > hi then
      ShiftQuotient(v - hi, hi - lo);
      Wrap(v - (hi - lo), lo, hi)
    else
      v
  }

  /** Taking one width off a positive distance takes one off the number of widths it spans. */
  lemma ShiftQuotient(d: real, w: real)
    requires d > 0.0 && w > 0.0
    ensures ((d - w) / w).Floor == (d / w).Floor - 1
    ensures d / w > 0.0
    ensures d - w > 0.0 ==> (d - w) / w > 0.0
  {
    assert w / w == 1.0;
    assert (d - w) / w == d / w - w / w;
  }

  /** A coordinate that overshoots the unit interval by less than one wraps around once. */
  lemma {:induction false} WrapUnitOver(v: real)
    requires 1.0 < v <= 2.0
    ensures Wrap(v, 0.0, 1.0) == v - 1.0
  {
    assert Wrap(v - 1.0, 0.0, 1.0) == v - 1.0;
  }

  /** A coordinate that undershoots the unit interval by at most one wraps around once. */
  lemma {:induction false} WrapUnitUnder(v: real)
    requires -1.0 <= v < 0.0
    ensures Wrap(v, 0.0, 1.0) == v + 1.0
  {
    assert Wrap(v + 1.0, 0.0, 1.0) == v + 1.0;
  }

  /** Adding to one entry adds as much to the sum. */
  lemma {:induction false} SumUpdate(xs: seq<real>, i: nat, d: real)
    requires i < |xs|
    ensures Sum(xs[i := xs[i] + d]) == Sum(xs) + d
    decreases |xs|
  {
    if i > 0 {
      SumUpdate(xs[1..], i - 1, d);
      assert xs[i := xs[i] + d][1..] == xs[1..][i - 1 := xs[1..][i - 1] + d];
    }
  }
}
