/**
 * The random source that every operation of the simulation receives as a parameter
 * (`&mut dyn RngCore` in the source). It is modelled as an injected oracle: an infinite
 * tape of draws in [0, 1) and a cursor into it. Every draw consumes one tape entry, and
 * the derived draws (a bool with a given probability, a real or an index in a range) are
 * computed from that unit draw.
 */
module RandomSource {

  /** One draw of the source: a real in [0, 1). */
  type Unit = r: real | 0.0 <= r < 1.0

  datatype Rng = Rng(tape: nat -> Unit, pos: nat)

  /** `rng.gen::<f32>()`: the next unit draw. */
  function NextUnit(rng: Rng): (Unit, Rng)
  {
    (rng.tape(rng.pos), rng.(pos := rng.pos + 1))
  }

  /** `rng.gen_bool(p)`: true with probability `p`, so never for p <= 0 and always for p >= 1. */
  function GenBool(rng: Rng, p: real): (r: (bool, Rng))
    ensures p <= 0.0 ==> !r.0
    ensures p >= 1.0 ==> r.0
    ensures r.1.pos == rng.pos + 1
  {
    var (u, next) := NextUnit(rng);
    (u < p, next)
  }

  /** `rng.gen_range(lo..hi)` on reals; the source panics on an empty range. */
  function GenRange(rng: Rng, lo: real, hi: real): (r: (real, Rng))
    requires lo < hi
    ensures lo <= r.0 < hi
  {
    var (u, next) := NextUnit(rng);
    (lo + Scale(hi - lo, u), next)
  }

  /** `rng.gen_range(0..n)` on indices; the source panics when n == 0. */
  function GenIndex(rng: Rng, n: nat): (r: (nat, Rng))
    requires n > 0
    ensures r.0 < n
  {
    var (u, next) := NextUnit(rng);
    (Scale(n as real, u).Floor as nat, next)
  }

  /** A unit draw stretched over a width: it stays inside [0, w). */
  function Scale(w: real, u: Unit): (r: real)
    requires w > 0.0
    ensures 0.0 <= r < w
  {
    assert w - w * u == w * (1.0 - u);
    w * u
  }
}
