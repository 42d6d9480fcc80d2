/** The random offsets of the placement routine. numpy's global generator
    becomes an explicit tape of raw draws, so a run is reproducible: draw k
    is `rng(k)`, and `np.random.randint(0, high)` takes one draw and reduces
    it to one of the integers in [0, high). */
module Sampling {

  /** The k-th raw draw of the random source. */
  type Rng = nat -> nat

  /** How many integers lie in [0, high). */
  function Choices(high: real): (n: nat)
    requires high > 0.0
    ensures n > 0
    ensures (n - 1) as real < high <= n as real
  {
    var f := high.Floor;
    if f as real == high then f else f + 1
  }

  /** Draw k of the tape reduced to one of n choices. */
  function Draw(rng: Rng, k: nat, n: nat): (v: nat)
    requires n > 0
    ensures v < n
  {
    rng(k) % n
  }

  /** `np.random.randint(0, high)` served from draw k of the tape. */
  function RandInt(rng: Rng, k: nat, high: real): (v: int)
    requires high > 0.0
    ensures 0 <= v && v as real < high
  {
    Draw(rng, k, Choices(high))
  }

  /** Every integer of [0, high) is drawn by some tape: the reduction loses
      none of the offsets `randint` may return. */
  lemma RandIntReachesEveryOffset(rng: Rng, k: nat, high: real, v: nat)
    requires v as real < high
    requires rng(k) == v
    ensures RandInt(rng, k, high) == v
  {
    assert v < Choices(high);
  }
}
