/** ThreadLocalRandom.nextInt(origin, bound), with the random source as a parameter:
    `draw` is whatever the generator produced, reduced into the half-open range. */
module RandomDraws {

  function NextInt(origin: int, bound: int, draw: nat): (r: int)
    requires origin < bound
    ensures origin <= r < bound
  {
    origin + draw % (bound - origin)
  }

  /** Every value of the range is drawn by some draw, so the model leaves no value out. */
  lemma NextIntReachesEveryValue(origin: int, bound: int, v: int)
    requires origin <= v < bound
    ensures NextInt(origin, bound, (v - origin) as nat) == v
  {
  }
}
