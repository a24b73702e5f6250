/**
 * The test-only loss injection of the sender: a policy chosen once at
 * configuration time and consulted once per produced fragment.
 */
module Loss {

  /** The four configurations of the sender's loss option: none, an explicit
      list of 1-based packet indices (`--loss-list`), a drop rate
      (`--loss-rate`) and a fair coin (`--loss-random`). */
  datatype Policy = NoLoss | LossList(indices: seq<int>) | LossRate(rate: real) | LossRandom

  /** What the random source yields when a policy consults it: `uniform` is
      the value of `random.random()`, `coin` that of `random.choice`. */
  datatype Draw = Draw(uniform: real, coin: bool)

  /** `random.random()` returns a value in [0, 1). */
  predicate ValidDraw(d: Draw)
  {
    0.0 <= d.uniform < 1.0
  }

  /** Whether the fragment with counter value `n` is dropped instead of sent.
      With no policy configured nothing is ever dropped; a loss list drops
      exactly the listed counter values; a rate of 0 never drops and a rate
      of 1 always does, since the uniform draw lies in [0, 1). */
  function ShouldDrop(p: Policy, n: int, d: Draw): (dropped: bool)
    ensures p.NoLoss? ==> !dropped
    ensures p.LossList? ==> (dropped <==> n in p.indices)
    ensures p.LossRate? && p.rate <= 0.0 && ValidDraw(d) ==> !dropped
    ensures p.LossRate? && p.rate >= 1.0 && ValidDraw(d) ==> dropped
  {
    match p
    case NoLoss => false
    case LossList(indices) => n in indices
    case LossRate(rate) => d.uniform < rate
    case LossRandom => d.coin
  }

  /** A rate of zero (or less) never drops a fragment. */
  lemma RateZeroNeverDrops(rate: real, n: int, d: Draw)
    requires rate <= 0.0 && ValidDraw(d)
    ensures !ShouldDrop(LossRate(rate), n, d)
  {
  }

  /** A rate of one (or more) drops every fragment. */
  lemma RateOneAlwaysDrops(rate: real, n: int, d: Draw)
    requires rate >= 1.0 && ValidDraw(d)
    ensures ShouldDrop(LossRate(rate), n, d)
  {
  }
}
