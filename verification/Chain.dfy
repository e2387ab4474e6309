/** A member's chain: a seed that steps per message and the yield of each step. */
module Chains {
  import opened Basics
  import opened Suites

  const LAST_STEP: U32 := U32_LIMIT - 1

  datatype Yield = Yield(step: U32, seed: Bytes32) {
    function Keys(c: Suite): CircleKeys {
      c.circleKeys(seed)
    }
  }

  datatype Link = Link(step: U32, seed: Bytes32) {
    /** The next link; adding one to the last 32-bit step traps. */
    function Advance(c: Suite): Link
      requires step < LAST_STEP
    {
      Link(step + 1, c.chainNext(seed))
    }

    function YieldNow(c: Suite): Yield {
      Yield(step, c.chainSeed(seed))
    }
  }

  /** The simple function everything agrees with: the seed stepped `n` times. */
  function SeedAfter(c: Suite, seed: Bytes32, n: nat): Bytes32 {
    if n == 0 then seed else c.chainNext(SeedAfter(c, seed, n - 1))
  }

  /** The yield of the step `n` places after `link`. */
  function YieldAfter(c: Suite, link: Link, n: nat): Yield
    requires link.step + n < U32_LIMIT
  {
    Yield(link.step + n, c.chainSeed(SeedAfter(c, link.seed, n)))
  }

  /** The yields of the `n` steps from `link` on. */
  function Yields(c: Suite, link: Link, n: nat): (ys: seq<Yield>)
    requires link.step + n < U32_LIMIT
    ensures |ys| == n
  {
    seq(n, i requires 0 <= i < n => YieldAfter(c, link, i))
  }

  lemma {:induction false} SeedAfterAdds(c: Suite, seed: Bytes32, a: nat, b: nat)
    ensures SeedAfter(c, SeedAfter(c, seed, a), b) == SeedAfter(c, seed, a + b)
  {
    if b > 0 {
      SeedAfterAdds(c, seed, a, b - 1);
    }
  }
}
