/** A seeded source of random numbers: what it gives depends on nothing but what it has been asked. */
module Chance {
  /** For the bounds asked of a source so far, the number it gives for the last of them. A seed fixes one of these. */
  type Rolls = seq<nat> -> nat

  function Roll(rolls: Rolls, asked: seq<nat>, n: nat): (r: nat)
    requires 0 < n
    ensures r < n
  {
    rolls(asked + [n]) % n
  }

  class Random {
    const rolls: Rolls
    var asked: seq<nat>

    constructor (rolls: Rolls)
      ensures this.rolls == rolls && asked == []
    {
      this.rolls, asked := rolls, [];
    }

    /** The next number below `n`. */
    method IntN(n: nat) returns (r: nat)
      requires 0 < n
      modifies this`asked
      ensures r < n && r == Roll(rolls, old(asked), n) && asked == old(asked) + [n]
    {
      r := Roll(rolls, asked, n);
      asked := asked + [n];
    }
  }
}
