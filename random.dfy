/**
  The module-level generator of Python's `random`, as far as the word-search generator
  uses it: `random.seed(s)` and `random.choice(lst)`. The Mersenne Twister itself is not
  modelled: the outputs that follow a seed are the function `streamOf(s)`, and each
  `choice` consumes one of them and picks the entry at that output modulo the length.
 */
module Random {
  class Generator {
    /** The outputs that follow `random.seed(s)`. */
    const streamOf: int -> (nat -> nat)
    /** The outputs of the current seeding, and how many have been consumed. */
    var stream: nat -> nat
    var pos: nat

    constructor (streamOf: int -> (nat -> nat), initial: nat -> nat)
      ensures this.streamOf == streamOf && stream == initial && pos == 0
    {
      this.streamOf := streamOf;
      stream := initial;
      pos := 0;
    }

    /** The outputs still to come: the `t`-th next `choice` uses `Upcoming()(t)`. */
    function Upcoming(): (u: nat -> nat)
      reads this
      ensures forall t :: u(t) == stream(pos + t)
    {
      var s, p := stream, pos;
      (t: nat) => s(p + t)
    }

    /** `random.seed(s)`: restart at the first output of seed `s`. */
    method Seed(s: int)
      modifies this
      ensures stream == streamOf(s) && pos == 0
    {
      stream := streamOf(s);
      pos := 0;
    }

    /** `random.choice` on a list of `n > 0` entries: the index it picks. */
    method Choice(n: nat) returns (i: nat)
      requires n > 0
      modifies this
      ensures i < n && i == old(stream)(old(pos)) % n
      ensures stream == old(stream) && pos == old(pos) + 1
    {
      i := stream(pos) % n;
      pos := pos + 1;
    }
  }
}
