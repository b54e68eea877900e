// The PCG32 generator: 64 bits of state, 32 bits of output.
module Pcg32 {
  import opened ModArith
  import opened PcgPeriod
  import opened PcgBounded
  import opened PcgOutput
  import opened Pcg

  const MULT: U64 := 0x5851_f42d_4c95_7f2d

  // The i-th word a generator in state s is going to return.
  ghost function Raw(s: U64, inc: U64, i: nat): (r: nat)
    ensures r < W32
  {
    Output32(Iterate(i, s, MULT, inc, W64))
  }

  // Word n is the first one that Lemire's method accepts.
  ghost predicate FirstAccepted(s: U64, inc: U64, b: nat, n: nat)
    requires 0 < b
  {
    && Accepts(Raw(s, inc, n), b, W32)
    && forall i: nat | i < n :: !Accepts(Raw(s, inc, i), b, W32)
  }

  // Word n is the first one at or above the threshold.
  ghost predicate FirstAbove(s: U64, inc: U64, b: nat, n: nat)
    requires 0 < b
  {
    && Raw(s, inc, n) >= Threshold(b, W32)
    && forall i: nat | i < n :: Raw(s, inc, i) < Threshold(b, W32)
  }

  // Every word comes up eventually, because the generator visits every state.
  lemma EveryWordComes(s: U64, inc: U64, v: U32) returns (n: nat)
    requires inc % 2 == 1
    ensures Raw(s, inc, n) == v
  {
    WordSizes();
    Output32Onto(v);
    n := VisitsEveryState(s, Source32(v), MULT, inc, B64);
  }

  // One step on machine words: the product wraps, and so does the sum.
  function WrappedStep(x: U64, a: U64, c: U64): (r: U64)
    ensures r == Step(x, a, c, W64)
  {
    ModAdd(x * a, c, W64);
    MulNonneg(x, a);
    (x * a % W64 + c) % W64
  }

  function OddIncrement(sequence: U64): (r: U64)
    ensures r % 2 == 1 && r == sequence * 2 % W64 + 1
  {
    TopBit(sequence, W64 / 2);
    sequence * 2 % W64 + 1
  }

  class PCG32 {
    var state: U64
    var inc: U64

    // Both ways of setting up a generator give an odd increment.
    ghost predicate Valid()
      reads this
    {
      inc % 2 == 1
    }

    // The state n calls of Random lead to.
    ghost function After(n: nat): nat
      reads this
    {
      Iterate(n, state, MULT, inc, W64)
    }

    constructor ()
      ensures Valid()
    {
      state := 0x853c_49e6_748f_ea9b;
      inc := 0xda3e_39cb_94b9_5bdb;
    }

    method Seed(state: U64, sequence: U64)
      modifies this
      ensures Valid() && inc == sequence * 2 % W64 + 1
      ensures this.state == Step((state + inc) % W64, MULT, inc, W64)
    {
      inc := OddIncrement(sequence);
      this.state := WrappedStep((state + inc) % W64, MULT, inc);
    }

    method Random() returns (r: U32)
      modifies this`state
      ensures r == Output32(old(state)) && state == old(After(1))
    {
      r := Output32(state);
      OneStep(state, MULT, inc, W64);
      state := WrappedStep(state, MULT, inc);
    }

    method SlowBounded(bound: U32) returns (r: U32)
      requires Valid()
      modifies this`state
      ensures bound == 0 ==> r == 0 && state == old(state)
      ensures bound > 0 ==> r < bound
      ensures bound > 0 ==> exists n: nat ::
        FirstAbove(old(state), inc, bound, n) && r == Raw(old(state), inc, n) % bound && state == old(After(n + 1))
    {
      if bound == 0 {
        return 0;
      }
      NegateMod(bound, W32);
      var threshold := Negate(bound, W32) % bound;
      ghost var n: nat := 0;
      ghost var goal := EveryWordComes(state, inc, W32 - 1);
      while true
        invariant state == old(After(n)) && n <= goal
        invariant forall i: nat | i < n :: Raw(old(state), inc, i) < threshold
        decreases goal - n
      {
        IterateAdd(n, 1, old(state), MULT, inc, W64);
        r := Random();
        if r >= threshold {
          assert FirstAbove(old(state), inc, bound, n) && r == Raw(old(state), inc, n);
          return r % bound;
        }
        n := n + 1;
      }
    }

    method Bounded(bound: U32) returns (r: U32)
      requires Valid()
      modifies this`state
      ensures bound == 0 ==> r == 0 && state == old(After(1))
      ensures bound > 0 ==> r < bound
      ensures bound > 0 ==> exists n: nat ::
        FirstAccepted(old(state), inc, bound, n) && r == Scale(Raw(old(state), inc, n), bound, W32) && state == old(After(n + 1))
    {
      var v := Random();
      var prod := v * bound;
      var low := prod % W32;
      ghost var n: nat := 0;
      if low < bound {
        NegateMod(bound, W32);
        var thresh := Negate(bound, W32) % bound;
        ghost var goal := AcceptedWordComes(old(state), inc, bound);
        while low < thresh
          invariant v == Raw(old(state), inc, n) && prod == v * bound && low == prod % W32
          invariant state == old(After(n + 1)) && n <= goal
          invariant forall i: nat | i < n :: !Accepts(Raw(old(state), inc, i), bound, W32)
          decreases goal - n
        {
          IterateAdd(n + 1, 1, old(state), MULT, inc, W64);
          v := Random();
          prod := v * bound;
          low := prod % W32;
          n := n + 1;
        }
      }
      if bound > 0 {
        ScaleBelowBound(v, bound, W32);
        assert FirstAccepted(old(state), inc, bound, n);
      }
      MulNonneg(v, bound);
      return prod / W32;
    }

    method Advance(delta: U64)
      modifies this`state
      ensures state == old(After(delta))
    {
      state := AdvanceLCG64(state, delta, MULT, inc);
    }

    // Leads to the state from which delta steps lead back here.
    method Retreat(delta: U64)
      modifies this`state
      ensures After(delta) == old(state)
      ensures state == old(After(Negate(delta, W64)))
    {
      WordSizes();
      RetreatReturns(state, MULT, inc, delta, B64);
      Advance(Negate(delta, W64));
    }
  }

  lemma AcceptedWordComes(s: U64, inc: U64, b: U32) returns (n: nat)
    requires inc % 2 == 1 && 0 < b
    ensures Accepts(Raw(s, inc, n), b, W32)
  {
    var v := SomeWordAccepted(b, W32);
    n := EveryWordComes(s, inc, v);
  }
}
