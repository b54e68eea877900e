// The PCG64 generator: 128 bits of state, 64 bits of output.
module Pcg64 {
  import opened ModArith
  import opened PcgPeriod
  import opened PcgBounded
  import opened PcgOutput
  import opened Pcg

  const MULTIPLIER := U128(0x2360_ed05_1fc6_5da4, 0x4385_df64_9fcc_f645)

  // The word a generator returns on reaching a state.
  function OutputOf(x: U128): (r: U64) {
    Output64(x.hi, x.lo)
  }

  function FromVal(v: nat): (x: U128)
    requires v < W128
    ensures x.Val() == v
  {
    DivMod(v, W64);
    U128(v / W64, v % W64)
  }

  // The i-th word a generator in state s is going to return: the output of the state after it.
  ghost function Raw(s: U128, inc: U128, i: nat): (r: nat)
    ensures r < W64
  {
    IterateInRange(i + 1, s.Val(), MULTIPLIER.Val(), inc.Val(), W128);
    OutputOf(FromVal(Iterate(i + 1, s.Val(), MULTIPLIER.Val(), inc.Val(), W128)))
  }

  lemma FirstRaw(s: U128, inc: U128, next: U128)
    requires next.Val() == Step(s.Val(), MULTIPLIER.Val(), inc.Val(), W128)
    ensures OutputOf(next) == Raw(s, inc, 0)
    ensures next.Val() == Iterate(1, s.Val(), MULTIPLIER.Val(), inc.Val(), W128)
  {
    OneStep(s.Val(), MULTIPLIER.Val(), inc.Val(), W128);
    ValIsInjective(next, FromVal(next.Val()));
  }

  // Where n steps have led to, the next word and the next state are those of n more steps.
  lemma NextRaw(s: U128, inc: U128, n: nat, t: U128)
    requires t.Val() == Iterate(n, s.Val(), MULTIPLIER.Val(), inc.Val(), W128)
    ensures Raw(t, inc, 0) == Raw(s, inc, n)
    ensures Iterate(1, t.Val(), MULTIPLIER.Val(), inc.Val(), W128)
      == Iterate(n + 1, s.Val(), MULTIPLIER.Val(), inc.Val(), W128)
  {
    IterateAdd(n, 1, s.Val(), MULTIPLIER.Val(), inc.Val(), W128);
  }

  // Word n is the first one that Lemire's method accepts.
  ghost predicate FirstAccepted(s: U128, inc: U128, b: nat, n: nat)
    requires 0 < b
  {
    && Accepts(Raw(s, inc, n), b, W64)
    && forall i: nat | i < n :: !Accepts(Raw(s, inc, i), b, W64)
  }

  // Word n is the first one at or above the threshold.
  ghost predicate FirstAbove(s: U128, inc: U128, b: nat, n: nat)
    requires 0 < b
  {
    && Raw(s, inc, n) >= Threshold(b, W64)
    && forall i: nat | i < n :: Raw(s, inc, i) < Threshold(b, W64)
  }

  // Every word comes up eventually, because the generator visits every state.
  lemma EveryWordComes(s: U128, inc: U128, v: U64) returns (n: nat)
    requires inc.lo % 2 == 1
    ensures Raw(s, inc, n) == v
  {
    WordSizes();
    Output64Onto(v);
    LowBit(inc);
    LowTwoBits(MULTIPLIER);
    ghost var goal := U128(0, v);
    ghost var first := Step(s.Val(), MULTIPLIER.Val(), inc.Val(), W128);
    n := VisitsEveryState(first, goal.Val(), MULTIPLIER.Val(), inc.Val(), B128);
    ValIsInjective(goal, FromVal(goal.Val()));
  }

  lemma LowTwoBits(d: U128)
    ensures d.Val() % 4 == d.lo % 4
  {
    ModShift(d.lo, d.hi * (W64 / 4), 4);
  }

  lemma AcceptedWordComes(s: U128, inc: U128, b: U64) returns (n: nat)
    requires inc.lo % 2 == 1 && 0 < b
    ensures Accepts(Raw(s, inc, n), b, W64)
  {
    var v := SomeWordAccepted(b, W64);
    n := EveryWordComes(s, inc, v);
  }

  // The shift by one and the bit set below it; the operands of each bitwise or share no bit.
  function OddIncrement(hi: U64, lo: U64): (r: U128)
    ensures r.lo % 2 == 1 && r.Val() == (U128(hi, lo).Val() * 2 + 1) % W128
  {
    var half := W64 / 2;
    TopBit(lo, half);
    HighLimbWraps(hi * 2 + lo / half, lo * 2 % W64 + 1);
    U128(hi * 2 % W64 + lo / (W64 / 2), lo * 2 % W64 + 1)
  }

  // Complementing both limbs and adding one negates modulo 2^128.
  lemma ComplementNegates(d: U128)
    ensures (U128(W64 - 1 - d.hi, W64 - 1 - d.lo).Val() + 1) % W128 == Negate(d.Val(), W128)
  {
  }

  class PCG64 {
    const state: XUint128
    var inc: U128

    // Both ways of setting up a generator give an odd increment.
    ghost predicate Valid()
      reads this
    {
      inc.lo % 2 == 1
    }

    // The value of the state n steps ahead.
    ghost function After(n: nat): nat
      reads this, state
    {
      Iterate(n, state.Val(), MULTIPLIER.Val(), inc.Val(), W128)
    }

    constructor ()
      ensures Valid() && fresh(state)
    {
      state := new XUint128(U128(0x979c_9a98_d846_2005, 0x7d3e_9cb6_cfe0_549b));
      inc := U128(0x1, 0xda3e_39cb_94b9_5bdb);
    }

    method Seed(stateHi: U64, stateLo: U64, seqHi: U64, seqLo: U64)
      modifies this, state
      ensures Valid() && inc.Val() == (U128(seqHi, seqLo).Val() * 2 + 1) % W128
      ensures state.Val() == Step((U128(stateHi, stateLo).Val() + inc.Val()) % W128, MULTIPLIER.Val(), inc.Val(), W128)
    {
      state.hi, state.lo := stateHi, stateLo;
      inc := OddIncrement(seqHi, seqLo);
      state.Add(inc);
      MultiplyAdd();
    }

    method MultiplyAdd()
      modifies state
      ensures state.Val() == Step(old(state.Val()), MULTIPLIER.Val(), inc.Val(), W128)
    {
      ModAdd(state.Val() * MULTIPLIER.Val(), inc.Val(), W128);
      state.Multiply(MULTIPLIER);
      state.Add(inc);
    }

    method Random() returns (r: U64)
      modifies state
      ensures r == Raw(old(state.Get()), inc, 0) && state.Val() == old(After(1))
    {
      ghost var s := state.Get();
      MultiplyAdd();
      FirstRaw(s, inc, state.Get());
      r := OutputOf(state.Get());
    }

    method SlowBounded(bound: U64) returns (r: U64)
      requires Valid()
      modifies state
      ensures bound == 0 ==> r == 0 && state.Get() == old(state.Get())
      ensures bound > 0 ==> r < bound
      ensures bound > 0 ==> exists n: nat ::
        FirstAbove(old(state.Get()), inc, bound, n) && r == Raw(old(state.Get()), inc, n) % bound
        && state.Val() == old(After(n + 1))
    {
      if bound == 0 {
        return 0;
      }
      NegateMod(bound, W64);
      var threshold := Negate(bound, W64) % bound;
      ghost var s := state.Get();
      ghost var n: nat := 0;
      ghost var goal := EveryWordComes(s, inc, W64 - 1);
      while true
        invariant state.Val() == old(After(n)) && n <= goal
        invariant forall i: nat | i < n :: Raw(s, inc, i) < threshold
        decreases goal - n
      {
        NextRaw(s, inc, n, state.Get());
        r := Random();
        if r >= threshold {
          assert FirstAbove(s, inc, bound, n) && r == Raw(s, inc, n);
          return r % bound;
        }
        n := n + 1;
      }
    }

    method Bounded(bound: U64) returns (r: U64)
      requires Valid()
      modifies state
      ensures bound == 0 ==> r == 0 && state.Val() == old(After(1))
      ensures bound > 0 ==> r < bound
      ensures bound > 0 ==> exists n: nat ::
        FirstAccepted(old(state.Get()), inc, bound, n) && r == Scale(Raw(old(state.Get()), inc, n), bound, W64)
        && state.Val() == old(After(n + 1))
    {
      ghost var s := state.Get();
      var v := Random();
      var (high, low) := Mul64(v, bound);
      ghost var n: nat := 0;
      DivModUnique(high, low, W64);
      if low < bound {
        ShortcutIsThreshold(bound, W64);
        var thresh := ShortcutThreshold(bound, W64);
        ghost var goal := AcceptedWordComes(s, inc, bound);
        while low < thresh
          invariant v == Raw(s, inc, n) && high == v * bound / W64 && low == v * bound % W64
          invariant state.Val() == old(After(n + 1)) && n <= goal
          invariant forall i: nat | i < n :: !Accepts(Raw(s, inc, i), bound, W64)
          decreases goal - n
        {
          NextRaw(s, inc, n + 1, state.Get());
          v := Random();
          var (h, l) := Mul64(v, bound);
          DivModUnique(h, l, W64);
          high, low := h, l;
          n := n + 1;
        }
      }
      if bound > 0 {
        ScaleBelowBound(v, bound, W64);
        assert FirstAccepted(s, inc, bound, n);
      }
      return high;
    }

    method Advance(deltaHi: U64, deltaLo: U64)
      modifies state
      ensures state.Val() == old(After(U128(deltaHi, deltaLo).Val()))
    {
      var x := AdvanceLCG128(state.Get(), U128(deltaHi, deltaLo), MULTIPLIER, inc);
      state.hi, state.lo := x.hi, x.lo;
    }

    // Leads to the state from which delta steps lead back here.
    method Retreat(deltaHi: U64, deltaLo: U64)
      modifies state
      ensures After(U128(deltaHi, deltaLo).Val()) == old(state.Val())
      ensures state.Val() == old(After(Negate(U128(deltaHi, deltaLo).Val(), W128)))
    {
      var t := new XUint128(U128(W64 - 1 - deltaHi, W64 - 1 - deltaLo));
      t.Add(U128(0, 1));
      ComplementNegates(U128(deltaHi, deltaLo));
      WordSizes();
      LowBit(MULTIPLIER);
      RetreatReturns(state.Val(), MULTIPLIER.Val(), inc.Val(), U128(deltaHi, deltaLo).Val(), B128);
      Advance(t.hi, t.lo);
    }
  }
}
