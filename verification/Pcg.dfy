// The permuted congruential generators.
module Pcg {
  import opened ModArith
  import opened PcgPeriod
  import opened PcgBounded

  type U32 = x: int | 0 <= x < W32
  type U64 = x: int | 0 <= x < W64

  // ------------------------------------------------------- two-limb integers

  // A copy of a 128-bit value.
  datatype U128 = U128(hi: U64, lo: U64) {
    function Val(): (v: nat)
      ensures v < W128
    {
      hi * W64 + lo
    }
  }

  // bits.Mul64
  function Mul64(x: U64, y: U64): (r: (U64, U64))
    ensures r.0 * W64 + r.1 == x * y
  {
    DivMod(x * y, W64);
    MulStrict(x, W64, y);
    MulStrict(y, W64, W64);
    assert x * y < W64 * W64;
    MulStrict(W64 - 1, x * y / W64, W64);
    (x * y / W64, x * y % W64)
  }

  lemma HighLimbWraps(h: nat, lo: U64)
    ensures (h % W64) * W64 + lo == (h * W64 + lo) % W128
  {
    DivMod(h, W64);
    var (q, r) := (h / W64, h % W64);
    assert h * W64 + lo == q * W128 + (r * W64 + lo);
    DivModUnique(q, r * W64 + lo, W128);
  }

  // Reducing every partial sum is reducing their sum.
  lemma SumOfReduced(a: nat, b: nat, c: nat)
    ensures ((a + b % W64) % W64 + c % W64) % W64 == (a + b + c) % W64
  {
  }

  lemma ProductOfLimbs(xh: int, xl: int, yh: int, yl: int, w: int)
    ensures (xh * w + xl) * (yh * w + yl) == xh * yh * (w * w) + (xh * yl + xl * yh) * w + xl * yl
  {
    calc {
      (xh * w + xl) * (yh * w + yl);
      xh * w * (yh * w + yl) + xl * (yh * w + yl);
      xh * w * (yh * w) + xh * w * yl + xl * (yh * w) + xl * yl;
      xh * yh * (w * w) + (xh * yl + xl * yh) * w + xl * yl;
    }
  }

  // The high limb collects the partial products a and b; c * W128 is lost.
  lemma SumLimbs(hi: nat, lo: U64, a: nat, b: nat, c: nat)
    ensures ((hi + a % W64) % W64 + b % W64) % W64 * W64 + lo == (c * (W64 * W64) + (a + b) * W64 + hi * W64 + lo) % W128
  {
    SumOfReduced(hi, a, b);
    HighLimbWraps(hi + a + b, lo);
    ModShift((hi + a + b) * W64 + lo, c, W128);
  }

  // The schoolbook product, without its highest limb.
  function Product(x: U128, y: U128): (r: U128)
    ensures r.Val() == x.Val() * y.Val() % W128
  {
    var (h, l) := Mul64(x.lo, y.lo);
    SumLimbs(h, l, x.hi * y.lo, x.lo * y.hi, x.hi * y.hi);
    ProductOfLimbs(x.hi, x.lo, y.hi, y.lo, W64);
    U128(((h + x.hi * y.lo % W64) % W64 + x.lo * y.hi % W64) % W64, l)
  }

  class XUint128 {
    var hi: U64
    var lo: U64

    constructor (v: U128)
      ensures Get() == v
    {
      hi, lo := v.hi, v.lo;
    }

    function Get(): U128
      reads this
    {
      U128(hi, lo)
    }

    function Val(): (v: nat)
      reads this
      ensures v < W128
    {
      Get().Val()
    }

    method Add(y: U128)
      modifies this
      ensures Val() == (old(Val()) + y.Val()) % W128
    {
      ghost var v := Val() + y.Val();
      var sum := lo + y.lo;
      var carry := sum / W64;
      lo := sum % W64;
      HighLimbWraps(hi + y.hi + carry, lo);
      hi := (hi + y.hi + carry) % W64;
    }

    method Multiply(y: U128)
      modifies this
      ensures Val() == old(Val()) * y.Val() % W128
    {
      ghost var r := Product(Get(), y);
      var (h, l) := Mul64(lo, y.lo);
      h := (h + hi * y.lo % W64) % W64;
      h := (h + lo * y.hi % W64) % W64;
      hi := h;
      lo := l;
      assert Get() == r;
    }
  }

  // ------------------------------------------------------------- jump ahead

  lemma OddJump(d: nat, x: nat, state: nat, a: nat, c: nat, accMult: nat, accPlus: nat, m: nat)
    requires m > 0 && d % 2 == 1 && x == (accMult * state + accPlus) % m
    ensures Iterate(d, x, a, c, m)
      == Iterate(d - 1, (accMult * a % m * state + (accPlus * a % m + c) % m) % m, a, c, m)
  {
    ModAffine(a, accMult * state + accPlus, c, m);
    var (p, q) := (accMult * a, accPlus * a);
    assert a * (accMult * state + accPlus) + c == p * state + (q + c);
    ModAdd(q, c, m);
    ModMul(p, state, m);
    ModAdd(p * state, q + c, m);
    ModAdd(p % m * state, (q + c) % m, m);
    ModAdd(q + c, p % m * state, m);
    ModAdd(p % m * state, q + c, m);
    assert Step(x, a, c, m) == (p % m * state + (q % m + c) % m) % m;
  }

  // A d-fold jump from the state reached so far is the whole jump.
  method AdvanceLCG64(state: U64, delta: U64, mult: U64, plus: U64) returns (r: U64)
    ensures r == Iterate(delta, state, mult, plus, W64)
  {
    var accMult: U64, accPlus: U64 := 1, 0;
    var curMult: U64, curPlus: U64, d: U64 := mult, plus, delta;
    DivModUnique(0, state, W64);
    while d != 0
      invariant Iterate(d, (accMult * state + accPlus) % W64, curMult, curPlus, W64) == Iterate(delta, state, mult, plus, W64)
    {
      ghost var x := (accMult * state + accPlus) % W64;
      if d % 2 != 0 {
        OddJump(d, x, state, curMult, curPlus, accMult, accPlus, W64);
        accMult := accMult * curMult % W64;
        accPlus := (accPlus * curMult % W64 + curPlus) % W64;
        x := (accMult * state + accPlus) % W64;
      }
      IterateDouble(d / 2, x, curMult, curPlus, W64);
      WrappedNext(curPlus, curMult, W64);
      curPlus := curPlus * ((curMult + 1) % W64) % W64;
      curMult := curMult * curMult % W64;
      d := d / 2;
    }
    ModMul(accMult, state, W64);
    ModAdd(accMult * state, accPlus, W64);
    return (accMult * state % W64 + accPlus) % W64;
  }

  lemma WrappedNext(c: nat, a: nat, m: nat)
    requires m > 0
    ensures c * ((a + 1) % m) % m == c * (a + 1) % m
  {
    ModMul(a + 1, c, m);
  }

  // d steps after -d steps, and -d steps after d steps, lead back to the start.
  lemma RetreatReturns(x: nat, a: nat, c: nat, d: nat, k: nat)
    requires x < Pow2(k) && d < Pow2(k) && a % 2 == 1
    ensures var (m, e) := (Pow2(k), Negate(d, Pow2(k)));
      && Iterate(d, Iterate(e, x, a, c, m), a, c, m) == x
      && Iterate(e, Iterate(d, x, a, c, m), a, c, m) == x
  {
    var (m, e) := (Pow2(k), Negate(d, Pow2(k)));
    if d == 0 {
      DivModUnique(1, 0, m);
    } else {
      NegateMod(d, m);
      IterateAdd(e, d, x, a, c, m);
      IterateAdd(d, e, x, a, c, m);
      DivModUnique(1, 0, m);
      StepsReturn(m, x, a, c, k);
    }
  }

  lemma OneStep(x: nat, a: nat, c: nat, m: nat)
    requires m > 0
    ensures Iterate(1, x, a, c, m) == Step(x, a, c, m)
  {
    assert Iterate(0, Step(x, a, c, m), a, c, m) == Step(x, a, c, m);
  }

  // Shifting a word of two halves by one place moves its top bit out.
  lemma TopBit(x: nat, half: nat)
    requires x < 2 * half
    ensures x * 2 % (2 * half) == x * 2 - x / half * (2 * half)
    ensures x / half == if x < half then 0 else 1
  {
    if x < half {
      DivModUnique(0, x, half);
      DivModUnique(0, 2 * x, 2 * half);
    } else {
      DivModUnique(1, x - half, half);
      DivModUnique(1, 2 * x - 2 * half, 2 * half);
    }
  }

  // Shifting it by all places but one leaves its low bit.
  lemma LowBitShifted(x: nat, half: nat)
    requires half > 0
    ensures x * half % (2 * half) == x % 2 * half
  {
    calc {
      x * half;
      (x / 2 * 2 + x % 2) * half;
      x / 2 * (2 * half) + x % 2 * half;
    }
    DivModUnique(x / 2, x % 2 * half, 2 * half);
  }

  function HalveLimbs(d: U128): (h: U128)
    ensures h.Val() == d.Val() / 2
  {
    // the two operands of the source's bitwise or share no bit
    LowBitShifted(d.hi, W64 / 2);
    U128(d.hi / 2, d.hi * (W64 / 2) % W64 + d.lo / 2)
  }

  lemma LowBit(d: U128)
    ensures d.Val() % 2 == d.lo % 2
  {
    ModShift(d.lo, d.hi * (W64 / 2), 2);
  }

  lemma ValIsInjective(x: U128, y: U128)
    ensures x.Val() == y.Val() <==> x == y
  {
  }

  // What is left of the jump, seen from the accumulated map.
  ghost function JumpLeft(d: nat, s: nat, accMult: nat, accPlus: nat, curMult: nat, curPlus: nat): nat {
    Iterate(d, (accMult * s + accPlus) % W128, curMult, curPlus, W128)
  }

  lemma JumpOdd(d: nat, s: nat, accMult: nat, accPlus: nat, curMult: nat, curPlus: nat)
    requires d % 2 == 1
    ensures JumpLeft(d, s, accMult, accPlus, curMult, curPlus)
      == JumpLeft(d - 1, s, accMult * curMult % W128, (accPlus * curMult % W128 + curPlus) % W128, curMult, curPlus)
  {
    OddJump(d, (accMult * s + accPlus) % W128, s, curMult, curPlus, accMult, accPlus, W128);
  }

  lemma JumpEven(d: nat, s: nat, accMult: nat, accPlus: nat, curMult: nat, curPlus: nat)
    requires d % 2 == 0
    ensures JumpLeft(d, s, accMult, accPlus, curMult, curPlus)
      == JumpLeft(d / 2, s, accMult, accPlus, curMult * curMult % W128, curPlus * ((curMult + 1) % W128) % W128)
  {
    IterateDouble(d / 2, (accMult * s + accPlus) % W128, curMult, curPlus, W128);
    WrappedNext(curPlus, curMult, W128);
  }

  // Taking one step into the accumulated map.
  method AccumulateStep(accMult: XUint128, accPlus: XUint128, mult: U128, plus: U128, ghost d: nat, ghost s: nat)
    requires accMult != accPlus && d % 2 == 1
    modifies accMult, accPlus
    ensures JumpLeft(d - 1, s, accMult.Val(), accPlus.Val(), mult.Val(), plus.Val())
      == old(JumpLeft(d, s, accMult.Val(), accPlus.Val(), mult.Val(), plus.Val()))
  {
    JumpOdd(d, s, accMult.Val(), accPlus.Val(), mult.Val(), plus.Val());
    accMult.Multiply(mult);
    accPlus.Multiply(mult);
    accPlus.Add(plus);
  }

  // Replacing the map to be taken by its square.
  method SquareStep(curMult: XUint128, curPlus: XUint128, ghost d: nat, ghost s: nat, ghost am: nat, ghost ap: nat)
    requires curMult != curPlus && d % 2 == 0
    modifies curMult, curPlus
    ensures JumpLeft(d / 2, s, am, ap, curMult.Val(), curPlus.Val())
      == old(JumpLeft(d, s, am, ap, curMult.Val(), curPlus.Val()))
  {
    JumpEven(d, s, am, ap, curMult.Val(), curPlus.Val());
    var t := new XUint128(curMult.Get());
    t.Add(U128(0, 1));
    curPlus.Multiply(t.Get());
    curMult.Multiply(curMult.Get());
  }

  // The loop body of AdvanceLCG128.
  method JumpStep(d: U128, accMult: XUint128, accPlus: XUint128, curMult: XUint128, curPlus: XUint128, ghost s: nat)
    returns (d': U128)
    requires accMult != accPlus && curMult != curPlus && {accMult, accPlus} !! {curMult, curPlus}
    modifies accMult, accPlus, curMult, curPlus
    ensures d'.Val() == d.Val() / 2
    ensures JumpLeft(d'.Val(), s, accMult.Val(), accPlus.Val(), curMult.Val(), curPlus.Val())
      == old(JumpLeft(d.Val(), s, accMult.Val(), accPlus.Val(), curMult.Val(), curPlus.Val()))
  {
    LowBit(d);
    ghost var n := d.Val();
    if d.lo % 2 != 0 {
      AccumulateStep(accMult, accPlus, curMult.Get(), curPlus.Get(), n, s);
      n := n - 1;
    }
    SquareStep(curMult, curPlus, n, s, accMult.Val(), accPlus.Val());
    d' := HalveLimbs(d);
  }

  // Applying the accumulated map.
  method ApplyMap(accMult: XUint128, accPlus: XUint128, state: U128) returns (r: U128)
    requires accMult != accPlus
    modifies accMult
    ensures r.Val() == (old(accMult.Val()) * state.Val() + accPlus.Val()) % W128
  {
    ModAdd(accMult.Val() * state.Val(), accPlus.Val(), W128);
    accMult.Multiply(state);
    accMult.Add(accPlus.Get());
    return accMult.Get();
  }

  method AdvanceLCG128(state: U128, delta: U128, mult: U128, plus: U128) returns (r: U128)
    ensures r.Val() == Iterate(delta.Val(), state.Val(), mult.Val(), plus.Val(), W128)
  {
    var zero := U128(0, 0);
    var accMult := new XUint128(U128(0, 1));
    var accPlus := new XUint128(U128(0, 0));
    var curMult := new XUint128(mult);
    var curPlus := new XUint128(plus);
    var d := delta;
    ghost var s := state.Val();
    DivModUnique(0, s, W128);
    while d != zero
      invariant fresh(accMult) && fresh(accPlus) && fresh(curMult) && fresh(curPlus)
      invariant accMult != accPlus && curMult != curPlus && {accMult, accPlus} !! {curMult, curPlus}
      invariant JumpLeft(d.Val(), s, accMult.Val(), accPlus.Val(), curMult.Val(), curPlus.Val())
        == Iterate(delta.Val(), s, mult.Val(), plus.Val(), W128)
      decreases d.Val()
    {
      ValIsInjective(d, zero);
      d := JumpStep(d, accMult, accPlus, curMult, curPlus, s);
    }
    r := ApplyMap(accMult, accPlus, state);
  }
}
