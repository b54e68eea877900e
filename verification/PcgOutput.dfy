// The output permutations of the generators, and that every word is some state's output.
module PcgOutput {
  import opened ModArith
  import opened PcgPeriod

  function Xor(a: nat, b: nat): nat
    decreases a + b
  {
    if a == 0 && b == 0 then 0
    else 2 * Xor(a / 2, b / 2) + if a % 2 != b % 2 then 1 else 0
  }

  lemma XorStep(a: nat, b: nat)
    ensures Xor(a, b) / 2 == Xor(a / 2, b / 2)
    ensures Xor(a, b) % 2 == if a % 2 != b % 2 then 1 else 0
  {
  }

  lemma {:induction false} XorZero(a: nat)
    ensures Xor(a, 0) == a
  {
    if a > 0 {
      XorZero(a / 2);
    }
  }

  lemma {:induction false} XorComm(a: nat, b: nat)
    ensures Xor(a, b) == Xor(b, a)
    decreases a + b
  {
    if a + b > 0 {
      XorComm(a / 2, b / 2);
    }
  }

  // The first two operands cancel.
  lemma {:induction false} XorCancels(a: nat, b: nat)
    ensures Xor(a, Xor(a, b)) == b
    decreases a + b
  {
    if a + b > 0 {
      XorStep(a, b);
      XorCancels(a / 2, b / 2);
      XorStep(a, Xor(a, b));
    } else {
      assert Xor(0, 0) == 0;
    }
  }

  // Shifts by k places, one place at a time.
  function Shr(a: nat, k: nat): nat {
    if k == 0 then a else Shr(a / 2, k - 1)
  }

  function Shl(a: nat, k: nat): nat {
    if k == 0 then a else 2 * Shl(a, k - 1)
  }

  lemma {:induction false} XorShift(a: nat, b: nat, k: nat)
    ensures Shr(Xor(a, b), k) == Xor(Shr(a, k), Shr(b, k))
  {
    if k > 0 {
      XorStep(a, b);
      XorShift(a / 2, b / 2, k - 1);
    }
  }

  lemma {:induction false} XorBound(a: nat, b: nat, k: nat)
    requires a < Pow2(k) && b < Pow2(k)
    ensures Xor(a, b) < Pow2(k)
  {
    if k > 0 {
      XorStep(a, b);
      XorBound(a / 2, b / 2, k - 1);
    }
  }

  lemma {:induction false} ShrAdd(a: nat, i: nat, j: nat)
    ensures Shr(a, i + j) == Shr(Shr(a, i), j)
  {
    if i > 0 {
      ShrAdd(a / 2, i - 1, j);
    }
  }

  lemma {:induction false} ShrUndoesShl(a: nat, i: nat, j: nat)
    ensures Shr(Shl(a, i + j), i) == Shl(a, j)
  {
    if i > 0 {
      ShrUndoesShl(a, i - 1, j);
    }
  }

  lemma {:induction false} ShrToZero(a: nat, k: nat)
    requires a < Pow2(k)
    ensures Shr(a, k) == 0
  {
    if k > 0 {
      ShrToZero(a / 2, k - 1);
    }
  }

  lemma {:induction false} ZeroShr(k: nat)
    ensures Shr(0, k) == 0
  {
    if k > 0 {
      ZeroShr(k - 1);
    }
  }

  lemma {:induction false} ShrBelow(a: nat, k: nat)
    ensures Shr(a, k) <= a
  {
    if k > 0 {
      ShrBelow(a / 2, k - 1);
    }
  }

  lemma {:induction false} ShlBound(a: nat, i: nat, k: nat)
    requires a < Pow2(i)
    ensures Shl(a, k) < Pow2(i + k)
  {
    if k > 0 {
      ShlBound(a, i, k - 1);
    }
  }

  // bits.RotateLeft32 and bits.RotateLeft64 on words below w, one place at a time.
  function RotateLeft(x: nat, k: nat, w: nat): (r: nat)
    requires x < w && w % 2 == 0
    ensures r < w
    decreases k
  {
    if k == 0 then x else RotateLeft(if 2 * x >= w then 2 * x - w + 1 else 2 * x, k - 1, w)
  }

  // A rotation to the right, as the source asks for it: to the left by -count.
  function RotateRight(x: nat, count: int, bits: nat, w: nat): (r: nat)
    requires x < w && w % 2 == 0 && bits > 0
    ensures r < w
  {
    RotateLeft(x, -count % bits, w)
  }

  // --------------------------------------------------------------- bit by bit

  // Bit j, from the low end.
  predicate Bit(x: nat, j: nat) {
    Shr(x, j) % 2 == 1
  }

  lemma XorBit(a: nat, b: nat, j: nat)
    ensures Bit(Xor(a, b), j) <==> Bit(a, j) != Bit(b, j)
  {
    XorShift(a, b, j);
    XorStep(Shr(a, j), Shr(b, j));
  }

  lemma ShrBit(a: nat, i: nat, j: nat)
    ensures Bit(Shr(a, i), j) == Bit(a, i + j)
  {
    ShrAdd(a, i, j);
  }

  // The low k bits do not see what is added above them.
  lemma {:induction false} BitBelow(x: nat, q: nat, k: nat, j: nat)
    requires j < k
    ensures Bit(x + Shl(q, k), j) == Bit(x, j)
    decreases k
  {
    var y := x + Shl(q, k);
    assert Shl(q, k) == 2 * Shl(q, k - 1);
    if j > 0 {
      assert y / 2 == x / 2 + Shl(q, k - 1);
      BitBelow(x / 2, q, k - 1, j - 1);
    }
  }

  lemma {:induction false} ShlIs(q: nat, k: nat)
    ensures Shl(q, k) == q * Pow2(k)
  {
    if k > 0 {
      ShlIs(q, k - 1);
      MulAssoc(q, 2, Pow2(k - 1));
      assert q * 2 == 2 * q;
      MulAssoc(2, q, Pow2(k - 1));
    }
  }

  lemma {:induction false} BitAbove(x: nat, k: nat)
    requires x < Pow2(k + 1)
    ensures Bit(x, k) <==> x >= Pow2(k)
  {
    if k > 0 {
      BitAbove(x / 2, k - 1);
    }
  }

  // One place to the left: the top bit comes back in at the low end.
  lemma OnePlace(x: nat, k: nat, j: nat)
    requires k > 0 && x < Pow2(k) && j < k
    ensures var w := Pow2(k); var r := if 2 * x >= w then 2 * x - w + 1 else 2 * x;
      Bit(r, j) == Bit(x, if j == 0 then k - 1 else j - 1)
  {
    var (w, half) := (Pow2(k), Pow2(k - 1));
    var r := if 2 * x >= w then 2 * x - w + 1 else 2 * x;
    BitAbove(x, k - 1);
    if j > 0 && x >= half {
      assert r / 2 == x - half;
      ShlIs(1, k - 1);
      BitBelow(x - half, 1, k - 1, j - 1);
    }
  }

  // Where a bit is found that comes to place j after n places to the left.
  function Place(j: int, n: int, k: nat): (m: nat)
    requires k > 0
    ensures m < k
  {
    (j - n) % k
  }

  lemma OneLess(a: int, k: nat)
    requires k > 0
    ensures (a - 1) % k == if a % k == 0 then k - 1 else a % k - 1
  {
    DivMod(a, k);
    if a % k == 0 {
      assert (a / k - 1) * k == a / k * k - k;
      DivModUnique(a / k - 1, k - 1, k);
    } else {
      DivModUnique(a / k, a % k - 1, k);
    }
  }

  lemma PlaceBefore(j: nat, n: nat, k: nat)
    requires j < k
    ensures Place(j, 0, k) == j
    ensures n > 0 ==> var m := Place(j, n - 1, k); Place(j, n, k) == if m == 0 then k - 1 else m - 1
  {
    DivModUnique(0, j, k);
    OneLess(j - (n - 1), k);
  }

  lemma {:induction false} RotatedLeft(x: nat, n: nat, k: nat, j: nat, w: nat)
    requires x < w && w == Pow2(k) && j < k && w % 2 == 0
    ensures Bit(RotateLeft(x, n, w), j) == Bit(x, Place(j, n, k))
    decreases n
  {
    PlaceBefore(j, n, k);
    if n > 0 {
      var r := if 2 * x >= w then 2 * x - w + 1 else 2 * x;
      RotatedLeft(r, n - 1, k, j, w);
      OnePlace(x, k, Place(j, n - 1, k));
    }
  }

  // Bit j of a word rotated to the right is the one `count` places higher, around the end.
  lemma RotatedRight(x: nat, count: int, k: nat, j: nat)
    requires k > 0 && x < Pow2(k) && j < k
    ensures Bit(RotateRight(x, count, k, Pow2(k)), j) == Bit(x, (j + count) % k)
  {
    var n := -count % k;
    RotatedLeft(x, n, k, j, Pow2(k));
    ModShift(j + count, -count / k, k);
    assert j - n == j + count + -count / k * k;
  }

  // ------------------------------------------------------------ 32-bit output

  const X18: nat := 18
  const X27: nat := 27
  const X59: nat := 59

  // The output of a state of PCG32.
  function Output32(s: nat): (r: nat)
    ensures r < W32
  {
    RotateRight(Shr(Xor(Shr(s, X18), s), X27) % W32, Shr(s, X59), 32, W32)
  }

  lemma Divided(x: nat, d: nat) returns (q: nat, r: nat)
    requires d > 0
    ensures x == q * d + r && r == x % d
  {
    DivMod(x, d);
    q, r := x / d, x % d;
  }

  lemma ReducedBit(x: nat, d: nat, k: nat, j: nat)
    requires j < k && d == Pow2(k) && d > 0
    ensures Bit(x % d, j) == Bit(x, j)
  {
    var q, r := Divided(x, d);
    ShlIs(q, k);
    BitBelow(r, q, k, j);
  }

  // The word folded onto itself, without its low bits.
  lemma FoldedBit(s: nat, i: nat)
    requires i < B32
    ensures Bit(Shr(Xor(Shr(s, X18), s), X27) % W32, i) <==> Bit(s, X27 + i) != Bit(s, X18 + (X27 + i))
  {
    var x := Xor(Shr(s, X18), s);
    WordSizes();
    ReducedBit(Shr(x, X27), W32, B32, i);
    ShrBit(x, X27, i);
    XorBit(Shr(s, X18), s, X27 + i);
    ShrBit(s, X18, X27 + i);
  }

  // What the output takes from the state, bit by bit. The top five bits say how far the
  // word is rotated; it is taken from below them, folded with what is 18 places higher.
  lemma Output32Bits(s: nat, j: nat)
    requires j < B32
    ensures X59 == B64 - 5 && X27 == X59 - B32 && X18 == (B32 + 5) / 2
    ensures var i := (j + Shr(s, X59)) % B32;
      Bit(Output32(s), j) <==> Bit(s, X27 + i) != Bit(s, X18 + (X27 + i))
  {
    var x := Shr(Xor(Shr(s, X18), s), X27) % W32;
    WordSizes();
    RotatedRight(x, Shr(s, X59), B32, j);
    FoldedBit(s, (j + Shr(s, X59)) % B32);
  }

  // A state whose output is v, without any rotation.
  function Source32(v: nat): nat {
    Shl(Xor(v, Shr(v, X18)), X27)
  }

  // Undoing v ^ (v >> 18).
  lemma XorShiftInverse(v: nat)
    requires v < W32
    ensures var x := Xor(v, Shr(v, X18)); Xor(Shr(x, X18), x) == v
  {
    var y := Shr(v, X18);
    XorShift(v, y, X18);
    ShrAdd(v, X18, X18);
    WordSizes();
    Pow2Monotone(B32, X18 + X18);
    ShrToZero(v, X18 + X18);
    XorZero(y);
    XorComm(v, y);
    XorCancels(y, v);
  }

  lemma {:induction false} Pow2Monotone(i: nat, k: nat)
    requires i <= k
    ensures Pow2(i) <= Pow2(k)
  {
    if i < k {
      Pow2Monotone(i, k - 1);
    }
  }

  lemma SourceBounded(v: nat)
    requires v < W32
    ensures Xor(v, Shr(v, X18)) < W32 && Source32(v) < Pow2(X59) <= W64
  {
    WordSizes();
    ShrBelow(v, X18);
    XorBound(v, Shr(v, X18), B32);
    ShlBound(Xor(v, Shr(v, X18)), B32, X27);
    assert B32 + X27 == X59;
    Pow2Monotone(X59, B64);
  }

  // Shifting the source and folding it onto itself gives v.
  lemma SourceFolds(v: nat)
    requires v < W32
    ensures var s := Source32(v); Shr(Xor(Shr(s, X18), s), X27) == v
  {
    var x := Xor(v, Shr(v, X18));
    var s := Source32(v);
    ShrUndoesShl(x, X18, X27 - X18);
    XorShift(Shl(x, X27 - X18), s, X27);
    ShrUndoesShl(x, X27 - X18, 0);
    ShrAdd(Shl(x, X27 - X18), X27 - X18, X18);
    ShrUndoesShl(x, X27, 0);
    XorShiftInverse(v);
  }

  lemma Output32Onto(v: nat)
    requires v < W32
    ensures Source32(v) < W64 && Output32(Source32(v)) == v
  {
    SourceBounded(v);
    SourceFolds(v);
    ShrToZero(Source32(v), X59);
    Unrotated(v, 32, W32);
  }

  lemma Unrotated(x: nat, bits: nat, w: nat)
    requires x < w && w % 2 == 0 && bits > 0
    ensures RotateRight(x, 0, bits, w) == x
  {
    DivModUnique(0, 0, bits);
  }

  // ------------------------------------------------------------ 64-bit output

  const X58: nat := 58

  // The output of a state of PCG64 with the given limbs.
  function Output64(hi: nat, lo: nat): (r: nat)
    requires hi < W64 && lo < W64
    ensures r < W64
  {
    WordSizes();
    XorBound(hi, lo, B64);
    RotateRight(Xor(hi, lo), Shr(hi, X58), 64, W64)
  }

  // The output is the two limbs folded, rotated by what the top six bits say.
  lemma Output64Bits(hi: nat, lo: nat, j: nat)
    requires hi < W64 && lo < W64 && j < B64
    ensures X58 == B64 - 6
    ensures var i := (j + Shr(hi, X58)) % B64;
      Bit(Output64(hi, lo), j) <==> Bit(hi, i) != Bit(lo, i)
  {
    WordSizes();
    XorBound(hi, lo, B64);
    RotatedRight(Xor(hi, lo), Shr(hi, X58), B64, j);
    XorBit(hi, lo, (j + Shr(hi, X58)) % B64);
  }

  lemma Output64Onto(v: nat)
    requires v < W64
    ensures Output64(0, v) == v
  {
    ZeroShr(X58);
    XorComm(0, v);
    XorZero(v);
  }
}
