// Linear congruential generators modulo powers of two: what n steps do, when they lead
// back, and which states they visit.
module PcgPeriod {
  import opened ModArith

  function Step(x: nat, a: nat, c: nat, m: nat): nat
    requires m > 0
  {
    (a * x + c) % m
  }

  // n steps of the generator from x.
  function Iterate(n: nat, x: nat, a: nat, c: nat, m: nat): nat
    requires m > 0
  {
    if n == 0 then x else Iterate(n - 1, Step(x, a, c, m), a, c, m)
  }

  lemma {:induction false} IterateInRange(n: nat, x: nat, a: nat, c: nat, m: nat)
    requires x < m
    ensures Iterate(n, x, a, c, m) < m
  {
    if n > 0 {
      IterateInRange(n - 1, Step(x, a, c, m), a, c, m);
    }
  }

  lemma {:induction false} IterateAdd(n: nat, k: nat, x: nat, a: nat, c: nat, m: nat)
    requires m > 0
    ensures Iterate(n + k, x, a, c, m) == Iterate(k, Iterate(n, x, a, c, m), a, c, m)
  {
    if n > 0 {
      IterateAdd(n - 1, k, Step(x, a, c, m), a, c, m);
    }
  }

  // Two steps are one step of the generator with a * a and c * (a + 1).
  lemma TwoSteps(x: nat, a: nat, c: nat, m: nat)
    requires m > 0
    ensures Step(Step(x, a, c, m), a, c, m) == Step(x, a * a % m, c * (a + 1) % m, m)
  {
    ModAffine(a, a * x + c, c, m);
    assert a * (a * x + c) + c == a * a * x + c * (a + 1);
    var (aa, cc) := (a * a, c * (a + 1));
    ModMul(aa, x, m);
    ModAdd(aa * x, cc, m);
    ModAdd(aa % m * x, cc % m, m);
    calc {
      (aa * x + cc) % m;
      (aa * x % m + cc) % m;
      (aa % m * x % m + cc) % m;
      { ModAdd(aa % m * x, cc, m); }
      (aa % m * x + cc) % m;
      { ModAdd(cc, aa % m * x, m); }
      (aa % m * x + cc % m) % m;
    }
  }

  lemma {:induction false} IterateDouble(k: nat, x: nat, a: nat, c: nat, m: nat)
    requires m > 0
    ensures Iterate(2 * k, x, a, c, m) == Iterate(k, x, a * a % m, c * (a + 1) % m, m)
  {
    if k > 0 {
      TwoSteps(x, a, c, m);
      IterateDouble(k - 1, Step(Step(x, a, c, m), a, c, m), a, c, m);
      assert Iterate(2 * k, x, a, c, m) == Iterate(2 * k - 1, Step(x, a, c, m), a, c, m);
    }
  }

  // --------------------------------------------------------------- closed form

  function Pow(a: nat, n: nat): nat {
    if n == 0 then 1 else a * Pow(a, n - 1)
  }

  // 1 + a + .. + a^(n-1)
  function Sum(a: nat, n: nat): nat {
    if n == 0 then 0 else a * Sum(a, n - 1) + 1
  }

  lemma {:induction false} PowAdd(a: nat, m: nat, n: nat)
    ensures Pow(a, m + n) == Pow(a, m) * Pow(a, n)
  {
    if m > 0 {
      PowAdd(a, m - 1, n);
      assert a * (Pow(a, m - 1) * Pow(a, n)) == a * Pow(a, m - 1) * Pow(a, n);
    }
  }

  lemma {:induction false} SumAdd(a: nat, m: nat, n: nat)
    ensures Sum(a, m + n) == Pow(a, m) * Sum(a, n) + Sum(a, m)
  {
    if m > 0 {
      SumAdd(a, m - 1, n);
      MulAdd(a, Pow(a, m - 1) * Sum(a, n), Sum(a, m - 1));
      MulAssoc(a, Pow(a, m - 1), Sum(a, n));
    }
  }

  lemma {:induction false} SumGeometric(a: nat, n: nat)
    ensures Pow(a, n) - 1 == (a - 1) * Sum(a, n)
  {
    if n > 0 {
      SumGeometric(a, n - 1);
      var (b: int, p: int, s: int) := (a - 1, Pow(a, n - 1), Sum(a, n - 1));
      calc {
        (b + 1) * p - 1;
        (b + 1) * (b * s + 1) - 1;
        b * ((b + 1) * s + 1);
      }
    }
  }

  lemma ClosedStep(p: int, s: int, a: int, x: int, c: int)
    ensures p * (a * x + c) + c * s == a * p * x + c * (p + s)
  {
    MulAdd(p, a * x, c);
    MulAssoc(p, a, x);
    MulAdd(c, p, s);
  }

  lemma {:induction false} IterateClosed(n: nat, x: nat, a: nat, c: nat, m: nat)
    requires x < m
    ensures Iterate(n, x, a, c, m) == (Pow(a, n) * x + c * Sum(a, n)) % m
  {
    if n == 0 {
      DivModUnique(0, x, m);
    } else {
      var (p, s) := (Pow(a, n - 1), Sum(a, n - 1));
      IterateClosed(n - 1, Step(x, a, c, m), a, c, m);
      ModAffine(p, a * x + c, c * s, m);
      SumAdd(a, n - 1, 1);
      assert Sum(a, 1) == 1;
      ClosedStep(p, s, a, x, c);
    }
  }

  // ------------------------------------------------------------ powers of two

  function Pow2(k: nat): (p: nat)
    ensures p > 0
  {
    if k == 0 then 1 else 2 * Pow2(k - 1)
  }

  predicate Divides(k: nat, n: int) {
    n % Pow2(k) == 0
  }

  lemma HalveMod(s: int, d: nat)
    requires d > 0
    ensures (2 * s) % (2 * d) == 2 * (s % d)
  {
    DivMod(s, d);
    var (q, r) := (s / d, s % d);
    assert 2 * s == q * (2 * d) + 2 * r;
    DivModUnique(q, 2 * r, 2 * d);
  }

  // Dividing an even number and the power by two, or seeing that an odd number is left.
  lemma DividesStep(k: nat, s: int)
    requires k > 0
    ensures Divides(k, s) <==> s % 2 == 0 && Divides(k - 1, s / 2)
  {
    if s % 2 == 0 {
      HalveMod(s / 2, Pow2(k - 1));
    } else {
      var d := Pow2(k - 1);
      DivMod(s, 2 * d);
      assert s % (2 * d) == s - 2 * (s / (2 * d) * d);
    }
  }

  lemma OddTimesOdd(s: int, u: int)
    requires s % 2 == 1 && u % 2 == 1
    ensures s * u % 2 == 1
  {
    ModMul(s, u, 2);
  }

  lemma {:induction false} OddFactor(k: nat, s: int, u: int)
    requires u % 2 == 1
    ensures Divides(k, s * u) <==> Divides(k, s)
  {
    if k > 0 {
      DividesStep(k, s);
      DividesStep(k, s * u);
      if s % 2 == 0 {
        var h := s / 2;
        assert s * u == 2 * (h * u);
        OddFactor(k - 1, h, u);
      } else {
        OddTimesOdd(s, u);
      }
    }
  }

  lemma DividesMultiple(k: nat, s: int, u: int)
    requires Divides(k, s)
    ensures Divides(k, s * u)
  {
    ModZeroMul(s, u, Pow2(k));
  }

  lemma {:induction false} PowMod4(a: nat, n: nat)
    requires a % 4 == 1
    ensures Pow(a, n) % 4 == 1
  {
    if n > 0 {
      PowMod4(a, n - 1);
      ModMul(a, Pow(a, n - 1), 4);
    }
  }

  lemma {:induction false} PowOdd(a: nat, n: nat)
    requires a % 2 == 1
    ensures Pow(a, n) % 2 == 1
  {
    if n > 0 {
      PowOdd(a, n - 1);
      OddTimesOdd(a, Pow(a, n - 1));
    }
  }

  lemma OddStepFlips(a: int, s: int)
    requires a % 2 == 1
    ensures (a * s + 1) % 2 == 1 - s % 2
  {
    ModMul(a, s, 2);
    assert 1 * s == s;
  }

  lemma {:induction false} SumParity(a: nat, n: nat)
    requires a % 2 == 1
    ensures Sum(a, n) % 2 == n % 2
  {
    if n > 0 {
      SumParity(a, n - 1);
      OddStepFlips(a, Sum(a, n - 1));
      assert n % 2 == 1 - (n - 1) % 2;
    }
  }

  lemma SumDouble(a: nat, h: nat)
    requires a % 2 == 1
    ensures Pow(a, h) % 2 == 1
    ensures Sum(a, 2 * h) == 2 * (Sum(a, h) * ((1 + Pow(a, h)) / 2))
  {
    PowOdd(a, h);
    SumAdd(a, h, h);
    var (s, u) := (Sum(a, h), (1 + Pow(a, h)) / 2);
    assert Pow(a, h) == 2 * u - 1;
    assert (2 * u - 1) * s + s == 2 * (s * u);
  }

  // 1 + a + .. + a^(n-1) has all the factors two of n when a is odd ..
  lemma {:induction false} SumDivisible(a: nat, n: nat, k: nat)
    requires a % 2 == 1 && Divides(k, n)
    ensures Divides(k, Sum(a, n))
  {
    if k > 0 {
      DividesStep(k, n);
      var h := n / 2;
      SumDivisible(a, h, k - 1);
      SumDouble(a, h);
      DividesMultiple(k - 1, Sum(a, h), (1 + Pow(a, h)) / 2);
      DividesStep(k, Sum(a, n));
    }
  }

  // .. and no more than those when a is 1 modulo 4.
  lemma {:induction false} SumDivisibleOnly(a: nat, n: nat, k: nat)
    requires a % 4 == 1 && Divides(k, Sum(a, n))
    ensures Divides(k, n)
  {
    if k > 0 {
      SumParity(a, n);
      DividesStep(k, Sum(a, n));
      DividesStep(k, n);
      var h := n / 2;
      var u := (1 + Pow(a, h)) / 2;
      assert u % 2 == 1 by {
        PowMod4(a, h);
      }
      SumDouble(a, h);
      OddFactor(k - 1, Sum(a, h), u);
      SumDivisibleOnly(a, h, k - 1);
    }
  }

  // ------------------------------------------------------------------- periods

  lemma Displaced(b: int, s: int, x: int, c: int)
    ensures (b * s + 1) * x + c * s == x + s * (b * x + c)
  {
    MulAdd(s, b * x, c);
    MulAssoc(s, b, x);
  }

  // How far n steps move the state, before the reduction.
  lemma Displacement(n: nat, x: nat, a: nat, c: nat)
    ensures Pow(a, n) * x + c * Sum(a, n) == x + Sum(a, n) * ((a - 1) * x + c)
  {
    SumGeometric(a, n);
    Displaced(a - 1, Sum(a, n), x, c);
  }

  lemma ReturnsIff(x: nat, d: int, m: nat)
    requires x < m
    ensures (x + d) % m == x <==> d % m == 0
  {
    ModAdd(d, x, m);
    DivModUnique(0, x, m);
    var r := d % m;
    if r + x < m {
      DivModUnique(0, r + x, m);
    } else {
      DivModUnique(1, r + x - m, m);
    }
  }

  // Any multiple of 2^k steps of a generator with an odd multiplier leads back.
  lemma StepsReturn(n: nat, x: nat, a: nat, c: nat, k: nat)
    requires x < Pow2(k) && a % 2 == 1 && Divides(k, n)
    ensures Iterate(n, x, a, c, Pow2(k)) == x
  {
    IterateClosed(n, x, a, c, Pow2(k));
    Displacement(n, x, a, c);
    SumDivisible(a, n, k);
    DividesMultiple(k, Sum(a, n), (a - 1) * x + c);
    ReturnsIff(x, Sum(a, n) * ((a - 1) * x + c), Pow2(k));
  }

  lemma OddDisplacement(x: nat, a: nat, c: nat)
    requires a % 2 == 1 && c % 2 == 1
    ensures ((a - 1) * x + c) % 2 == 1
  {
    ModZeroMul(a - 1, x, 2);
  }

  lemma ReturnsIffDivides(n: nat, x: nat, a: nat, c: nat, k: nat)
    requires x < Pow2(k) && a % 2 == 1 && c % 2 == 1
    ensures Iterate(n, x, a, c, Pow2(k)) == x <==> Divides(k, Sum(a, n))
  {
    var (s, u, m) := (Sum(a, n), (a - 1) * x + c, Pow2(k));
    IterateClosed(n, x, a, c, m);
    Displacement(n, x, a, c);
    OddDisplacement(x, a, c);
    ReturnsIff(x, s * u, m);
    OddFactor(k, s, u);
  }

  // With an odd increment, and a multiplier that is 1 modulo 4, no other number of
  // steps leads back.
  lemma OnlyFullPeriodsReturn(n: nat, x: nat, a: nat, c: nat, k: nat)
    requires x < Pow2(k) && a % 4 == 1 && c % 2 == 1
    ensures Iterate(n, x, a, c, Pow2(k)) == x <==> Divides(k, n)
  {
    if Divides(k, n) {
      StepsReturn(n, x, a, c, k);
    }
    ReturnsIffDivides(n, x, a, c, k);
    if Divides(k, Sum(a, n)) {
      SumDivisibleOnly(a, n, k);
    }
  }

  // -------------------------------------------------------------------- orbits

  ghost function Below(m: nat): set<nat> {
    if m == 0 then {} else Below(m - 1) + {m - 1}
  }

  lemma {:induction false} BelowSize(m: nat)
    ensures |Below(m)| == m && forall i: nat :: i in Below(m) <==> i < m
  {
    if m > 0 {
      BelowSize(m - 1);
    }
  }

  ghost function Visited(n: nat, x: nat, a: nat, c: nat, m: nat): set<nat>
    requires m > 0
  {
    set i: nat | i < n :: Iterate(i, x, a, c, m)
  }

  lemma NoEarlyRepeat(i: nat, j: nat, x: nat, a: nat, c: nat, k: nat)
    requires x < Pow2(k) && a % 4 == 1 && c % 2 == 1 && i < j < Pow2(k)
    ensures Iterate(i, x, a, c, Pow2(k)) != Iterate(j, x, a, c, Pow2(k))
  {
    var y := Iterate(i, x, a, c, Pow2(k));
    IterateInRange(i, x, a, c, Pow2(k));
    IterateAdd(i, j - i, x, a, c, Pow2(k));
    OnlyFullPeriodsReturn(j - i, y, a, c, k);
    DivModUnique(0, j - i, Pow2(k));
  }

  lemma {:induction false} VisitedSize(n: nat, x: nat, a: nat, c: nat, k: nat)
    requires x < Pow2(k) && a % 4 == 1 && c % 2 == 1 && n <= Pow2(k)
    ensures |Visited(n, x, a, c, Pow2(k))| == n
  {
    if n > 0 {
      VisitedSize(n - 1, x, a, c, k);
      var (s, y) := (Visited(n - 1, x, a, c, Pow2(k)), Iterate(n - 1, x, a, c, Pow2(k)));
      forall i: nat | i < n - 1 ensures Iterate(i, x, a, c, Pow2(k)) != y {
        NoEarlyRepeat(i, n - 1, x, a, c, k);
      }
      assert Visited(n, x, a, c, Pow2(k)) == s + {y};
    }
  }

  lemma SameSizeSubset(s: set<nat>, t: set<nat>)
    requires s <= t && |s| == |t|
    ensures s == t
  {
    assert t == s + (t - s);
    assert |t| == |s| + |t - s|;
  }

  lemma VisitedAll(x: nat, a: nat, c: nat, k: nat)
    requires x < Pow2(k) && a % 4 == 1 && c % 2 == 1
    ensures Visited(Pow2(k), x, a, c, Pow2(k)) == Below(Pow2(k))
  {
    var m := Pow2(k);
    BelowSize(m);
    forall i: nat | i < m ensures Iterate(i, x, a, c, m) in Below(m) {
      IterateInRange(i, x, a, c, m);
    }
    VisitedSize(m, x, a, c, k);
    SameSizeSubset(Visited(m, x, a, c, m), Below(m));
  }

  // The generator has full period: from any state it reaches every state.
  lemma VisitsEveryState(x: nat, y: nat, a: nat, c: nat, k: nat) returns (n: nat)
    requires x < Pow2(k) && y < Pow2(k) && a % 4 == 1 && c % 2 == 1
    ensures n < Pow2(k) && Iterate(n, x, a, c, Pow2(k)) == y
  {
    VisitedAll(x, a, c, k);
    BelowSize(Pow2(k));
    assert y in Visited(Pow2(k), x, a, c, Pow2(k));
    n :| n < Pow2(k) && Iterate(n, x, a, c, Pow2(k)) == y;
  }

  // ------------------------------------------------------------- word sizes

  const W32 := 0x1_0000_0000
  const W64 := 0x1_0000_0000_0000_0000
  const W128 := 0x1_0000_0000_0000_0000_0000_0000_0000_0000

  // The numbers of bits of the three words.
  const B32: nat := 32
  const B64: nat := 64
  const B128: nat := 128

  lemma {:induction false} Pow2Add(m: nat, n: nat)
    ensures Pow2(m + n) == Pow2(m) * Pow2(n)
  {
    if m > 0 {
      Pow2Add(m - 1, n);
      MulAssoc(2, Pow2(m - 1), Pow2(n));
    }
  }

  lemma Pow2Double(n: nat, p: nat)
    requires Pow2(n) == p
    ensures Pow2(n + n) == p * p
  {
    Pow2Add(n, n);
  }

  lemma WordSizes()
    ensures Pow2(B32) == W32 && Pow2(B64) == W64 && Pow2(B128) == W128
  {
    var n: nat := 4;
    assert Pow2(n) == 16;
    Pow2Double(n, 16);
    Pow2Double(2 * n, 256);
    Pow2Double(4 * n, 65536);
    Pow2Double(8 * n, W32);
    Pow2Double(16 * n, W64);
  }
}
