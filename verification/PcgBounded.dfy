// Reducing a uniform word below w to a uniform number below a bound, by multiplication
// (Lemire) and by remainder. Some words are rejected so that no outcome is favoured.
module PcgBounded {
  import opened ModArith

  // The number of words that do not divide evenly among b outcomes.
  function Threshold(b: nat, w: nat): (t: nat)
    requires 0 < b
    ensures t < b
  {
    w % b
  }

  predicate Accepts(v: nat, b: nat, w: nat)
    requires 0 < b && 0 < w
  {
    v * b % w >= Threshold(b, w)
  }

  function Scale(v: nat, b: nat, w: nat): nat
    requires 0 < w
  {
    v * b / w
  }

  lemma ScaleBelowBound(v: nat, b: nat, w: nat)
    requires v < w && 0 < b
    ensures Scale(v, b, w) < b
  {
    MulStrict(v, w, b);
    DivMod(v * b, w);
    MulStrict(b - 1, v * b / w, w);
  }

  ghost function Interval(lo: nat, n: nat): set<nat> {
    if n == 0 then {} else Interval(lo, n - 1) + {lo + n - 1}
  }

  lemma {:induction false} IntervalSize(lo: nat, n: nat)
    ensures |Interval(lo, n)| == n && forall i: nat :: i in Interval(lo, n) <==> lo <= i < lo + n
  {
    if n > 0 {
      IntervalSize(lo, n - 1);
    }
  }

  function CeilDiv(a: nat, b: nat): nat
    requires 0 < b
  {
    (a + b - 1) / b
  }

  lemma CeilDivBound(a: nat, b: nat, v: int)
    requires 0 < b
    ensures v * b >= a <==> v >= CeilDiv(a, b)
  {
    var c: int := CeilDiv(a, b);
    DivMod(a + b - 1, b);
    MulStrict(v, c, b);
    MulStrict(c - 1, v, b);
  }

  // v scales to k and is accepted exactly when v * b lies in one window.
  lemma AcceptedWindow(v: nat, b: nat, k: nat, w: nat)
    requires 0 < b && 0 < w && b <= w
    ensures Accepts(v, b, w) && Scale(v, b, w) == k <==> k * w + Threshold(b, w) <= v * b < k * w + w
  {
    var (p, t) := (v * b, Threshold(b, w));
    DivMod(p, w);
    if k * w + t <= p < k * w + w {
      DivModUnique(k, p - k * w, w);
    }
  }

  ghost predicate IsLemireOutcome(v: nat, b: nat, k: nat, w: nat)
    requires 0 < b && 0 < w
  {
    v < w && Accepts(v, b, w) && Scale(v, b, w) == k
  }

  // The words that give outcome k are w / b consecutive ones.
  lemma LemireWindow(v: nat, b: nat, k: nat, w: nat)
    requires 0 < b <= w && k < b
    ensures var lo := CeilDiv(k * w + w % b, b); IsLemireOutcome(v, b, k, w) <==> lo <= v < lo + w / b
  {
    var (a, q) := (k * w + w % b, w / b);
    AcceptedWindow(v, b, k, w);
    CeilDivBound(a, b, v);
    CeilDivBound(a, b, v - q);
    DivMod(w, b);
    assert (v - q) * b == v * b - q * b;
    if v * b < k * w + w {
      MulStrict(k, b, w);
      MulStrict(w, v, b);
      MulStrict(v, w, b);
    }
  }

  // Exactly floor(w / b) words are accepted for each outcome: the result is unbiased.
  lemma LemireUniform(b: nat, k: nat, w: nat, outcomes: set<nat>)
    requires 0 < b <= w && k < b
    requires forall v: nat :: v in outcomes <==> IsLemireOutcome(v, b, k, w)
    ensures |outcomes| == w / b
  {
    var lo := CeilDiv(k * w + w % b, b);
    IntervalSize(lo, w / b);
    forall v: nat ensures v in outcomes <==> v in Interval(lo, w / b) {
      LemireWindow(v, b, k, w);
    }
    assert outcomes == Interval(lo, w / b);
  }

  lemma SomeWordAccepted(b: nat, w: nat) returns (v: nat)
    requires 0 < b <= w
    ensures v < w && Accepts(v, b, w)
  {
    v := CeilDiv(w % b, b);
    LemireWindow(v, b, 0, w);
    DivMod(w, b);
    MulStrict(w / b, 1, b);
  }

  // --------------------------------------------------------- by remainder

  ghost predicate IsModOutcome(r: nat, b: nat, k: nat, w: nat)
    requires 0 < b
  {
    Threshold(b, w) <= r < w && r % b == k
  }

  // The words lo, lo + b, .., lo + (n - 1) * b.
  ghost function Stride(lo: nat, b: nat, n: nat): set<nat> {
    if n == 0 then {} else Stride(lo, b, n - 1) + {lo + (n - 1) * b}
  }

  lemma SameResidueNear(a: nat, r: nat, b: nat)
    requires a <= r < a + b
    ensures r % b == a % b <==> r == a
  {
    var (d, m) := (r - a, a % b);
    ModAdd(a, d, b);
    if m + d < b {
      DivModUnique(0, m + d, b);
    } else {
      DivModUnique(1, m + d - b, b);
    }
  }

  lemma {:induction false} StrideMember(lo: nat, b: nat, n: nat, r: nat)
    requires 0 < b
    ensures r in Stride(lo, b, n) <==> lo <= r < lo + n * b && r % b == lo % b
  {
    if n > 0 {
      StrideMember(lo, b, n - 1, r);
      var last := lo + (n - 1) * b;
      ModShift(lo, n - 1, b);
      assert n * b == (n - 1) * b + b;
      if last <= r < last + b {
        SameResidueNear(last, r, b);
      }
    }
  }

  lemma {:induction false} StrideSize(lo: nat, b: nat, n: nat)
    requires 0 < b
    ensures |Stride(lo, b, n)| == n
  {
    if n > 0 {
      StrideSize(lo, b, n - 1);
      StrideMember(lo, b, n - 1, lo + (n - 1) * b);
    }
  }

  // Exactly floor(w / b) words are accepted for each outcome here too.
  lemma ModUniform(b: nat, k: nat, w: nat, outcomes: set<nat>)
    requires 0 < b <= w && k < b
    requires forall r: nat :: r in outcomes <==> IsModOutcome(r, b, k, w)
    ensures |outcomes| == w / b
  {
    var (t, q) := (w % b, w / b);
    DivMod(w, b);
    // the first word from t on with residue k
    var lo := if k >= t then k else k + b;
    ModShift(k, 1, b);
    DivModUnique(0, k, b);
    StrideSize(lo, b, q);
    forall r: nat ensures r in outcomes <==> r in Stride(lo, b, q) {
      StrideMember(lo, b, q, r);
      if r % b == k {
        ModWindow(r, t, lo, k, b, q);
      }
    }
    assert outcomes == Stride(lo, b, q);
  }

  lemma ModWindow(r: nat, t: nat, lo: nat, k: nat, b: nat, q: nat)
    requires t < b && k < b && lo == (if k >= t then k else k + b) && r % b == k
    ensures t <= r < q * b + t <==> lo <= r < lo + q * b
  {
    DivMod(r, b);
    var i := r / b;
    assert r == i * b + k;
    MulStrict(i, q, b);
    MulStrict(q, i, b);
    MulStrict(0, i, b);
    MulStrict(i, 1, b);
    MulStrict(i, q + 1, b);
    MulStrict(q + 1, i, b);
    assert (q + 1) * b == q * b + b;
  }

  // ------------------------------------------------------------ threshold

  // Unsigned negation of a w-valued word.
  function Negate(b: nat, w: nat): (n: nat)
    requires b < w
    ensures n < w
  {
    (w - b) % w
  }

  lemma NegateMod(b: nat, w: nat)
    requires 0 < b < w
    ensures Negate(b, w) == w - b && Negate(b, w) % b == Threshold(b, w)
  {
    DivModUnique(0, w - b, w);
    ModShift(w - b, 1, b);
  }

  // Subtracting the bound before taking the remainder computes the same threshold.
  function ShortcutThreshold(b: nat, w: nat): nat
    requires 0 < b < w
  {
    var t := Negate(b, w);
    if t >= b then
      var u := t - b;
      if u >= b then u % b else u
    else t
  }

  lemma ShortcutIsThreshold(b: nat, w: nat)
    requires 0 < b < w
    ensures ShortcutThreshold(b, w) == Threshold(b, w)
  {
    NegateMod(b, w);
    var t := w - b;
    if t >= b {
      ModShift(t - b, 1, b);
      if t - b < b {
        DivModUnique(0, t - b, b);
      }
    } else {
      DivModUnique(0, t, b);
    }
  }
}
