// 32-bit words as their bits, the most significant one first.
module DesWords {

  type Word = w: seq<bool> | |w| == 32 witness seq(32, _ => false)

  type Block = b: seq<bool> | |b| == 64 witness seq(64, _ => false)

  const ZERO: Word := seq(32, _ => false)

  function Or(a: Word, b: Word): Word {
    seq(32, p requires 0 <= p < 32 => a[p] || b[p])
  }

  function And(a: Word, b: Word): Word {
    seq(32, p requires 0 <= p < 32 => a[p] && b[p])
  }

  function Xor(a: Word, b: Word): Word {
    seq(32, p requires 0 <= p < 32 => a[p] != b[p])
  }

  // bits32[o]
  function Unit(o: nat): Word
    requires o < 32
  {
    seq(32, p => p == o)
  }

  // The bits from lo to before hi, shifted to the right by some places, or to the left by
  // a negative number of places: (w & mask) >> places.
  function Cut(w: Word, lo: nat, hi: nat, places: int): Word
    requires lo <= hi <= 32
  {
    seq(32, p requires 0 <= p < 32 => lo <= p - places < hi && w[p - places])
  }

  // ----------------------------------------------------------------- numbers

  // The number a string of bits stands for.
  function Index(bits: seq<bool>): nat {
    if bits == [] then 0
    else 2 * Index(bits[..|bits| - 1]) + if bits[|bits| - 1] then 1 else 0
  }

  // Bit j of a number of n bits: x & (1 << (n-1-j)) != 0.
  predicate BitOf(x: nat, j: nat, n: nat)
    requires j < n
  {
    if j == n - 1 then x % 2 == 1 else BitOf(x / 2, j, n - 1)
  }

  function Size(n: nat): nat {
    if n == 0 then 1 else 2 * Size(n - 1)
  }

  lemma {:induction false} IndexBelow(bits: seq<bool>)
    ensures Index(bits) < Size(|bits|)
  {
    if bits != [] {
      IndexBelow(bits[..|bits| - 1]);
    }
  }

  lemma {:induction false} IndexBit(bits: seq<bool>, j: nat)
    requires j < |bits|
    ensures BitOf(Index(bits), j, |bits|) == bits[j]
  {
    var front := bits[..|bits| - 1];
    if j < |bits| - 1 {
      assert Index(bits) / 2 == Index(front);
      IndexBit(front, j);
    }
  }

  // The upper half of a number's bits, and the lower half.
  lemma {:induction false} BitOfJoined(hi: nat, lo: nat, j: nat, n: nat, m: nat)
    requires lo < Size(m) && j < n + m
    ensures BitOf(hi * Size(m) + lo, j, n + m) == if j < n then BitOf(hi, j, n) else BitOf(lo, j - n, m)
  {
    if m > 0 {
      var x := hi * Size(m) + lo;
      assert hi * Size(m) == 2 * (hi * Size(m - 1));
      assert x / 2 == hi * Size(m - 1) + lo / 2 && x % 2 == lo % 2;
      if j < n + m - 1 {
        BitOfJoined(hi, lo / 2, j, n, m - 1);
      }
    }
  }

  lemma {:induction false} IndexJoined(a: seq<bool>, b: seq<bool>)
    ensures Index(a + b) == Index(a) * Size(|b|) + Index(b)
  {
    if b == [] {
      assert a + b == a;
    } else {
      var front := b[..|b| - 1];
      IndexJoined(a, front);
      assert (a + b)[..|a + b| - 1] == a + front;
      assert Index(a) * Size(|b|) == 2 * (Index(a) * Size(|front|));
    }
  }
}
