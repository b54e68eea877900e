// The round function of DES, as the standard describes it and from tables that take
// twelve bits at a time (sections 3 and appendix 1 of FIPS 46-3).
module DesRound {
  import opened DesWords
  import opened DesPermutation

  type SBoxes = s: seq<seq<nat>> | |s| == 8 && forall g: nat | g < 8 :: |s[g]| == 64 && forall x <- s[g] :: x < 16
    witness seq(8, _ => seq(64, _ => 0))

  type Permutation32 = p: seq<nat> | |p| == 32 && forall x <- p :: x < 32 witness seq(32, x => x)

  ghost predicate Inverse32(p: Permutation32, q: Permutation32) {
    forall x: nat | x < 32 :: q[p[x]] == x && p[q[x]] == x
  }

  type Bits48 = b: seq<bool> | |b| == 48 witness seq(48, _ => false)

  // Words of which only the low 24 bits are used.
  type Half = w: Word | forall p :: 0 <= p < 8 ==> !w[p] witness ZERO

  // ----------------------------------------------------------- the standard

  // Where each bit of the expanded word comes from.
  function EBit(t: nat): (p: nat)
    requires t < 48
    ensures p < 32
  {
    var p := 4 * (t / 6) + t % 6 - 1;
    if p < 0 then 31 else if p >= 32 then 0 else p
  }

  function Expanded(r: Word): Bits48 {
    seq(48, t requires 0 <= t < 48 => r[EBit(t)])
  }

  // A bit of the salt swaps two bits of the expanded word; then the key is added.
  function Salted(e: Bits48, salt: Half, kl: Half, kr: Half): Bits48 {
    seq(48, t requires 0 <= t < 48 =>
      if t < 24 then (if salt[8 + t] then e[24 + t] else e[t]) != kl[8 + t]
      else (if salt[t - 16] then e[t - 24] else e[t]) != kr[t - 16])
  }

  function Bit(b: bool): nat {
    if b then 1 else 0
  }

  // The outer bits of the six choose a row, the inner ones a column.
  function SValue(s: SBoxes, g: nat, six: seq<bool>): (v: nat)
    requires g < 8 && |six| == 6
    ensures v < 16
  {
    IndexBelow(six[1..5]);
    assert Size(4) == 16;
    s[g][16 * (2 * Bit(six[0]) + Bit(six[5])) + Index(six[1..5])]
  }

  function Substituted(s: SBoxes, x: Bits48): Word {
    seq(32, q requires 0 <= q < 32 => BitOf(SValue(s, q / 4, x[6 * (q / 4)..6 * (q / 4) + 6]), q % 4, 4))
  }

  function Permuted(w: Word, from: Permutation32): Word {
    seq(32, o requires 0 <= o < 32 => w[from[o]])
  }

  function RoundFunction(r: Word, salt: Half, kl: Half, kr: Half, s: SBoxes, from: Permutation32): Word {
    Permuted(Substituted(s, Salted(Expanded(r), salt, kl, kr)), from)
  }

  // -------------------------------------------------- expanding and salting

  // The two halves of 48 bits, each in a word.
  ghost predicate Halves(x: Bits48, l: Half, r: Half) {
    && (forall t: nat | t < 24 :: x[t] == l[8 + t])
    && (forall t: nat | 24 <= t < 48 :: x[t] == r[t - 16])
  }

  method Expand(r: Word) returns (el: Half, er: Half)
    ensures Halves(Expanded(r), el, er)
  {
    el := ExpandLeft(r);
    er := ExpandRight(r);
  }

  function Or5(a: Word, b: Word, c: Word, d: Word, e: Word): (r: Word)
    ensures forall o :: 0 <= o < 32 ==> r[o] == (a[o] || b[o] || c[o] || d[o] || e[o])
  {
    Or(Or(Or(Or(a, b), c), d), e)
  }

  function ExpandLeft(r: Word): (e: Half)
    ensures forall t: nat | t < 24 :: e[8 + t] == r[EBit(t)]
  {
    Or5(Cut(r, 31, 32, -23), Cut(r, 0, 5, 9), Cut(r, 3, 9, 11), Cut(r, 7, 13, 13), Cut(r, 11, 17, 15))
  }

  function ExpandRight(r: Word): (e: Half)
    ensures forall p: nat | 8 <= p < 32 :: e[p] == r[EBit(16 + p)]
  {
    Or5(Cut(r, 15, 21, -7), Cut(r, 19, 25, -5), Cut(r, 23, 29, -3), Cut(r, 27, 32, -1), Cut(r, 0, 1, 31))
  }

  method AddSaltAndKey(el: Half, er: Half, salt: Half, kl: Half, kr: Half, ghost e: Bits48) returns (xl: Half, xr: Half)
    requires Halves(e, el, er)
    ensures Halves(Salted(e, salt, kl, kr), xl, xr)
  {
    var f: Half := And(Xor(el, er), salt);
    xl := Xor(el, Xor(f, kl));
    xr := Xor(er, Xor(f, kr));
  }

  // ---------------------------------------------------------------- tables

  lemma SixBits(six: seq<bool>)
    requires |six| == 6
    ensures var j := Index(six);
      && j < 64
      && j / 32 == Bit(six[0]) && j % 2 == Bit(six[5]) && j / 2 % 16 == Index(six[1..5])
  {
    IndexBelow(six);
    assert Size(6) == 64;
    var inner := six[1..5];
    IndexBelow(inner);
    assert Size(4) == 16;
    IndexJoined([six[0]], inner);
    assert six[..5] == [six[0]] + inner;
    assert Index([six[0]]) == Bit(six[0]) by {
      assert [six[0]][..0] == [];
    }
  }

  // Value v of an S-box whose input is the number j, with the bits reordered.
  function Reordered(s: SBoxes, g: nat, j: nat): (v: nat)
    requires g < 8 && j < 64
    ensures v < 16
  {
    s[g][j / 32 * 32 + j % 2 * 16 + j / 2 % 16]
  }

  lemma ReorderedValue(s: SBoxes, g: nat, six: seq<bool>)
    requires g < 8 && |six| == 6
    ensures Index(six) < 64 && Reordered(s, g, Index(six)) == SValue(s, g, six)
  {
    SixBits(six);
  }

  // The eight bits two S-boxes make of twelve.
  function MValue(s: SBoxes, b: nat, i: nat, j: nat): (v: nat)
    requires b < 4 && i < 64 && j < 64
    ensures v < 256
  {
    16 * Reordered(s, 2 * b, i) + Reordered(s, 2 * b + 1, j)
  }

  lemma Split64(i: nat, j: nat)
    requires j < 64
    ensures (i * 64 + j) / 64 == i && (i * 64 + j) % 64 == j
  {
  }

  lemma TwelveBits(s: SBoxes, b: nat, x: seq<bool>)
    requires b < 4 && |x| == 12
    ensures var i := Index(x);
      && i < 4096
      && MValue(s, b, i / 64, i % 64) == 16 * SValue(s, 2 * b, x[..6]) + SValue(s, 2 * b + 1, x[6..])
  {
    var (h, l) := (x[..6], x[6..]);
    ReorderedValue(s, 2 * b, h);
    ReorderedValue(s, 2 * b + 1, l);
    assert Size(6) == 64;
    IndexJoined(h, l);
    assert x == h + l;
    Split64(Index(h), Index(l));
  }

  ghost predicate PEntryOk(from: Permutation32, b: nat, i: nat, p: Word) {
    forall o: nat | o < 32 :: p[o] <==> InByte(from[o], b, i)
  }

  // The loop that sets up an OR-mask for the output of two S-boxes.
  method MakePEntry(to: Permutation32, b: nat, i: nat, ghost from: Permutation32) returns (p: Word)
    requires Inverse32(to, from) && b < 4
    ensures PEntryOk(from, b, i, p)
  {
    p := ZERO;
    for j := 0 to 8
      invariant forall o: nat | o < 32 :: p[o] <==> InByte(from[o], b, i) && from[o] % 8 < j
    {
      ghost var x := 8 * b + j;
      assert forall o: nat | o < 32 :: from[o] == x <==> o == to[x];
      if BitOf(i, j, 8) {
        p := Or(p, Unit(to[8 * b + j]));
      }
    }
  }

  class Boxes {
    const msbox: array2<nat>
    const psbox: array2<Word>
    ghost const s: SBoxes
    ghost const from: Permutation32

    ghost predicate Valid()
      reads this, msbox, psbox
    {
      && msbox.Length0 == 4 && msbox.Length1 == 4096 && psbox.Length0 == 4 && psbox.Length1 == 256
      && (forall b: nat, i: nat | b < 4 && i < 4096 ::
            msbox[b, i] == MValue(s, b, i / 64, i % 64))
      && (forall b: nat, i: nat | b < 4 && i < 256 :: PEntryOk(from, b, i, psbox[b, i]))
    }

    constructor (s: SBoxes, to: Permutation32, ghost from: Permutation32)
      requires Inverse32(to, from)
      ensures Valid() && this.s == s && this.from == from && fresh(msbox) && fresh(psbox)
    {
      msbox := new nat[4, 4096]((_, _) => 0);
      psbox := new Word[4, 256]((_, _) => ZERO);
      this.s, this.from := s, from;
      new;
      FillM(s);
      FillP(to);
    }

    method FillM(s: SBoxes)
      requires msbox.Length0 == 4 && msbox.Length1 == 4096
      modifies msbox
      ensures forall b: nat, i: nat | b < 4 && i < 4096 :: msbox[b, i] == MValue(s, b, i / 64, i % 64)
    {
      for b := 0 to 4
        invariant forall b': nat, i: nat | b' < b && i < 4096 :: msbox[b', i] == MValue(s, b', i / 64, i % 64)
      {
        for i := 0 to 64
          invariant forall b': nat, x: nat | b' < b && x < 4096 :: msbox[b', x] == MValue(s, b', x / 64, x % 64)
          invariant forall x: nat | x < 64 * i :: msbox[b, x] == MValue(s, b, x / 64, x % 64)
        {
          FillMRow(s, b, i);
        }
      }
    }

    method FillMRow(s: SBoxes, b: nat, i: nat)
      requires msbox.Length0 == 4 && msbox.Length1 == 4096 && b < 4 && i < 64
      modifies msbox
      ensures forall b': nat, x: nat | b' < 4 && x < 4096 && !(b' == b && i * 64 <= x < i * 64 + 64) :: msbox[b', x] == old(msbox[b', x])
      ensures forall x: nat | i * 64 <= x < i * 64 + 64 :: msbox[b, x] == MValue(s, b, x / 64, x % 64)
    {
      for j := 0 to 64
        invariant forall b': nat, x: nat | b' < 4 && x < 4096 && !(b' == b && i * 64 <= x < i * 64 + 64) :: msbox[b', x] == old(msbox[b', x])
        invariant forall x: nat | i * 64 <= x < i * 64 + j :: msbox[b, x] == MValue(s, b, x / 64, x % 64)
      {
        Split64(i, j);
        msbox[b, i * 64 + j] := 16 * Reordered(s, 2 * b, i) + Reordered(s, 2 * b + 1, j);
      }
    }

    method FillP(to: Permutation32)
      requires psbox.Length0 == 4 && psbox.Length1 == 256 && Inverse32(to, from)
      modifies psbox
      ensures forall b: nat, i: nat | b < 4 && i < 256 :: PEntryOk(from, b, i, psbox[b, i])
    {
      for b := 0 to 4
        invariant forall b': nat, i: nat | b' < b && i < 256 :: PEntryOk(from, b', i, psbox[b', i])
      {
        for i := 0 to 256
          invariant forall b': nat, i': nat | b' < b && i' < 256 :: PEntryOk(from, b', i', psbox[b', i'])
          invariant forall i': nat | i' < i :: PEntryOk(from, b, i', psbox[b, i'])
        {
          psbox[b, i] := MakePEntry(to, b, i, from);
        }
      }
    }

    // (x >> 12) and (x & 0xfff) as indices.
    static function Twelve(x: Half, low: bool): (i: nat)
      ensures i == Index(if low then x[20..] else x[8..20])
    {
      if low then Index(x[20..])
      else
        LeadingZeros(x[..8], x[8..20]);
        assert x[..20] == x[..8] + x[8..20];
        Index(x[..20])
    }

    // psbox[b][m_sbox[b][the b-th twelve bits]]
    method Entry(b: nat, w: Half, low: bool, ghost x: Bits48) returns (p: Word, ghost m: nat)
      requires Valid() && b < 4 && x[12 * b..12 * b + 12] == if low then w[20..] else w[8..20]
      ensures IsByte(Substituted(s, x), b, m) && PEntryOk(from, b, m, p)
    {
      MByte(x, b);
      m := msbox[b, Twelve(w, low)];
      p := psbox[b, msbox[b, Twelve(w, low)]];
    }

    // The S-boxes and the P-box in one lookup for each twelve bits.
    method Lookup(xl: Half, xr: Half, ghost x: Bits48) returns (f: Word)
      requires Valid() && Halves(x, xl, xr)
      ensures f == Permuted(Substituted(s, x), from)
    {
      assert xl[8..20] == x[0..12] && xl[20..] == x[12..24];
      assert xr[8..20] == x[24..36] && xr[20..] == x[36..48];
      var p0, m0 := Entry(0, xl, false, x);
      var p1, m1 := Entry(1, xl, true, x);
      var p2, m2 := Entry(2, xr, false, x);
      var p3, m3 := Entry(3, xr, true, x);
      f := Or4(p0, p1, p2, p3);
      FourBytes(Substituted(s, x), from, m0, m1, m2, m3, p0, p1, p2, p3);
    }

    // What the table holds for the b-th twelve bits: the b-th byte of the substituted word.
    lemma MByte(x: Bits48, b: nat)
      requires Valid() && b < 4
      ensures var i := Index(x[12 * b..12 * b + 12]);
        i < 4096 && msbox[b, i] < 256 && IsByte(Substituted(s, x), b, msbox[b, i])
    {
      var twelve := x[12 * b..12 * b + 12];
      TwelveBits(s, b, twelve);
      assert twelve[..6] == x[6 * (2 * b)..6 * (2 * b) + 6];
      assert twelve[6..] == x[6 * (2 * b + 1)..6 * (2 * b + 1) + 6];
      SubstitutedByte(s, x, b);
    }
  }

  // m is byte b of the word.
  ghost predicate IsByte(w: Word, b: nat, m: nat) {
    forall q: nat | 8 * b <= q < 8 * b + 8 && q < 32 :: w[q] == BitOf(m, q % 8, 8)
  }

  lemma SubstitutedByte(s: SBoxes, x: Bits48, b: nat)
    requires b < 4
    ensures var (hi, lo) := (SValue(s, 2 * b, x[6 * (2 * b)..6 * (2 * b) + 6]), SValue(s, 2 * b + 1, x[6 * (2 * b + 1)..6 * (2 * b + 1) + 6]));
      IsByte(Substituted(s, x), b, 16 * hi + lo)
  {
    var (hi, lo) := (SValue(s, 2 * b, x[6 * (2 * b)..6 * (2 * b) + 6]), SValue(s, 2 * b + 1, x[6 * (2 * b + 1)..6 * (2 * b + 1) + 6]));
    forall q: nat | 8 * b <= q < 8 * b + 8 && q < 32 ensures Substituted(s, x)[q] == BitOf(16 * hi + lo, q % 8, 8) {
      assert Size(4) == 16;
      BitOfJoined(hi, lo, q % 8, 4, 4);
      assert q / 4 == (if q % 8 < 4 then 2 * b else 2 * b + 1);
    }
  }

  lemma FourBytes(w: Word, from: Permutation32, m0: nat, m1: nat, m2: nat, m3: nat, p0: Word, p1: Word, p2: Word, p3: Word)
    requires IsByte(w, 0, m0) && IsByte(w, 1, m1) && IsByte(w, 2, m2) && IsByte(w, 3, m3)
    requires PEntryOk(from, 0, m0, p0) && PEntryOk(from, 1, m1, p1) && PEntryOk(from, 2, m2, p2) && PEntryOk(from, 3, m3, p3)
    ensures Or4(p0, p1, p2, p3) == Permuted(w, from)
  {
    var f := Or4(p0, p1, p2, p3);
    forall o: nat | o < 32 ensures f[o] == w[from[o]] {
    }
  }

  function Or4(a: Word, b: Word, c: Word, d: Word): (r: Word)
    ensures forall o :: 0 <= o < 32 ==> r[o] == (a[o] || b[o] || c[o] || d[o])
  {
    Or(Or(Or(a, b), c), d)
  }

  lemma {:induction false} LeadingZeros(zeros: seq<bool>, rest: seq<bool>)
    requires forall p :: 0 <= p < |zeros| ==> !zeros[p]
    ensures Index(zeros + rest) == Index(rest)
  {
    if zeros == [] {
      assert zeros + rest == rest;
    } else {
      IndexJoined(zeros, rest);
      IndexZero(zeros);
    }
  }

  lemma {:induction false} IndexZero(zeros: seq<bool>)
    requires forall p :: 0 <= p < |zeros| ==> !zeros[p]
    ensures Index(zeros) == 0
  {
    if zeros != [] {
      IndexZero(zeros[..|zeros| - 1]);
    }
  }
}
