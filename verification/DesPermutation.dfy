// Permuting the bits of a block with tables of OR-masks, one table for each of its bytes.
module DesPermutation {
  import opened DesWords

  // For each bit of a 64-bit block, the bit it is moved to.
  type Permutation = p: seq<nat> | |p| == 64 && forall x <- p :: x < 64 witness seq(64, x => x)

  ghost predicate Inverse(p: Permutation, q: Permutation) {
    forall x: nat | x < 64 :: q[p[x]] == x && p[q[x]] == x
  }

  // What a permutation does to a block, given where each bit comes from.
  function Moved(b: Block, from: Permutation): Block {
    seq(64, o requires 0 <= o < 64 => b[from[o]])
  }

  lemma MovedBack(b: Block, p: Permutation, q: Permutation)
    requires Inverse(p, q)
    ensures Moved(Moved(b, p), q) == b
  {
  }

  // Bit x of the block is bit x % 8 of its byte x / 8.
  predicate InByte(x: nat, k: nat, i: nat) {
    x / 8 == k && BitOf(i, x % 8, 8)
  }

  // The entry of a table for byte k having the value i: the bits go where they should.
  ghost predicate EntryOk(from: Permutation, k: nat, i: nat, l: Word, r: Word) {
    && (forall o: nat | o < 32 :: l[o] <==> InByte(from[o], k, i))
    && (forall o: nat | o < 32 :: r[o] <==> InByte(from[32 + o], k, i))
  }

  ghost predicate EntryUpTo(from: Permutation, k: nat, i: nat, j: nat, l: Word, r: Word) {
    && (forall o: nat | o < 32 :: l[o] <==> InByte(from[o], k, i) && from[o] % 8 < j)
    && (forall o: nat | o < 32 :: r[o] <==> InByte(from[32 + o], k, i) && from[32 + o] % 8 < j)
  }

  lemma EntryStep(to: Permutation, from: Permutation, k: nat, i: nat, j: nat, l: Word, r: Word)
    requires Inverse(to, from) && k < 8 && j < 8 && EntryUpTo(from, k, i, j, l, r)
    ensures var obit := to[8 * k + j];
      if !BitOf(i, j, 8) then EntryUpTo(from, k, i, j + 1, l, r)
      else if obit < 32 then EntryUpTo(from, k, i, j + 1, Or(l, Unit(obit)), r)
      else EntryUpTo(from, k, i, j + 1, l, Or(r, Unit(obit - 32)))
  {
    var x := 8 * k + j;
    assert forall o: nat | o < 64 :: from[o] == x <==> o == to[x];
  }

  // The innermost loop that sets up a table.
  method MakeEntry(to: Permutation, k: nat, i: nat, ghost from: Permutation) returns (l: Word, r: Word)
    requires Inverse(to, from) && k < 8
    ensures EntryOk(from, k, i, l, r)
  {
    l, r := ZERO, ZERO;
    for j := 0 to 8
      invariant EntryUpTo(from, k, i, j, l, r)
    {
      EntryStep(to, from, k, i, j, l, r);
      var inbit := 8 * k + j;
      if BitOf(i, j, 8) {
        var obit := to[inbit];
        if obit < 32 {
          l := Or(l, Unit(obit));
        } else {
          r := Or(r, Unit(obit - 32));
        }
      }
    }
  }

  // The tables for the two halves of the result.
  class Masks {
    const l: array2<Word>
    const r: array2<Word>
    ghost const from: Permutation

    ghost predicate Valid()
      reads this, l, r
    {
      && l.Length0 == 8 && l.Length1 == 256 && r.Length0 == 8 && r.Length1 == 256
      && forall k: nat, i: nat | k < 8 && i < 256 :: EntryOk(from, k, i, l[k, i], r[k, i])
    }

    constructor (to: Permutation, ghost from: Permutation)
      requires Inverse(to, from)
      ensures Valid() && this.from == from && fresh(l) && fresh(r)
    {
      l := new Word[8, 256]((_, _) => ZERO);
      r := new Word[8, 256]((_, _) => ZERO);
      this.from := from;
      new;
      for k := 0 to 8
        invariant forall k': nat, i: nat | k' < k && i < 256 :: EntryOk(from, k', i, l[k', i], r[k', i])
      {
        for i := 0 to 256
          invariant forall k': nat, i': nat | k' < k && i' < 256 :: EntryOk(from, k', i', l[k', i'], r[k', i'])
          invariant forall i': nat | i' < i :: EntryOk(from, k, i', l[k, i'], r[k, i'])
        {
          var il, ir := MakeEntry(to, k, i, from);
          l[k, i], r[k, i] := il, ir;
        }
      }
    }

    // Permutes the block made of two words.
    method Permute(lin: Word, rin: Word) returns (lout: Word, rout: Word)
      requires Valid()
      ensures lout + rout == Moved(lin + rin, from)
    {
      lout := Or8(l[0, ByteOf(lin, 0)], l[1, ByteOf(lin, 1)], l[2, ByteOf(lin, 2)], l[3, ByteOf(lin, 3)],
                  l[4, ByteOf(rin, 0)], l[5, ByteOf(rin, 1)], l[6, ByteOf(rin, 2)], l[7, ByteOf(rin, 3)]);
      rout := Or8(r[0, ByteOf(lin, 0)], r[1, ByteOf(lin, 1)], r[2, ByteOf(lin, 2)], r[3, ByteOf(lin, 3)],
                  r[4, ByteOf(rin, 0)], r[5, ByteOf(rin, 1)], r[6, ByteOf(rin, 2)], r[7, ByteOf(rin, 3)]);
      forall o: nat | o < 32 ensures lout[o] == (lin + rin)[from[o]] && rout[o] == (lin + rin)[from[32 + o]] {
        ByteHolds(lin, rin, from[o]);
        ByteHolds(lin, rin, from[32 + o]);
      }
    }
  }

  // (w >> (24 - 8 * b)) & 0xff
  function ByteOf(w: Word, b: nat): (i: nat)
    requires b < 4
    ensures i < 256
  {
    IndexBelow(w[8 * b..8 * b + 8]);
    assert Size(8) == 256;
    Index(w[8 * b..8 * b + 8])
  }

  function Or8(a: Word, b: Word, c: Word, d: Word, e: Word, f: Word, g: Word, h: Word): (r: Word)
    ensures forall o :: 0 <= o < 32 ==> r[o] == (a[o] || b[o] || c[o] || d[o] || e[o] || f[o] || g[o] || h[o])
  {
    Or(Or(Or(Or(Or(Or(Or(a, b), c), d), e), f), g), h)
  }

  lemma ByteHolds(l: Word, r: Word, x: nat)
    requires x < 64
    ensures x < 32 ==> BitOf(ByteOf(l, x / 8), x % 8, 8) == (l + r)[x]
    ensures x >= 32 ==> BitOf(ByteOf(r, x / 8 - 4), x % 8, 8) == (l + r)[x]
  {
    if x < 32 {
      IndexBit(l[8 * (x / 8)..8 * (x / 8) + 8], x % 8);
    } else {
      var b := x / 8 - 4;
      IndexBit(r[8 * b..8 * b + 8], x % 8);
    }
  }
}
