// The reversible integer coder of the X-Face codec: every symbol is pushed
// onto, and popped from, one unbounded integer.
module XFaceCoder {
  import opened Common
  import opened ModArith

  // A symbol owns the bytes offset .. offset + range - 1.
  datatype ProbRange = ProbRange(range: Byte, offset: Byte)

  predicate Owns(p: ProbRange, r: int) {
    p.offset <= r < p.offset + p.range
  }

  // Some symbol from index i on owns r.
  ghost predicate Owned(prs: seq<ProbRange>, r: int, i: nat) {
    exists k | i <= k < |prs| :: Owns(prs[k], r)
  }

  // Every byte is owned by exactly one symbol of the table.
  ghost predicate Partitions(prs: seq<ProbRange>) {
    && (forall r: Byte :: Owned(prs, r, 0))
    && (forall r: Byte, i, k | 0 <= i < |prs| && 0 <= k < |prs| && Owns(prs[i], r) && Owns(prs[k], r) :: i == k)
    && (forall i | 0 <= i < |prs| :: prs[i].offset + prs[i].range <= 256)
  }

  // Symbol indices of the level tables.
  const BLACK := 0
  const GREY := 1
  const WHITE := 2

  const LEVELS: seq<seq<ProbRange>> := [
    [ProbRange(1, 255), ProbRange(251, 0), ProbRange(4, 251)],
    [ProbRange(1, 255), ProbRange(200, 0), ProbRange(55, 200)],
    [ProbRange(33, 223), ProbRange(159, 0), ProbRange(64, 159)],
    [ProbRange(131, 0), ProbRange(0, 0), ProbRange(125, 131)]
  ]

  const GREYS: seq<ProbRange> := [
    ProbRange(0, 0), ProbRange(38, 0), ProbRange(38, 38), ProbRange(13, 152),
    ProbRange(38, 76), ProbRange(13, 165), ProbRange(13, 178), ProbRange(6, 230),
    ProbRange(38, 114), ProbRange(13, 191), ProbRange(13, 204), ProbRange(6, 236),
    ProbRange(13, 217), ProbRange(6, 242), ProbRange(5, 248), ProbRange(3, 253)
  ]

  lemma LevelsPartition(level: nat)
    requires level < 4
    ensures |LEVELS[level]| == 3 && Partitions(LEVELS[level])
  {
    var prs := LEVELS[level];
    forall r: Byte ensures Owned(prs, r, 0) {
      assert Owns(prs[0], r) || Owns(prs[1], r) || Owns(prs[2], r);
    }
  }

  lemma GreysPartition()
    ensures |GREYS| == 16 && Partitions(GREYS)
  {
    forall r: Byte ensures Owned(GREYS, r, 0) {
      if r < 152 {
        assert Owns(GREYS[1], r) || Owns(GREYS[2], r) || Owns(GREYS[4], r) || Owns(GREYS[8], r);
      } else if r < 230 {
        assert Owns(GREYS[3], r) || Owns(GREYS[5], r) || Owns(GREYS[6], r)
            || Owns(GREYS[9], r) || Owns(GREYS[10], r) || Owns(GREYS[12], r);
      } else {
        assert Owns(GREYS[7], r) || Owns(GREYS[11], r) || Owns(GREYS[13], r)
            || Owns(GREYS[14], r) || Owns(GREYS[15], r);
      }
    }
  }

  predicate Pushable(p: ProbRange) {
    0 < p.range && p.offset + p.range <= 256
  }

  // The symbols the encoder may push: dividing by an empty range is impossible.
  type Symbol = p: ProbRange | Pushable(p) witness ProbRange(1, 255)

  // Only the first cell symbol, the all-white cell, has an empty range.
  lemma GreysPushable(i: nat)
    requires i < 16
    ensures |GREYS| == 16 && (Pushable(GREYS[i]) <==> i != 0)
  {
  }

  function CellSymbol(i: nat): Symbol
    requires 0 < i < 16
  {
    GreysPushable(i);
    GREYS[i]
  }

  function Push(v: nat, p: Symbol): nat {
    v / p.range * 256 + v % p.range + p.offset
  }

  // The symbol that owns r, looking from index i on.
  function Find(prs: seq<ProbRange>, r: Byte, i: nat): (k: nat)
    requires Owned(prs, r, i)
    ensures i <= k < |prs| && Owns(prs[k], r)
    decreases |prs| - i
  {
    if Owns(prs[i], r) then i else Find(prs, r, i + 1)
  }

  function Pop(v: nat, prs: seq<ProbRange>): (iv: (nat, nat))
    requires Partitions(prs)
    ensures iv.0 < |prs| && prs[iv.0].range > 0
  {
    var i := Find(prs, v % 256, 0);
    (i, v / 256 * prs[i].range + v % 256 - prs[i].offset)
  }

  lemma PopOwned(q: nat, m: nat, prs: seq<ProbRange>, i: nat)
    requires Partitions(prs) && i < |prs| && m < prs[i].range
    ensures Pop(q * 256 + m + prs[i].offset, prs) == (i, q * prs[i].range + m)
  {
    var r: Byte := m + prs[i].offset;
    DivModUnique(q, r, 256);
    assert Owns(prs[i], r);
    assert Find(prs, r, 0) == i;
  }

  lemma PopUndoesPush(v: nat, prs: seq<ProbRange>, i: nat)
    requires Partitions(prs) && i < |prs| && prs[i].range > 0
    ensures Pop(Push(v, prs[i]), prs) == (i, v)
  {
    PopOwned(v / prs[i].range, v % prs[i].range, prs, i);
    DivMod(v, prs[i].range);
  }

  lemma PushUndoesPop(v: nat, prs: seq<ProbRange>)
    requires Partitions(prs)
    ensures var (i, w) := Pop(v, prs); Push(w, prs[i]) == v
  {
    var (i, w) := Pop(v, prs);
    DivModUnique(v / 256, v % 256 - prs[i].offset, prs[i].range);
  }

  // Grey has an empty range at the bottom level, so no integer decodes to it:
  // the decoder never descends below level 3.
  lemma NoGreyAtBottom(v: nat)
    ensures Partitions(LEVELS[3]) && Pop(v, LEVELS[3]).0 != GREY
  {
    LevelsPartition(3);
  }

  // Pushing from the last symbol to the first leaves the first one on top.
  ghost function PushAll(pq: seq<Symbol>, v: nat): nat
  {
    if pq == [] then v else Push(PushAll(pq[1..], v), pq[0])
  }

  // math/big.Int, restricted to the non-negative values the codec uses.
  class BigInt {
    var v: nat

    constructor (v: nat)
      ensures this.v == v
    {
      this.v := v;
    }
  }

  method PushInteger(b: BigInt, p: Symbol)
    modifies b
    ensures b.v == Push(old(b.v), p)
  {
    var q, m := b.v / p.range, b.v % p.range;
    b.v := q * 256;
    b.v := b.v + (m + p.offset);
  }

  method GetByteAndShift(b: BigInt) returns (x: Byte)
    modifies b
    ensures x == old(b.v) % 256 && b.v == old(b.v) / 256
  {
    if b.v == 0 {
      return 0;
    }
    x := b.v % 256;
    b.v := b.v / 256;
  }

  method PopInteger(b: BigInt, prs: seq<ProbRange>) returns (i: nat)
    requires Partitions(prs)
    modifies b
    ensures (i, b.v) == Pop(old(b.v), prs)
  {
    var r := GetByteAndShift(b);
    i := 0;
    assert Owned(prs, r, 0);
    while r < prs[i].offset || r >= prs[i].range + prs[i].offset
      invariant i < |prs|
      invariant Owned(prs, r, i)
      invariant Find(prs, r, i) == Find(prs, r, 0)
      decreases |prs| - i
    {
      i := i + 1;
    }
    b.v := b.v * prs[i].range;
    b.v := b.v + (r - prs[i].offset);
  }
}
