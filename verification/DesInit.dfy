// Setting up the tables: the permutations come from the tables of the standard, and so the
// final one undoes the initial one.
module DesInit {
  import opened DesWords
  import opened DesPermutation
  import opened DesRound
  import opened Des
  import opened DesTables

  // A table takes each bit from where the standard's table says, which counts from one.
  ghost predicate Follows(from: seq<nat>, table: seq<nat>) {
    |from| == |table| && forall i :: 0 <= i < |table| ==> from[i] + 1 == table[i]
  }

  // The table for the initial permutation is inverted; taken as it is, it is the final one.
  method InvertIp() returns (initPerm: Permutation, finalPerm: Permutation)
    ensures Follows(finalPerm, IP) && Inverse(initPerm, finalPerm) && Inverse(finalPerm, initPerm)
  {
    IpNamesOnce();
    var down, inverse := Invert(IP);
    forall x | 0 <= x < 64 ensures down[x] < 64 && inverse[x] < 64 && down[inverse[x]] == x {
      InverseBothWays(down, inverse, x);
    }
    initPerm, finalPerm := inverse, down;
  }

  method InvertPbox() returns (unPbox: Permutation32, ghost from: Permutation32)
    ensures Follows(from, PBOX) && Inverse32(unPbox, from)
  {
    PboxNamesOnce();
    var down, inverse := Invert(PBOX);
    forall x | 0 <= x < 32 ensures down[x] < 32 && inverse[x] < 32 && down[inverse[x]] == x {
      InverseBothWays(down, inverse, x);
    }
    unPbox, from := inverse, down;
  }

  // A context over the tables of the standard.
  ghost predicate Standard(ctx: DesContext)
    reads ctx, ctx.keysl, ctx.keysr, ctx.ip, ctx.ip.l, ctx.ip.r, ctx.fp, ctx.fp.l, ctx.fp.r, ctx.boxes, ctx.boxes.msbox, ctx.boxes.psbox
  {
    ctx.Valid() && Follows(ctx.ip.from, IP) && Follows(ctx.boxes.from, PBOX)
  }

  // des_init, and a context on what it has made.
  method NewContext(s: SBoxes) returns (ctx: DesContext)
    ensures fresh(ctx) && fresh(ctx.keysl) && fresh(ctx.keysr) && Standard(ctx) && ctx.boxes.s == s
  {
    var initPerm, finalPerm := InvertIp();
    var unPbox, pbox := InvertPbox();
    var ip := new Masks(initPerm, finalPerm);
    var fp := new Masks(finalPerm, initPerm);
    var boxes := new Boxes(s, unPbox, pbox);
    ctx := new DesContext(ip, fp, boxes);
  }

  // One call with a count of m + n, and a call with m followed by one with n: they give
  // the same block, whatever keys and salt the context holds.
  method CountsAdd(ctx: DesContext, lin: Word, rin: Word, m: nat, n: nat)
    returns (l: Word, r: Word, l': Word, r': Word)
    requires ctx.Valid()
    ensures l == l' && r == r'
    ensures l + r == Repeated(ctx.Now(), m + n, lin + rin, ctx.ip.from, ctx.fp.from)
  {
    l, r := ctx.DoDes(lin, rin, m + n);
    l', r' := ctx.DoDes(lin, rin, m);
    l', r' := ctx.DoDes(l', r', n);
    RepeatedAdds(ctx.Now(), m, n, lin + rin, ctx.ip.from, ctx.fp.from);
    HalvedJoined(l, r);
    HalvedJoined(l', r');
  }

  // The same on a context just set up, once it has keys and a salt: nothing is assumed of
  // the tables any more.
  method StandardCountsAdd(s: SBoxes, keys: Schedule, salt: nat, lin: Word, rin: Word, m: nat, n: nat)
    returns (ctx: DesContext, l: Word, r: Word, l': Word, r': Word)
    requires salt < Size(24)
    ensures Standard(ctx) && ctx.boxes.s == s && ctx.Now().rounds == keys
    ensures forall p: nat | 8 <= p < 32 :: ctx.saltbits[p] == BitOf(salt, 31 - p, 24)
    ensures l == l' && r == r'
    ensures l + r == Repeated(ctx.Now(), m + n, lin + rin, ctx.ip.from, ctx.fp.from)
  {
    ctx := NewContext(s);
    ctx.SetupSalt(salt);
    ctx.SetKeys(keys);
    l, r, l', r' := CountsAdd(ctx, lin, rin, m, n);
  }

  // A call with some keys, and one with the same keys in reverse on what came out of it:
  // they give the block back, whatever salt the context holds.
  method ThereAndBack(ctx: DesContext, keys: Schedule, lin: Word, rin: Word, n: nat) returns (l: Word, r: Word)
    requires ctx.Valid()
    modifies ctx.keysl, ctx.keysr
    ensures l == lin && r == rin
  {
    ctx.SetKeys(keys);
    ghost var c := ctx.Now();
    l, r := ctx.DoDes(lin, rin, n);
    ctx.SetKeys(ReversedKeys(keys));
    assert ctx.Now() == Reversed(c);
    l, r := ctx.DoDes(l, r, n);
    RepeatedBack(c, n, lin + rin, ctx.ip.from, ctx.fp.from);
    HalvedJoined(l, r);
    HalvedJoined(lin, rin);
  }

  // So it is on the tables of the standard.
  method StandardThereAndBack(s: SBoxes, keys: Schedule, salt: nat, lin: Word, rin: Word, n: nat) returns (l: Word, r: Word)
    requires salt < Size(24)
    ensures l == lin && r == rin
  {
    var ctx := NewContext(s);
    ctx.SetupSalt(salt);
    l, r := ThereAndBack(ctx, keys, lin, rin, n);
  }
}
