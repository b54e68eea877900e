// The repeated DES of crypt(3), with the initial and final permutations done once around
// any number of repetitions.
module Des {
  import opened DesWords
  import opened DesPermutation
  import opened DesRound

  const ROUND_COUNT: nat := 16

  datatype Pair = Pair(l: Word, r: Word)

  // What one round depends on.
  datatype Round = Round(kl: Half, kr: Half)

  // What all of them depend on.
  type Schedule = k: seq<Round> | |k| == ROUND_COUNT witness seq(ROUND_COUNT, _ => Round(ZERO, ZERO))

  datatype Setting = Setting(rounds: Schedule, salt: Half, s: SBoxes, from: Permutation32)

  function OneRound(c: Setting, i: nat, p: Pair): Pair
    requires i < ROUND_COUNT
  {
    var k := c.rounds[i];
    Pair(p.r, Xor(RoundFunction(p.r, c.salt, k.kl, k.kr, c.s, c.from), p.l))
  }

  function Rounds(c: Setting, n: nat, p: Pair): Pair
    requires n <= ROUND_COUNT
  {
    if n == 0 then p else OneRound(c, n - 1, Rounds(c, n - 1, p))
  }

  // All rounds, and the exchange of the halves after the last one.
  function Cycle(c: Setting, p: Pair): Pair {
    var q := Rounds(c, |c.rounds|, p);
    Pair(q.r, q.l)
  }

  function Times(f: Pair -> Pair, n: nat, p: Pair): Pair {
    if n == 0 then p else f(Times(f, n - 1, p))
  }

  function Cycles(c: Setting, n: nat, p: Pair): Pair {
    Times(q => Cycle(c, q), n, p)
  }

  lemma {:induction false} TimesAdd(f: Pair -> Pair, m: nat, n: nat, p: Pair)
    ensures Times(f, m + n, p) == Times(f, n, Times(f, m, p))
  {
    if n > 0 {
      TimesAdd(f, m, n - 1, p);
    }
  }

  lemma {:induction false} TimesBack(f: Pair -> Pair, g: Pair -> Pair, n: nat, p: Pair)
    requires forall q :: g(f(q)) == q
    ensures Times(g, n, Times(f, n, p)) == p
  {
    if n > 0 {
      var x := Times(f, n - 1, p);
      assert Times(g, 1, f(x)) == g(Times(g, 0, f(x)));
      TimesAdd(g, 1, n - 1, f(x));
      TimesBack(f, g, n - 1, p);
    }
  }

  lemma CyclesStep(c: Setting, n: nat, p: Pair, q: Pair, q': Pair)
    requires q == Cycles(c, n, p) && q' == Cycle(c, q)
    ensures q' == Cycles(c, n + 1, p)
  {
  }

  lemma RoundsStep(c: Setting, i: nat, p: Pair, q: Pair, q': Pair)
    requires i < ROUND_COUNT && q == Rounds(c, i, p) && q' == OneRound(c, i, q)
    ensures q' == Rounds(c, i + 1, p)
  {
  }

  lemma RoundsEnd(c: Setting, i: nat, p: Pair, q: Pair)
    requires i == ROUND_COUNT && q == Rounds(c, i, p)
    ensures Cycle(c, p) == Pair(q.r, q.l)
  {
  }

  function Halved(b: Block): Pair {
    Pair(b[..32], b[32..])
  }

  lemma HalvedJoined(l: Word, r: Word)
    ensures Halved(l + r) == Pair(l, r)
  {
  }

  // DES applied n times, the way do_des does it: permute once, repeat, permute back once.
  function Repeated(c: Setting, n: nat, b: Block, initial: Permutation, final: Permutation): Block {
    var p := Cycles(c, n, Halved(Moved(b, initial)));
    Moved(p.l + p.r, final)
  }

  lemma RepeatedIs(c: Setting, n: nat, b: Block, initial: Permutation, final: Permutation, l: Word, r: Word)
    requires Moved(b, initial) == l + r
    ensures var p := Cycles(c, n, Pair(l, r)); Repeated(c, n, b, initial, final) == Moved(p.l + p.r, final)
  {
    HalvedJoined(l, r);
  }

  lemma CyclesAdd(c: Setting, m: nat, n: nat, p: Pair)
    ensures Cycles(c, m + n, p) == Cycles(c, n, Cycles(c, m, p))
  {
    TimesAdd(q => Cycle(c, q), m, n, p);
  }

  // Because the final permutation undoes the initial one, repeating m and then n times is
  // repeating m + n times: the permutations in between cancel.
  lemma RepeatedAdds(c: Setting, m: nat, n: nat, b: Block, initial: Permutation, final: Permutation)
    requires Inverse(initial, final)
    ensures Repeated(c, n, Repeated(c, m, b, initial, final), initial, final) == Repeated(c, m + n, b, initial, final)
  {
    var p := Cycles(c, m, Halved(Moved(b, initial)));
    MovedBack(p.l + p.r, final, initial);
    HalvedJoined(p.l, p.r);
    CyclesAdd(c, m, n, Halved(Moved(b, initial)));
  }

  // No repetition leaves the block as it is.
  lemma RepeatedNever(c: Setting, b: Block, initial: Permutation, final: Permutation)
    requires Inverse(initial, final)
    ensures Repeated(c, 0, b, initial, final) == b
  {
    var x := Moved(b, initial);
    MovedBack(b, initial, final);
    assert x[..32] + x[32..] == x;
  }

  // ---------------------------------------------------------------- decryption

  function ReversedKeys(k: Schedule): Schedule {
    seq(ROUND_COUNT, i requires 0 <= i < ROUND_COUNT => k[ROUND_COUNT - 1 - i])
  }

  // The same setting with the round keys in reverse.
  function Reversed(c: Setting): Setting {
    c.(rounds := ReversedKeys(c.rounds))
  }

  function Exchanged(p: Pair): Pair {
    Pair(p.r, p.l)
  }

  lemma XorTwice(a: Word, b: Word)
    ensures Xor(a, Xor(a, b)) == b
  {
  }

  // A round with the same key undoes a round, when the halves are exchanged.
  lemma RoundBack(c: Setting, d: Setting, i: nat, j: nat, p: Pair)
    requires i < ROUND_COUNT && j < ROUND_COUNT && d == c.(rounds := d.rounds) && d.rounds[j] == c.rounds[i]
    ensures OneRound(d, j, Exchanged(OneRound(c, i, p))) == Exchanged(p)
  {
    var k := c.rounds[i];
    XorTwice(RoundFunction(p.r, c.salt, k.kl, k.kr, c.s, c.from), p.l);
  }

  lemma {:induction false} RoundsBack(c: Setting, n: nat, m: nat, p: Pair)
    requires m + n == |c.rounds|
    ensures Rounds(Reversed(c), n, Exchanged(Rounds(c, |c.rounds|, p))) == Exchanged(Rounds(c, m, p))
    decreases n
  {
    if n > 0 {
      RoundsBack(c, n - 1, m + 1, p);
      RoundBack(c, Reversed(c), m, n - 1, Rounds(c, m, p));
    }
  }

  // Because the halves are exchanged behind the last round, the same cycle with the keys in
  // reverse undoes it.
  lemma CycleBack(c: Setting, p: Pair)
    ensures Cycle(Reversed(c), Cycle(c, p)) == p
  {
    RoundsBack(c, |c.rounds|, 0, p);
  }

  lemma CyclesBack(c: Setting, d: Setting, n: nat, p: Pair)
    requires d == Reversed(c)
    ensures Cycles(d, n, Cycles(c, n, p)) == p
  {
    var (f, g) := ((q: Pair) => Cycle(c, q), (q: Pair) => Cycle(d, q));
    forall q: Pair ensures g(f(q)) == q {
      CycleBack(c, q);
    }
    TimesBack(f, g, n, p);
  }

  // Repeating it with the round keys in reverse gives the block back.
  lemma RepeatedBack(c: Setting, n: nat, b: Block, initial: Permutation, final: Permutation)
    requires Inverse(initial, final)
    ensures Repeated(Reversed(c), n, Repeated(c, n, b, initial, final), initial, final) == b
  {
    var x := Moved(b, initial);
    var p := Cycles(c, n, Halved(x));
    MovedBack(p.l + p.r, final, initial);
    HalvedJoined(p.l, p.r);
    CyclesBack(c, Reversed(c), n, Halved(x));
    assert x[..32] + x[32..] == x;
    MovedBack(b, initial, final);
  }

  class DesContext {
    const keysl: array<Half>
    const keysr: array<Half>
    var saltbits: Half
    const ip: Masks
    const fp: Masks
    const boxes: Boxes

    ghost predicate Valid()
      reads this, keysl, keysr, ip, ip.l, ip.r, fp, fp.l, fp.r, boxes, boxes.msbox, boxes.psbox
    {
      && keysl.Length == ROUND_COUNT && keysr.Length == ROUND_COUNT && ip.Valid() && fp.Valid() && boxes.Valid()
      && Inverse(ip.from, fp.from) && keysl != keysr
    }

    ghost function Now(): Setting
      requires Valid()
      reads this, keysl, keysr, ip, ip.l, ip.r, fp, fp.l, fp.r, boxes, boxes.msbox, boxes.psbox
    {
      Setting(seq(ROUND_COUNT, i requires 0 <= i < ROUND_COUNT reads keysl, keysr => Round(keysl[i], keysr[i])), saltbits, boxes.s, boxes.from)
    }

    constructor (ip: Masks, fp: Masks, boxes: Boxes)
      requires ip.Valid() && fp.Valid() && boxes.Valid() && Inverse(ip.from, fp.from)
      ensures Valid() && this.ip == ip && this.fp == fp && this.boxes == boxes && fresh(keysl) && fresh(keysr)
    {
      keysl := new Half[ROUND_COUNT](_ => ZERO);
      keysr := new Half[ROUND_COUNT](_ => ZERO);
      saltbits, this.ip, this.fp, this.boxes := ZERO, ip, fp, boxes;
    }

    method TakeRound(i: nat, l: Word, r: Word) returns (l': Word, r': Word)
      requires Valid() && i < ROUND_COUNT
      ensures Pair(l', r') == OneRound(Now(), i, Pair(l, r))
    {
      var el, er := Expand(r);
      var xl, xr := AddSaltAndKey(el, er, saltbits, keysl[i], keysr[i], Expanded(r));
      var f := boxes.Lookup(xl, xr, Salted(Expanded(r), saltbits, keysl[i], keysr[i]));
      f := Xor(f, l);
      l', r' := r, f;
    }

    method TakeRounds(l0: Word, r0: Word) returns (l: Word, r: Word)
      requires Valid()
      ensures Pair(l, r) == Cycle(Now(), Pair(l0, r0))
    {
      ghost var c := Now();
      l, r := l0, r0;
      var i := 0;
      while i < ROUND_COUNT
        invariant 0 <= i <= ROUND_COUNT && Pair(l, r) == Rounds(c, i, Pair(l0, r0))
      {
        ghost var q := Pair(l, r);
        l, r := TakeRound(i, l, r);
        RoundsStep(c, i, Pair(l0, r0), q, Pair(l, r));
        i := i + 1;
      }
      RoundsEnd(c, i, Pair(l0, r0), Pair(l, r));
      l, r := r, l;
    }

    method TakeCycles(l0: Word, r0: Word, count: int) returns (l: Word, r: Word)
      requires Valid()
      ensures Pair(l, r) == Cycles(Now(), if count < 0 then 0 else count, Pair(l0, r0))
    {
      ghost var (c, p) := (Now(), Pair(l0, r0));
      l, r := l0, r0;
      var ii := 0;
      while ii < count
        invariant 0 <= ii && (ii <= count || ii == 0) && Pair(l, r) == Cycles(c, ii, p)
      {
        ghost var q := Pair(l, r);
        l, r := TakeRounds(l, r);
        CyclesStep(c, ii, p, q, Pair(l, r));
        ii := ii + 1;
      }
    }

    method DoDes(lin: Word, rin: Word, count: int) returns (lout: Word, rout: Word)
      requires Valid()
      ensures lout + rout == Repeated(Now(), if count < 0 then 0 else count, lin + rin, ip.from, fp.from)
    {
      var l0, r0 := ip.Permute(lin, rin);
      RepeatedIs(Now(), if count < 0 then 0 else count, lin + rin, ip.from, fp.from, l0, r0);
      var l, r := TakeCycles(l0, r0, count);
      lout, rout := fp.Permute(l, r);
    }

    // The round keys that des_setkey leaves behind.
    method SetKeys(keys: Schedule)
      requires Valid()
      modifies keysl, keysr
      ensures Valid() && Now().rounds == keys
    {
      forall i | 0 <= i < ROUND_COUNT {
        keysl[i] := keys[i].kl;
      }
      forall i | 0 <= i < ROUND_COUNT {
        keysr[i] := keys[i].kr;
      }
    }

    // Bit i of the salt, from the low end, is bit i of the saltbits, from the high end.
    method SetupSalt(salt: nat)
      requires salt < Size(24)
      modifies this`saltbits
      ensures forall p: nat | 8 <= p < 32 :: saltbits[p] == BitOf(salt, 31 - p, 24)
    {
      var bits: Half := ZERO;
      for i := 0 to 24
        invariant forall p: nat | 8 <= p < 32 :: bits[p] == (p < 8 + i && BitOf(salt, 31 - p, 24))
      {
        if BitOf(salt, 23 - i, 24) {
          bits := Or(bits, Unit(8 + i));
        }
      }
      saltbits := bits;
    }
  }
}
