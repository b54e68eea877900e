// What the predictor and the quadtree of the X-Face codec read, place by place: the
// round trip alone would hold of any causal guess and of any way to cut the face.
module XFaceContext {
  import opened Common
  import opened ModArith
  import opened XFaceBlocks
  import opened XFaceCoder
  import opened XFacePredictor
  import opened XFaceTables

  // n more bits follow k in whole.
  ghost predicate Front(k: nat, n: int, whole: nat) {
    n >= 0 && exists low | 0 <= low < Pow2(n) :: Continued(k, n, whole, low)
  }

  ghost predicate Continued(k: nat, n: nat, whole: nat, low: nat) {
    whole == k * Pow2(n) + low
  }

  lemma FrontSelf(k: nat)
    ensures Front(k, 0, k)
  {
    assert Continued(k, 0, k, 0);
  }

  lemma FrontBit(k: nat, n: int, whole: nat, bit: nat)
    requires bit <= 1 && Front(k, n, whole)
    ensures Front(k, n + 1, 2 * whole + bit)
  {
    var low :| 0 <= low < Pow2(n) && Continued(k, n, whole, low);
    assert 2 * (k * Pow2(n)) == k * Pow2(n + 1);
    assert Continued(k, n + 1, 2 * whole + bit, 2 * low + bit);
  }

  lemma FrontQuotient(k: nat, n: int, whole: nat)
    requires Front(k, n, whole)
    ensures n >= 0 && whole / Pow2(n) == k
  {
    var low :| 0 <= low < Pow2(n) && Continued(k, n, whole, low);
    DivModUnique(k, low, Pow2(n));
  }

  // The numbers of a chain grow by whole bits.
  ghost predicate Grows(ks: seq<nat>, ns: seq<int>) {
    |ks| == |ns| && forall r | 0 <= r < |ks| - 1 :: GrowsAt(ks, ns, r)
  }

  ghost predicate GrowsAt(ks: seq<nat>, ns: seq<int>, r: nat)
    requires |ks| == |ns| && r + 1 < |ks|
  {
    || (ns[r + 1] == ns[r] && ks[r + 1] == ks[r])
    || (ns[r + 1] == ns[r] + 1 && 2 * ks[r] <= ks[r + 1] <= 2 * ks[r] + 1)
  }

  lemma {:induction false} GrowsFront(ks: seq<nat>, ns: seq<int>, p: nat, q: nat)
    requires Grows(ks, ns) && p <= q < |ks|
    ensures Front(ks[p], ns[q] - ns[p], ks[q])
  {
    if p == q {
      FrontSelf(ks[p]);
    } else {
      GrowsFront(ks, ns, p, q - 1);
      assert GrowsAt(ks, ns, q - 1);
      if ns[q] != ns[q - 1] {
        FrontBit(ks[p], ns[q - 1] - ns[p], ks[q - 1], ks[q] - 2 * ks[q - 1]);
      }
    }
  }

  // The context and the number of its bits after the first p places of the window.
  ghost function ContextAt(s: Bitmap, i: nat, j: nat, p: nat): nat
    requires i < WIDTH && j < WIDTH && p <= 15
  {
    Context(s, i, j, p / 3, p % 3)
  }

  ghost function SeenAt(i: nat, j: nat, p: nat): nat {
    SeenCount(i, j, p / 3, p % 3)
  }

  lemma NextColumn(s: Bitmap, i: nat, j: nat, c: nat)
    requires i < WIDTH && j < WIDTH && c < 5
    ensures Context(s, i, j, c + 1, 0) == Context(s, i, j, c, 3)
    ensures SeenCount(i, j, c + 1, 0) == SeenCount(i, j, c, 3)
  {
  }

  lemma OneSeen(s: Bitmap, i: nat, j: nat, c: nat, d: nat)
    requires i < WIDTH && j < WIDTH && c < 5 && d < 3
    ensures var (l, m) := (i - 2 + c, j - 2 + d);
      Context(s, i, j, c, d + 1) == if Seen(i, j, l, m) then 2 * Context(s, i, j, c, d) + Pixel48(s, l, m) else Context(s, i, j, c, d)
    ensures SeenCount(i, j, c, d + 1) == SeenCount(i, j, c, d) + if Seen(i, j, i - 2 + c, j - 2 + d) then 1 else 0
  {
  }

  lemma Place(s: Bitmap, i: nat, j: nat, c: nat, d: nat, p: nat)
    requires i < WIDTH && j < WIDTH && c <= 5 && d < 3 && (c == 5 ==> d == 0) && p == 3 * c + d
    ensures ContextAt(s, i, j, p) == Context(s, i, j, c, d)
    ensures SeenAt(i, j, p) == SeenCount(i, j, c, d)
  {
    assert p / 3 == c && p % 3 == d;
  }

  lemma NextPlace(s: Bitmap, i: nat, j: nat, c: nat, d: nat, p: nat)
    requires i < WIDTH && j < WIDTH && c < 5 && d < 3 && p == 3 * c + d
    ensures ContextAt(s, i, j, p + 1) == Context(s, i, j, c, d + 1)
    ensures SeenAt(i, j, p + 1) == SeenCount(i, j, c, d + 1)
  {
    if d == 2 {
      Place(s, i, j, c + 1, 0, p + 1);
      NextColumn(s, i, j, c);
    } else {
      Place(s, i, j, c, d + 1, p + 1);
    }
  }

  lemma OnePlace(s: Bitmap, i: nat, j: nat, p: nat)
    requires i < WIDTH && j < WIDTH && p < 15
    ensures var (l, m) := (i - 2 + p / 3, j - 2 + p % 3);
      ContextAt(s, i, j, p + 1) == if Seen(i, j, l, m) then 2 * ContextAt(s, i, j, p) + Pixel48(s, l, m) else ContextAt(s, i, j, p)
    ensures SeenAt(i, j, p + 1) == SeenAt(i, j, p) + if Seen(i, j, i - 2 + p / 3, j - 2 + p % 3) then 1 else 0
  {
    OneSeen(s, i, j, p / 3, p % 3);
    NextPlace(s, i, j, p / 3, p % 3, p);
  }

  // The context after p places is the front of the one after q.
  lemma ContextFront(s: Bitmap, i: nat, j: nat, p: nat, q: nat)
    requires i < WIDTH && j < WIDTH && p <= q <= 15
    ensures Front(ContextAt(s, i, j, p), SeenAt(i, j, q) - SeenAt(i, j, p), ContextAt(s, i, j, q))
  {
    var ks: seq<nat> := seq(16, r requires 0 <= r < 16 => ContextAt(s, i, j, r));
    var ns: seq<int> := seq(16, r requires 0 <= r < 16 => SeenAt(i, j, r));
    forall r | 0 <= r < 15 ensures GrowsAt(ks, ns, r) {
      OnePlace(s, i, j, r);
    }
    GrowsFront(ks, ns, p, q);
  }

  lemma BitInFront(k: nat, bit: nat, n: int, whole: nat)
    requires bit <= 1 && Front(2 * k + bit, n, whole)
    ensures n >= 0 && whole / Pow2(n) % 2 == bit
  {
    FrontQuotient(2 * k + bit, n, whole);
  }

  // Bit by bit: the context of a pixel is made of the places of its window that are
  // seen, column by column and downwards, the first one in the highest bit.
  lemma ContextBit(s: Bitmap, i: nat, j: nat, p: nat)
    requires i < WIDTH && j < WIDTH && p < 15
    requires Seen(i, j, i - 2 + p / 3, j - 2 + p % 3)
    ensures var n := SeenAt(i, j, 15) - SeenAt(i, j, p + 1);
      n >= 0 && ContextAt(s, i, j, 15) / Pow2(n) % 2 == Pixel48(s, i - 2 + p / 3, j - 2 + p % 3)
  {
    OnePlace(s, i, j, p);
    ContextFront(s, i, j, p + 1, 15);
    BitInFront(ContextAt(s, i, j, p), Pixel48(s, i - 2 + p / 3, j - 2 + p % 3),
               SeenAt(i, j, 15) - SeenAt(i, j, p + 1), ContextAt(s, i, j, 15));
  }

  // Column 48 is column 0 of the next row.
  function Pixel48(s: Bitmap, l: int, m: int): Byte
    requires 0 < l <= WIDTH && 0 < m < WIDTH && (m == WIDTH - 1 ==> l < WIDTH)
  {
    if l == WIDTH then Pixel(s, 0, m + 1) else Pixel(s, l, m)
  }

  // Away from the left and upper edge a table has exactly one bit for every context,
  // and at least a byte.
  lemma TableFits(t: GuessTables, i: nat, j: nat)
    requires 0 < i < WIDTH && 0 < j < WIDTH
    ensures 8 * |Table(t, i, j)| == Max(8, Pow2(SeenCount(i, j, COLUMNS, NO_ROWS)))
  {
    SeenColumn(i, j, 0);
    SeenColumn(i, j, 1);
    SeenColumn(i, j, 2);
    SeenColumn(i, j, 3);
    SeenColumn(i, j, 4);
    assert SeenCount(i, j, COLUMNS, NO_ROWS) == ContextBits(i, j);
    assert Pow2(5) == 32 && Pow2(6) == 64 && Pow2(7) == 128;
    assert Pow2(9) == 512 && Pow2(10) == 1024 && Pow2(12) == 4096;
  }

  function Max(a: nat, b: nat): nat {
    if a < b then b else a
  }

  // A byte of a table answers eight contexts, its highest bit the first of them.
  lemma TableDigit(table: seq<Byte>, n: nat, i: nat)
    requires n < |table| && i < 8
    ensures TableBit(table, 8 * n + i) == Digit(table[n], 7 - i)
  {
    PowersAre(7 - i);
  }

  function Digit(x: Byte, i: nat): nat
    requires i < 8
  {
    x / PowerOf(i) % 2
  }

  function PowerOf(i: nat): (p: nat)
    requires i < 8
    ensures p > 0
  {
    [1, 2, 4, 8, 16, 32, 64, 128][i]
  }

  lemma PowersAre(i: nat)
    requires i < 8
    ensures Pow2(i) == PowerOf(i)
  {
    assert Pow2(1) == 2 && Pow2(2) == 4 && Pow2(3) == 8;
    assert Pow2(4) == 16 && Pow2(5) == 32 && Pow2(6) == 64 && Pow2(7) == 128;
  }

  // ------------------------------------------------------------------ the quadtree

  // The quarters in order: upper left, upper right, lower left, lower right.
  lemma QuarterHas(b: Block, i: nat, c: int, r: int)
    requires b.level < 3 && i < 4
    ensures Quarter(b, i).Has(c, r) <==>
      && b.Has(c, r)
      && i == (if c < b.x + b.Side() / 2 then 0 else 1) + if r < b.y + b.Side() / 2 then 0 else 2
  {
  }

  // The 2x2 cell in column i and row j of a block.
  function Cell(b: Block, i: nat, j: nat): Block
    requires 2 * i < b.Side() && 2 * j < b.Side()
  {
    Area(3, b.x + 2 * i, b.y + 2 * j)
  }

  ghost predicate EveryCellInked(s: Bitmap, b: Block) {
    forall i, j | 0 <= 2 * i < b.Side() && 0 <= 2 * j < b.Side() :: !White(s, Cell(b, i, j))
  }

  lemma CellOfQuarter(b: Block, u: nat, k: nat, i: nat, j: nat)
    requires b.level < 3 && b.Side() == 4 * u && k < 4 && i < u && j < u
    ensures Cell(Quarter(b, k), i, j) == Cell(b, if k % 2 == 0 then i else i + u, if k < 2 then j else j + u)
  {
    if k == 0 {
    } else if k == 1 {
    } else if k == 2 {
    } else {
    }
  }

  lemma SideByFour(b: Block) returns (u: nat)
    requires b.level < 3
    ensures b.Side() == 4 * u
  {
    u := if b.level == 0 then 4 else if b.level == 1 then 2 else 1;
  }

  lemma InkedByQuarters(s: Bitmap, b: Block)
    requires b.level < 3
    ensures EveryCellInked(s, b) <==>
      && EveryCellInked(s, Quarter(b, 0)) && EveryCellInked(s, Quarter(b, 1))
      && EveryCellInked(s, Quarter(b, 2)) && EveryCellInked(s, Quarter(b, 3))
  {
    var u := SideByFour(b);
    if EveryCellInked(s, b) {
      forall k, i, j | 0 <= k < 4 && 0 <= i < u && 0 <= j < u ensures !White(s, Cell(Quarter(b, k), i, j)) {
        CellOfQuarter(b, u, k, i, j);
      }
    }
    if forall k | 0 <= k < 4 :: EveryCellInked(s, Quarter(b, k)) {
      forall i, j | 0 <= i < 2 * u && 0 <= j < 2 * u ensures !White(s, Cell(b, i, j)) {
        var k := (if i < u then 0 else 1) + if j < u then 0 else 2;
        CellOfQuarter(b, u, k, if i < u then i else i - u, if j < u then j else j - u);
      }
    }
  }

  lemma OneCell(s: Bitmap, b: Block)
    requires b.level == 3
    ensures AllBlack(s, b) <==> EveryCellInked(s, b)
  {
    assert Cell(b, 0, 0) == b;
    var i := CellIndex(s, b);
  }

  // A block is taken for black exactly when each of its cells has ink.
  lemma {:induction false} BlackIsInkedCells(s: Bitmap, b: Block)
    ensures AllBlack(s, b) <==> EveryCellInked(s, b)
    decreases 4 - b.level
  {
    if b.level < 3 {
      BlackIsInkedCells(s, Quarter(b, 0));
      BlackIsInkedCells(s, Quarter(b, 1));
      BlackIsInkedCells(s, Quarter(b, 2));
      BlackIsInkedCells(s, Quarter(b, 3));
      InkedByQuarters(s, b);
    } else {
      OneCell(s, b);
    }
  }

  function Cells(level: nat): nat
    requires level < 4
  {
    if level == 0 then 64 else if level == 1 then 16 else if level == 2 then 4 else 1
  }

  lemma {:induction false} GreysCount(s: Bitmap, b: Block)
    requires AllBlack(s, b)
    ensures |PushGreys(s, b)| == Cells(b.level)
    decreases 4 - b.level
  {
    if b.level < 3 {
      GreysCount(s, Quarter(b, 0));
      GreysCount(s, Quarter(b, 1));
      GreysCount(s, Quarter(b, 2));
      GreysCount(s, Quarter(b, 3));
    }
  }

  // One symbol for a white block, one more than it has cells for a block with ink in
  // every cell; any other block takes one symbol and those of its quarters.
  lemma SymbolCount(s: Bitmap, b: Block)
    requires EncodeBlock(s, b).Some?
    ensures var pq := EncodeBlock(s, b).value;
      |pq| == if White(s, b) then 1 else if EveryCellInked(s, b) then 1 + Cells(b.level)
              else if EncodeQuarters(s, b).Some? then 1 + |EncodeQuarters(s, b).value| else 0
    decreases 4 - b.level
  {
    BlackIsInkedCells(s, b);
    if AllBlack(s, b) {
      GreysCount(s, b);
    }
  }

  lemma FourParts(a: seq<Symbol>, b: seq<Symbol>, c: seq<Symbol>, d: seq<Symbol>, n: nat, i: nat, j: nat)
    requires |a| == n && |b| == n && |c| == n && |d| == n && i < 4 && j < n
    ensures 0 <= n * i + j < |a + b + c + d|
    ensures (a + b + c + d)[n * i + j] == if i == 0 then a[j] else if i == 1 then b[j] else if i == 2 then c[j] else d[j]
  {
    if i == 0 {
    } else if i == 1 {
    } else if i == 2 {
    } else {
    }
  }

  // The symbols of a block with ink in every cell are those of its quarters, in their order.
  lemma GreysInOrder(s: Bitmap, b: Block, n: nat, i: nat, j: nat)
    requires b.level < 3 && AllBlack(s, b) && 4 * n == Cells(b.level) && i < 4 && j < n
    ensures AllBlack(s, Quarter(b, i)) && j < |PushGreys(s, Quarter(b, i))|
    ensures 0 <= n * i + j < |PushGreys(s, b)| && PushGreys(s, b)[n * i + j] == PushGreys(s, Quarter(b, i))[j]
  {
    GreysCount(s, Quarter(b, 0));
    GreysCount(s, Quarter(b, 1));
    GreysCount(s, Quarter(b, 2));
    GreysCount(s, Quarter(b, 3));
    FourParts(PushGreys(s, Quarter(b, 0)), PushGreys(s, Quarter(b, 1)),
              PushGreys(s, Quarter(b, 2)), PushGreys(s, Quarter(b, 3)), n, i, j);
  }

  ghost predicate OneByOne(all: seq<Symbol>, a: seq<Symbol>, b: seq<Symbol>, c: seq<Symbol>, d: seq<Symbol>) {
    && |all| == |a| + |b| + |c| + |d|
    && all[..|a|] == a && all[|a|..][..|b|] == b && all[|a| + |b|..][..|c|] == c && all[|a| + |b| + |c|..] == d
  }

  lemma Appended(a: seq<Symbol>, b: seq<Symbol>, c: seq<Symbol>, d: seq<Symbol>)
    ensures OneByOne(a + b + c + d, a, b, c, d)
  {
    var all := a + b + c + d;
    assert all == a + (b + c + d) && all == a + b + (c + d) && all == (a + b + c) + d;
    assert b + c + d == b + (c + d);
  }

  // Those of a block with both white and inked cells follow one another in the same order.
  lemma QuartersInOrder(s: Bitmap, b: Block)
    requires b.level < 3 && EncodeQuarters(s, b).Some?
    ensures forall i: nat | i < 4 :: EncodeBlock(s, Quarter(b, i)).Some?
    ensures OneByOne(EncodeQuarters(s, b).value,
                     EncodeBlock(s, Quarter(b, 0)).value, EncodeBlock(s, Quarter(b, 1)).value,
                     EncodeBlock(s, Quarter(b, 2)).value, EncodeBlock(s, Quarter(b, 3)).value)
  {
    Appended(EncodeBlock(s, Quarter(b, 0)).value, EncodeBlock(s, Quarter(b, 1)).value,
             EncodeBlock(s, Quarter(b, 2)).value, EncodeBlock(s, Quarter(b, 3)).value);
  }
}
