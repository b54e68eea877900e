// The causal predictor of the X-Face codec: every pixel is XORed with a guess
// made from pixels that come before it in row order.
module XFacePredictor {
  import opened Common
  import opened XFaceTables

  const WIDTH := 48
  const PIXELS := 2304

  predicate IsBitmap(s: seq<Byte>) {
    |s| == PIXELS && forall h | 0 <= h < PIXELS :: s[h] <= 1
  }

  // A 48x48 picture of 0 (white) and 1 (black) pixels.
  type Bitmap = s: seq<Byte> | IsBitmap(s) witness seq(PIXELS, _ => 0)

  // The neighbour in column l and row m takes part in the context of the pixel in
  // column i and row j. Column 48 stands for column 0 of the next row.
  predicate Seen(i: int, j: int, l: int, m: int) {
    0 < l <= WIDTH && 0 < m && !(l >= i && m == j)
  }

  // The columns of the window, and where it ends.
  const COLUMNS: nat := 5
  const NO_ROWS: nat := 0

  // The context of pixel (i, j) after c columns and d more rows of its 5 x 3 window.
  ghost function Context(s: Bitmap, i: nat, j: nat, c: nat, d: nat): nat
    requires i < WIDTH && j < WIDTH && c <= 5 && d <= 3 && (c == 5 ==> d == 0)
    decreases c, d
  {
    if d > 0 then
      var (l, m) := (i - 2 + c, j - 3 + d);
      var k := Context(s, i, j, c, d - 1);
      if Seen(i, j, l, m) then 2 * k + s[l + m * WIDTH] else k
    else if c > 0 then Context(s, i, j, c - 1, 3)
    else 0
  }

  function Table(t: GuessTables, i: nat, j: nat): seq<Byte> {
    if i == 1 then
      if j == 1 then t.g22 else if j == 2 then t.g21 else t.g20
    else if i == 2 then
      if j == 1 then t.g12 else if j == 2 then t.g11 else t.g10
    else if i == WIDTH - 1 then
      if j == 1 then t.g42 else if j == 2 then t.g41 else t.g40
    else
      if j == 1 then t.g02 else if j == 2 then t.g01 else t.g00
  }

  function Pow2(n: nat): (p: nat)
    ensures p >= 1
  {
    if n == 0 then 1 else 2 * Pow2(n - 1)
  }

  function TableBit(table: seq<Byte>, k: nat): Byte
    requires k / 8 < |table|
  {
    table[k / 8] / Pow2(7 - k % 8) % 2
  }

  ghost function SeenCount(i: nat, j: nat, c: nat, d: nat): nat
    decreases c, d
  {
    if d > 0 then SeenCount(i, j, c, d - 1) + if Seen(i, j, i - 2 + c, j - 3 + d) then 1 else 0
    else if c > 0 then SeenCount(i, j, c - 1, 3)
    else 0
  }

  lemma {:induction false} ContextBound(s: Bitmap, i: nat, j: nat, c: nat, d: nat)
    requires i < WIDTH && j < WIDTH && c <= 5 && d <= 3 && (c == 5 ==> d == 0)
    ensures Context(s, i, j, c, d) < Pow2(SeenCount(i, j, c, d))
    decreases c, d
  {
    if d > 0 {
      ContextBound(s, i, j, c, d - 1);
    } else if c > 0 {
      ContextBound(s, i, j, c - 1, 3);
    }
  }

  lemma SeenColumn(i: nat, j: nat, c: nat)
    ensures SeenCount(i, j, c + 1, 0) == SeenCount(i, j, c, 0)
      + (if Seen(i, j, i - 2 + c, j - 2) then 1 else 0)
      + (if Seen(i, j, i - 2 + c, j - 1) then 1 else 0)
      + (if Seen(i, j, i - 2 + c, j) then 1 else 0)
  {
    var n := SeenCount(i, j, c, 2);
    var m := SeenCount(i, j, c, 1);
  }

  // The number of context bits of a pixel near, and away from, the edges.
  function ContextBits(i: nat, j: nat): nat {
    if i == 1 then (if j == 1 then 0 else if j == 2 then 3 else 6)
    else if i == 2 then (if j == 1 then 1 else if j == 2 then 5 else 9)
    else if i == WIDTH - 1 then (if j == 1 then 2 else if j == 2 then 6 else 10)
    else if j == 1 then 2 else if j == 2 then 7 else 12
  }

  lemma SeenTotal(i: nat, j: nat)
    requires i < WIDTH && j < WIDTH
    ensures SeenCount(i, j, COLUMNS, NO_ROWS) <= ContextBits(i, j)
  {
    SeenColumn(i, j, 0);
    SeenColumn(i, j, 1);
    SeenColumn(i, j, 2);
    SeenColumn(i, j, 3);
    SeenColumn(i, j, 4);
  }

  lemma Pow2Monotonic(a: nat, b: nat)
    requires a <= b
    ensures Pow2(a) <= Pow2(b)
  {
  }

  // Every context indexes inside the table chosen for the pixel.
  lemma TableIndexInRange(t: GuessTables, s: Bitmap, i: nat, j: nat)
    requires i < WIDTH && j < WIDTH
    ensures Context(s, i, j, COLUMNS, NO_ROWS) < 8 * |Table(t, i, j)|
  {
    ContextBound(s, i, j, COLUMNS, NO_ROWS);
    SeenTotal(i, j);
    Pow2Monotonic(SeenCount(i, j, COLUMNS, NO_ROWS), ContextBits(i, j));
    assert Pow2(5) == 32 && Pow2(6) == 64 && Pow2(7) == 128;
    assert Pow2(9) == 512 && Pow2(10) == 1024 && Pow2(12) == 4096;
  }

  // The guess for pixel h.
  ghost function Guess(t: GuessTables, s: Bitmap, h: nat): (g: Byte)
    requires h < PIXELS
    ensures g <= 1
  {
    var (i, j) := (h % WIDTH, h / WIDTH);
    TableIndexInRange(t, s, i, j);
    TableBit(Table(t, i, j), Context(s, i, j, COLUMNS, NO_ROWS))
  }

  // a ^ g for a single bit g.
  function XorBit(a: Byte, g: Byte): (r: Byte)
    requires g <= 1
    ensures a <= 1 ==> r <= 1
  {
    if g == 0 then a else if a % 2 == 0 then a + 1 else a - 1
  }

  lemma {:induction false} ContextCausal(s: Bitmap, s': Bitmap, i: nat, j: nat, c: nat, d: nat)
    requires i < WIDTH && j < WIDTH && c <= 5 && d <= 3 && (c == 5 ==> d == 0)
    requires s[..i + j * WIDTH] == s'[..i + j * WIDTH]
    ensures Context(s, i, j, c, d) == Context(s', i, j, c, d)
    decreases c, d
  {
    if d > 0 {
      ContextCausal(s, s', i, j, c, d - 1);
      var (l, m) := (i - 2 + c, j - 3 + d);
      if Seen(i, j, l, m) {
        var n := l + m * WIDTH;
        assert s[n] == s[..i + j * WIDTH][n];
        assert s'[n] == s'[..i + j * WIDTH][n];
      }
    } else if c > 0 {
      ContextCausal(s, s', i, j, c - 1, 3);
    }
  }

  // The guess for pixel h depends on earlier pixels only, also where the context
  // runs over the right edge.
  lemma GuessCausal(t: GuessTables, s: Bitmap, s': Bitmap, h: nat)
    requires h < PIXELS && s[..h] == s'[..h]
    ensures Guess(t, s, h) == Guess(t, s', h)
  {
    ContextCausal(s, s', h % WIDTH, h / WIDTH, COLUMNS, NO_ROWS);
  }

  // residual is original with every pixel XORed by the guess from the original.
  ghost predicate Predicts(t: GuessTables, original: Bitmap, residual: Bitmap) {
    forall h | 0 <= h < PIXELS :: residual[h] == XorBit(original[h], Guess(t, original, h))
  }

  // The two inner loops of the filter.
  method PixelContext(src: array<Byte>, i: nat, j: nat) returns (k: nat)
    requires IsBitmap(src[..]) && i < WIDTH && j < WIDTH
    ensures k == Context(src[..], i, j, COLUMNS, NO_ROWS)
  {
    k := 0;
    for l: int := i - 2 to i + 3
      invariant k == Context(src[..], i, j, l - i + 2, 0)
    {
      for m: int := j - 2 to j + 1
        invariant k == Context(src[..], i, j, l - i + 2, m - j + 2)
      {
        if l <= 0 || (l >= i && m == j) {
          continue;
        }
        if l <= WIDTH && m > 0 {
          k := 2 * k + src[l + m * WIDTH];
        }
      }
    }
  }

  // The body of the filter's outer loops.
  method FilterPixel(t: GuessTables, dst: array<Byte>, src: array<Byte>, i: nat, j: nat)
    requires dst.Length == src.Length == PIXELS && i < WIDTH && j < WIDTH
    requires IsBitmap(src[..])
    modifies dst
    ensures var h := i + j * WIDTH;
      dst[..] == old(dst[..])[h := XorBit(old(dst[h]), Guess(t, old(src[..]), h))]
  {
    var h := i + j * WIDTH;
    var k := PixelContext(src, i, j);
    var table := Table(t, i, j);
    TableIndexInRange(t, src[..], i, j);
    assert h % WIDTH == i && h / WIDTH == j;
    dst[h] := XorBit(dst[h], TableBit(table, k));
  }

  // A filtered prefix stays filtered when pixels after it change.
  lemma FilteredStable(t: GuessTables, s: Bitmap, s': Bitmap, n: nat)
    requires n < PIXELS && s[..n] == s'[..n]
    ensures forall p | 0 <= p <= n :: Guess(t, s, p) == Guess(t, s', p)
  {
    forall p | 0 <= p <= n ensures Guess(t, s, p) == Guess(t, s', p) {
      assert s[..p] == s[..n][..p] && s'[..p] == s'[..n][..p];
      GuessCausal(t, s, s', p);
    }
  }

  // Filters dst with the guesses made from src. The arrays may be the same one: each
  // guess then sees pixels that are already filtered.
  method GenerateFace(t: GuessTables, dst: array<Byte>, src: array<Byte>)
    requires dst.Length == src.Length == PIXELS
    requires IsBitmap(dst[..]) && IsBitmap(src[..])
    modifies dst
    ensures IsBitmap(dst[..]) && IsBitmap(src[..])
    ensures forall h | 0 <= h < PIXELS :: dst[h] == XorBit(old(dst[h]), Guess(t, src[..], h))
  {
    for j := 0 to WIDTH
      invariant IsBitmap(dst[..]) && IsBitmap(src[..])
      invariant forall p | 0 <= p < j * WIDTH :: dst[p] == XorBit(old(dst[p]), Guess(t, src[..], p))
      invariant forall p | j * WIDTH <= p < PIXELS :: dst[p] == old(dst[p])
    {
      for i := 0 to WIDTH
        invariant IsBitmap(dst[..]) && IsBitmap(src[..])
        invariant forall p | 0 <= p < i + j * WIDTH :: dst[p] == XorBit(old(dst[p]), Guess(t, src[..], p))
        invariant forall p | i + j * WIDTH <= p < PIXELS :: dst[p] == old(dst[p])
      {
        ghost var (d, s) := (dst[..], src[..]);
        FilterPixel(t, dst, src, i, j);
        assert forall p | 0 <= p < PIXELS :: dst[p] == dst[..][p];
        assert src == dst || src[..] == s;
        FilteredStable(t, s, src[..], i + j * WIDTH);
      }
    }
  }

  lemma XorTwice(a: Byte, b: Byte, c: Byte, g: Byte)
    requires a <= 1 && g <= 1 && b == XorBit(a, g) && c == XorBit(b, g)
    ensures c == a
  {
  }

  // An XOR filter is undone in place when equal prefixes give equal guesses.
  lemma {:induction false} CausalFilterUndone(
    original: seq<Byte>, residual: seq<Byte>, restored: seq<Byte>, g: seq<Byte>, g': seq<Byte>, n: nat)
    requires n <= |original| == |residual| == |restored| == |g| == |g'|
    requires forall h | 0 <= h < |g| :: original[h] <= 1 && g[h] <= 1 && g'[h] <= 1
    requires forall h | 0 <= h < |g| :: residual[h] == XorBit(original[h], g[h])
    requires forall h | 0 <= h < |g| :: restored[h] == XorBit(residual[h], g'[h])
    requires forall h | 0 <= h < |g| :: original[..h] == restored[..h] ==> g[h] == g'[h]
    ensures restored[..n] == original[..n]
  {
    if n > 0 {
      CausalFilterUndone(original, residual, restored, g, g', n - 1);
      XorTwice(original[n - 1], residual[n - 1], restored[n - 1], g[n - 1]);
      assert restored[..n] == restored[..n - 1] + [restored[n - 1]];
      assert original[..n] == original[..n - 1] + [original[n - 1]];
    }
  }

  ghost function Guesses(t: GuessTables, s: Bitmap): seq<Byte>
  {
    seq(PIXELS, h requires 0 <= h < PIXELS => Guess(t, s, h))
  }

  // Filtering the residual in place gives the original back.
  lemma UnpredictRestores(t: GuessTables, original: Bitmap, residual: Bitmap, restored: Bitmap)
    requires Predicts(t, original, residual)
    requires forall h | 0 <= h < PIXELS :: restored[h] == XorBit(residual[h], Guess(t, restored, h))
    ensures restored == original
  {
    var (g, g') := (Guesses(t, original), Guesses(t, restored));
    forall h | 0 <= h < PIXELS && original[..h] == restored[..h] ensures g[h] == g'[h] {
      GuessCausal(t, original, restored, h);
    }
    CausalFilterUndone(original, residual, restored, g, g', PIXELS);
    assert restored[..PIXELS] == restored && original[..PIXELS] == original;
  }
}
