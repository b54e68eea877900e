// The quadtree of the X-Face codec: nine 16x16 blocks, each split down to 2x2 cells.
module XFaceBlocks {
  import opened Common
  import opened XFaceCoder
  import opened XFacePredictor

  // A Go slice that starts inside the bitmap is modelled by the column and the row of
  // its first pixel. All blocks are square; their side follows from the level.
  datatype Area = Area(level: nat, x: nat, y: nat) {
    function Side(): nat {
      if level == 0 then 16 else if level == 1 then 8 else if level == 2 then 4 else 2
    }

    predicate Has(c: int, r: int) {
      x <= c < x + Side() && y <= r < y + Side()
    }
  }

  type Block = b: Area | b.level < 4 && b.x + b.Side() <= WIDTH && b.y + b.Side() <= WIDTH
    witness Area(0, 0, 0)

  // The four sub-slices the source recurses on: [:], [w:], [h*width:], [h*width+w:].
  function Quarter(b: Block, i: nat): (q: Block)
    requires b.level < 3 && i < 4
    ensures q.level == b.level + 1 && 2 * q.Side() == b.Side()
  {
    var u := b.Side() / 2;
    Area(b.level + 1, b.x + i % 2 * u, b.y + i / 2 * u)
  }

  // Block k of the face, counted row by row.
  function Corner(k: nat): (b: Block)
    requires k < 9
  {
    Area(0, 16 * (k % 3), 16 * (k / 3))
  }

  function Pixel(s: Bitmap, x: nat, y: nat): Byte
    requires x < WIDTH && y < WIDTH
  {
    s[x + y * WIDTH]
  }

  // ------------------------------------------------------------------ encoding

  predicate Uniform(s: Bitmap, b: Block, v: Byte) {
    forall c, r | b.x <= c < b.x + b.Side() && b.y <= r < b.y + b.Side() :: Pixel(s, c, r) == v
  }

  predicate White(s: Bitmap, b: Block) {
    Uniform(s, b, 0)
  }

  // After its last row the source slices once more by a row width. When fewer than
  // a row of pixels is left that stops the program: None.
  function AllSame(s: Bitmap, b: Block): Option<bool> {
    if !Uniform(s, b, Pixel(s, b.x, b.y)) then Some(false)
    else if b.x + (b.y + b.Side()) * WIDTH > PIXELS then None
    else Some(true)
  }

  function AllWhite(s: Bitmap, b: Block): Option<bool> {
    if Pixel(s, b.x, b.y) == 0 then AllSame(s, b) else Some(false)
  }

  method CheckAllSame(bitmap: array<Byte>, b: Block) returns (r: Option<bool>)
    requires IsBitmap(bitmap[..])
    ensures r == AllSame(bitmap[..], b)
  {
    ghost var s: Bitmap := bitmap[..];
    var w := b.Side();
    var off := b.x + b.y * WIDTH;
    var val := bitmap[off];
    var h := w;
    while h != 0
      invariant 0 <= h <= w
      invariant off == b.x + (b.y + (w - h)) * WIDTH && (h == 0 ==> off <= PIXELS)
      invariant val == Pixel(s, b.x, b.y)
      invariant forall c, r | b.x <= c < b.x + w && b.y <= r < b.y + (w - h) :: Pixel(s, c, r) == val
    {
      ghost var row := b.y + (w - h);
      h := h - 1;
      var i := 0;
      while i < w
        invariant 0 <= i <= w
        invariant forall c | b.x <= c < b.x + i :: Pixel(s, c, row) == val
      {
        assert Pixel(s, b.x + i, row) == bitmap[off + i];
        if bitmap[off + i] != val {
          return Some(false);
        }
        i := i + 1;
      }
      if off + WIDTH > PIXELS {
        return None;
      }
      off := off + WIDTH;
    }
    return Some(true);
  }

  function AllBlack(s: Bitmap, b: Block): bool
    decreases 4 - b.level
  {
    if b.level < 3 then
      && AllBlack(s, Quarter(b, 0))
      && AllBlack(s, Quarter(b, 1))
      && AllBlack(s, Quarter(b, 2))
      && AllBlack(s, Quarter(b, 3))
    else
      // at least one pixel of the 2x2 cell is set
      || Pixel(s, b.x, b.y) != 0
      || Pixel(s, b.x + 1, b.y) != 0
      || Pixel(s, b.x, b.y + 1) != 0
      || Pixel(s, b.x + 1, b.y + 1) != 0
  }

  function CellIndex(s: Bitmap, b: Block): (i: nat)
    requires b.level == 3
    ensures i < 16
    ensures i != 0 <==> AllBlack(s, b)
    ensures i == 0 <==> White(s, b)
  {
    Pixel(s, b.x, b.y) + 2 * Pixel(s, b.x + 1, b.y) + 4 * Pixel(s, b.x, b.y + 1) + 8 * Pixel(s, b.x + 1, b.y + 1)
  }

  function PushGreys(s: Bitmap, b: Block): seq<Symbol>
    requires AllBlack(s, b)
    decreases 4 - b.level
  {
    if b.level < 3 then
      PushGreys(s, Quarter(b, 0)) + PushGreys(s, Quarter(b, 1)) + PushGreys(s, Quarter(b, 2)) + PushGreys(s, Quarter(b, 3))
    else
      [CellSymbol(CellIndex(s, b))]
  }

  function LevelSymbol(level: nat, color: nat): Symbol
    requires level < 4 && color < 3 && !(level == 3 && color == GREY)
  {
    LEVELS[level][color]
  }

  // The symbols of one block, or None when the source stops. By the type of the
  // result no empty range is ever among them.
  function EncodeBlock(s: Bitmap, b: Block): Option<seq<Symbol>>
    decreases 4 - b.level, 1
  {
    var white :- AllWhite(s, b);
    if white then
      Some([LevelSymbol(b.level, WHITE)])
    else if AllBlack(s, b) then
      Some([LevelSymbol(b.level, BLACK)] + PushGreys(s, b))
    else
      CellIsWhiteOrBlack(s, b);
      var pq :- EncodeQuarters(s, b);
      Some([LevelSymbol(b.level, GREY)] + pq)
  }

  lemma CellIsWhiteOrBlack(s: Bitmap, b: Block)
    ensures b.level == 3 ==> White(s, b) || AllBlack(s, b)
  {
    if b.level == 3 {
      var i := CellIndex(s, b);
    }
  }

  function EncodeQuarters(s: Bitmap, b: Block): Option<seq<Symbol>>
    requires b.level < 3
    decreases 4 - b.level, 0
  {
    var q0 :- EncodeBlock(s, Quarter(b, 0));
    var q1 :- EncodeBlock(s, Quarter(b, 1));
    var q2 :- EncodeBlock(s, Quarter(b, 2));
    var q3 :- EncodeBlock(s, Quarter(b, 3));
    Some(q0 + q1 + q2 + q3)
  }

  function EncodeFrom(s: Bitmap, k: nat): Option<seq<Symbol>>
    requires k <= 9
    decreases 9 - k
  {
    if k == 9 then Some([])
    else
      var a :- EncodeBlock(s, Corner(k));
      var b :- EncodeFrom(s, k + 1);
      Some(a + b)
  }

  // ------------------------------------------------------------------ decoding

  function PaintCell(s: Bitmap, b: Block, i: nat): Bitmap
    requires b.level == 3
  {
    var at := b.x + b.y * WIDTH;
    var s1 := if i % 2 == 1 then s[at := 1] else s;
    var s2 := if i / 2 % 2 == 1 then s1[at + 1 := 1] else s1;
    var s3 := if i / 4 % 2 == 1 then s2[at + WIDTH := 1] else s2;
    if i / 8 % 2 == 1 then s3[at + WIDTH + 1 := 1] else s3
  }

  function PopGreys(v: nat, s: Bitmap, b: Block): (nat, Bitmap)
    decreases 4 - b.level
  {
    if b.level < 3 then
      var (v1, s1) := PopGreys(v, s, Quarter(b, 0));
      var (v2, s2) := PopGreys(v1, s1, Quarter(b, 1));
      var (v3, s3) := PopGreys(v2, s2, Quarter(b, 2));
      PopGreys(v3, s3, Quarter(b, 3))
    else
      GreysPartition();
      var (i, v1) := Pop(v, GREYS);
      (v1, PaintCell(s, b, i))
  }

  function DecodeBlock(v: nat, s: Bitmap, b: Block): (nat, Bitmap)
    decreases 4 - b.level, 1
  {
    LevelsPartition(b.level);
    var (i, w) := Pop(v, LEVELS[b.level]);
    if i == WHITE then (w, s)
    else if i == BLACK then PopGreys(w, s, b)
    else
      NoGreyAtBottom(v);
      DecodeQuarters(w, s, b)
  }

  function DecodeQuarters(v: nat, s: Bitmap, b: Block): (nat, Bitmap)
    requires b.level < 3
    decreases 4 - b.level, 0
  {
    var (v1, s1) := DecodeBlock(v, s, Quarter(b, 0));
    var (v2, s2) := DecodeBlock(v1, s1, Quarter(b, 1));
    var (v3, s3) := DecodeBlock(v2, s2, Quarter(b, 2));
    DecodeBlock(v3, s3, Quarter(b, 3))
  }

  function DecodeFrom(v: nat, s: Bitmap, k: nat): (nat, Bitmap)
    requires k <= 9
    decreases 9 - k
  {
    if k == 9 then (v, s)
    else
      var (v1, s1) := DecodeBlock(v, s, Corner(k));
      DecodeFrom(v1, s1, k + 1)
  }

  // ---------------------------------------------------------------- round trip

  lemma {:induction false} PushAllAppend(a: seq<Symbol>, b: seq<Symbol>, v: nat)
    ensures PushAll(a + b, v) == PushAll(a, PushAll(b, v))
  {
    if a == [] {
      assert a + b == b;
    } else {
      assert (a + b)[1..] == a[1..] + b;
      PushAllAppend(a[1..], b, v);
    }
  }

  // The four quarters are pushed so that they pop in order.
  lemma PushQuarters(a: seq<Symbol>, b: seq<Symbol>, c: seq<Symbol>, d: seq<Symbol>, v: nat)
    ensures PushAll(a + b + c + d, v) == PushAll(a, PushAll(b, PushAll(c, PushAll(d, v))))
  {
    var w := PushAll(d, v);
    PushAllAppend(a + b + c, d, v);
    PushAllAppend(a + b, c, w);
    PushAllAppend(a, b, PushAll(c, w));
  }

  lemma PushCons(p: Symbol, pq: seq<Symbol>, v: nat)
    ensures PushAll([p] + pq, v) == Push(PushAll(pq, v), p)
  {
    assert ([p] + pq)[1..] == pq;
  }

  // s' is s with one block replaced by the same block of img.
  ghost predicate Painted(s': Bitmap, s: Bitmap, img: Bitmap, b: Block) {
    forall c, r | 0 <= c < WIDTH && 0 <= r < WIDTH ::
      Pixel(s', c, r) == Pixel(if b.Has(c, r) then img else s, c, r)
  }

  lemma PaintedByQuarters(s0: Bitmap, s1: Bitmap, s2: Bitmap, s3: Bitmap, s4: Bitmap, img: Bitmap, b: Block)
    requires b.level < 3
    requires Painted(s1, s0, img, Quarter(b, 0))
    requires Painted(s2, s1, img, Quarter(b, 1))
    requires Painted(s3, s2, img, Quarter(b, 2))
    requires Painted(s4, s3, img, Quarter(b, 3))
    ensures Painted(s4, s0, img, b)
  {
  }

  // Painting a quarter leaves the quarters after it white.
  lemma StaysWhite(s: Bitmap, s': Bitmap, img: Bitmap, b: Block, i: nat, k: nat)
    requires b.level < 3 && i < k < 4
    requires Painted(s', s, img, Quarter(b, i)) && White(s, Quarter(b, k))
    ensures White(s', Quarter(b, k))
  {
  }

  // Whatever white block it is painted on, decoding v gives img and leaves v'.
  ghost predicate DecodesGreys(img: Bitmap, v: nat, v': nat, b: Block) {
    forall s: Bitmap | White(s, b) :: PopGreys(v, s, b).0 == v' && Painted(PopGreys(v, s, b).1, s, img, b)
  }

  ghost predicate Decodes(img: Bitmap, v: nat, v': nat, b: Block) {
    forall s: Bitmap | White(s, b) :: DecodeBlock(v, s, b).0 == v' && Painted(DecodeBlock(v, s, b).1, s, img, b)
  }

  lemma CellBits(p: nat, q: nat, r: nat, t: nat)
    requires p < 2 && q < 2 && r < 2 && t < 2
    ensures var i := p + 2 * q + 4 * r + 8 * t;
      i % 2 == p && i / 2 % 2 == q && i / 4 % 2 == r && i / 8 % 2 == t
  {
  }

  lemma PaintCellPixels(s: Bitmap, b: Block, i: nat, c: nat, r: nat)
    requires b.level == 3 && c < WIDTH && r < WIDTH
    ensures Pixel(PaintCell(s, b, i), c, r) ==
      if c == b.x && r == b.y && i % 2 == 1 then 1
      else if c == b.x + 1 && r == b.y && i / 2 % 2 == 1 then 1
      else if c == b.x && r == b.y + 1 && i / 4 % 2 == 1 then 1
      else if c == b.x + 1 && r == b.y + 1 && i / 8 % 2 == 1 then 1
      else Pixel(s, c, r)
  {
  }

  lemma CellRestored(img: Bitmap, s: Bitmap, b: Block)
    requires b.level == 3 && White(s, b)
    ensures Painted(PaintCell(s, b, CellIndex(img, b)), s, img, b)
  {
    var i := CellIndex(img, b);
    CellBits(Pixel(img, b.x, b.y), Pixel(img, b.x + 1, b.y), Pixel(img, b.x, b.y + 1), Pixel(img, b.x + 1, b.y + 1));
    forall c, r | 0 <= c < WIDTH && 0 <= r < WIDTH
      ensures Pixel(PaintCell(s, b, i), c, r) == Pixel(if b.Has(c, r) then img else s, c, r)
    {
      PaintCellPixels(s, b, i, c, r);
    }
  }

  lemma GreyQuartersCompose(img: Bitmap, v0: nat, v1: nat, v2: nat, v3: nat, v4: nat, b: Block)
    requires b.level < 3
    requires DecodesGreys(img, v0, v1, Quarter(b, 0)) && DecodesGreys(img, v1, v2, Quarter(b, 1))
    requires DecodesGreys(img, v2, v3, Quarter(b, 2)) && DecodesGreys(img, v3, v4, Quarter(b, 3))
    ensures DecodesGreys(img, v0, v4, b)
  {
    forall s: Bitmap | White(s, b)
      ensures PopGreys(v0, s, b).0 == v4 && Painted(PopGreys(v0, s, b).1, s, img, b)
    {
      var s1 := PopGreys(v0, s, Quarter(b, 0)).1;
      StaysWhite(s, s1, img, b, 0, 1);
      StaysWhite(s, s1, img, b, 0, 2);
      StaysWhite(s, s1, img, b, 0, 3);
      var s2 := PopGreys(v1, s1, Quarter(b, 1)).1;
      StaysWhite(s1, s2, img, b, 1, 2);
      StaysWhite(s1, s2, img, b, 1, 3);
      var s3 := PopGreys(v2, s2, Quarter(b, 2)).1;
      StaysWhite(s2, s3, img, b, 2, 3);
      var s4 := PopGreys(v3, s3, Quarter(b, 3)).1;
      PaintedByQuarters(s, s1, s2, s3, s4, img, b);
    }
  }

  lemma {:induction false} GreysRoundTrip(img: Bitmap, v: nat, b: Block)
    requires AllBlack(img, b)
    ensures DecodesGreys(img, PushAll(PushGreys(img, b), v), v, b)
    decreases 4 - b.level
  {
    if b.level < 3 {
      var v3 := PushAll(PushGreys(img, Quarter(b, 3)), v);
      var v2 := PushAll(PushGreys(img, Quarter(b, 2)), v3);
      var v1 := PushAll(PushGreys(img, Quarter(b, 1)), v2);
      var v0 := PushAll(PushGreys(img, Quarter(b, 0)), v1);
      GreysRoundTrip(img, v1, Quarter(b, 0));
      GreysRoundTrip(img, v2, Quarter(b, 1));
      GreysRoundTrip(img, v3, Quarter(b, 2));
      GreysRoundTrip(img, v, Quarter(b, 3));
      GreyQuartersCompose(img, v0, v1, v2, v3, v, b);
      PushQuarters(PushGreys(img, Quarter(b, 0)), PushGreys(img, Quarter(b, 1)),
                   PushGreys(img, Quarter(b, 2)), PushGreys(img, Quarter(b, 3)), v);
    } else {
      CellRoundTrip(img, v, b);
    }
  }

  lemma CellRoundTrip(img: Bitmap, v: nat, b: Block)
    requires b.level == 3 && AllBlack(img, b)
    ensures DecodesGreys(img, PushAll(PushGreys(img, b), v), v, b)
  {
    var i := CellIndex(img, b);
    PushCons(CellSymbol(i), [], v);
    GreysPartition();
    PopUndoesPush(v, GREYS, i);
    forall s: Bitmap | White(s, b) ensures Painted(PaintCell(s, b, i), s, img, b) {
      CellRestored(img, s, b);
    }
  }

  lemma PopLevelSymbol(level: nat, color: nat, v: nat)
    requires level < 4 && color < 3 && !(level == 3 && color == GREY)
    ensures Partitions(LEVELS[level])
    ensures Pop(Push(v, LevelSymbol(level, color)), LEVELS[level]) == (color, v)
  {
    LevelsPartition(level);
    PopUndoesPush(v, LEVELS[level], color);
  }

  lemma QuartersCompose(img: Bitmap, v0: nat, v1: nat, v2: nat, v3: nat, v4: nat, b: Block, s: Bitmap)
    requires b.level < 3 && White(s, b)
    requires Decodes(img, v0, v1, Quarter(b, 0)) && Decodes(img, v1, v2, Quarter(b, 1))
    requires Decodes(img, v2, v3, Quarter(b, 2)) && Decodes(img, v3, v4, Quarter(b, 3))
    ensures var (v', s') := DecodeQuarters(v0, s, b); v' == v4 && Painted(s', s, img, b)
  {
    var s1 := DecodeBlock(v0, s, Quarter(b, 0)).1;
    StaysWhite(s, s1, img, b, 0, 1);
    StaysWhite(s, s1, img, b, 0, 2);
    StaysWhite(s, s1, img, b, 0, 3);
    var s2 := DecodeBlock(v1, s1, Quarter(b, 1)).1;
    StaysWhite(s1, s2, img, b, 1, 2);
    StaysWhite(s1, s2, img, b, 1, 3);
    var s3 := DecodeBlock(v2, s2, Quarter(b, 2)).1;
    StaysWhite(s2, s3, img, b, 2, 3);
    var s4 := DecodeBlock(v3, s3, Quarter(b, 3)).1;
    PaintedByQuarters(s, s1, s2, s3, s4, img, b);
  }

  lemma {:induction false} BlockRoundTrip(img: Bitmap, v: nat, b: Block)
    requires EncodeBlock(img, b).Some?
    ensures Decodes(img, PushAll(EncodeBlock(img, b).value, v), v, b)
    decreases 4 - b.level, 1
  {
    if White(img, b) {
      PushCons(LevelSymbol(b.level, WHITE), [], v);
      PopLevelSymbol(b.level, WHITE, v);
    } else if AllBlack(img, b) {
      var g := PushGreys(img, b);
      PushCons(LevelSymbol(b.level, BLACK), g, v);
      PopLevelSymbol(b.level, BLACK, PushAll(g, v));
      GreysRoundTrip(img, v, b);
    } else {
      CellIsWhiteOrBlack(img, b);
      var q := EncodeQuarters(img, b).value;
      PushCons(LevelSymbol(b.level, GREY), q, v);
      PopLevelSymbol(b.level, GREY, PushAll(q, v));
      QuartersRoundTrip(img, v, b);
    }
  }

  lemma {:induction false} QuartersRoundTrip(img: Bitmap, v: nat, b: Block)
    requires b.level < 3 && EncodeQuarters(img, b).Some?
    ensures forall s: Bitmap | White(s, b) ::
      var (v', s') := DecodeQuarters(PushAll(EncodeQuarters(img, b).value, v), s, b); v' == v && Painted(s', s, img, b)
    decreases 4 - b.level, 0
  {
    var (q0, q1) := (EncodeBlock(img, Quarter(b, 0)).value, EncodeBlock(img, Quarter(b, 1)).value);
    var (q2, q3) := (EncodeBlock(img, Quarter(b, 2)).value, EncodeBlock(img, Quarter(b, 3)).value);
    var v3 := PushAll(q3, v);
    var v2 := PushAll(q2, v3);
    var v1 := PushAll(q1, v2);
    var v0 := PushAll(q0, v1);
    BlockRoundTrip(img, v1, Quarter(b, 0));
    BlockRoundTrip(img, v2, Quarter(b, 1));
    BlockRoundTrip(img, v3, Quarter(b, 2));
    BlockRoundTrip(img, v, Quarter(b, 3));
    PushQuarters(q0, q1, q2, q3, v);
    forall s: Bitmap | White(s, b)
      ensures DecodeQuarters(v0, s, b).0 == v && Painted(DecodeQuarters(v0, s, b).1, s, img, b)
    {
      QuartersCompose(img, v0, v1, v2, v3, v, b, s);
    }
  }

  // The blocks before block k of s' are those of s, the others those of img.
  ghost predicate PaintedFrom(s': Bitmap, s: Bitmap, img: Bitmap, k: nat) {
    forall c, r | 0 <= c < WIDTH && 0 <= r < WIDTH ::
      Pixel(s', c, r) == Pixel(if c / 16 + 3 * (r / 16) >= k then img else s, c, r)
  }

  lemma CornersApart(k: nat, c: nat, r: nat)
    requires k < 9 && c < WIDTH && r < WIDTH
    ensures Corner(k).Has(c, r) <==> c / 16 + 3 * (r / 16) == k
  {
  }

  lemma PaintCorner(s: Bitmap, s1: Bitmap, s2: Bitmap, img: Bitmap, k: nat)
    requires k < 9 && Painted(s1, s, img, Corner(k)) && PaintedFrom(s2, s1, img, k + 1)
    ensures PaintedFrom(s2, s, img, k)
  {
    forall c, r | 0 <= c < WIDTH && 0 <= r < WIDTH
      ensures Pixel(s2, c, r) == Pixel(if c / 16 + 3 * (r / 16) >= k then img else s, c, r)
    {
      CornersApart(k, c, r);
    }
  }

  lemma CornersStayWhite(s: Bitmap, s1: Bitmap, img: Bitmap, k: nat, j: nat)
    requires k < j < 9 && Painted(s1, s, img, Corner(k)) && White(s, Corner(j))
    ensures White(s1, Corner(j))
  {
    forall c, r | 0 <= c < WIDTH && 0 <= r < WIDTH && Corner(j).Has(c, r) ensures Pixel(s1, c, r) == 0 {
      CornersApart(k, c, r);
      CornersApart(j, c, r);
    }
  }

  lemma {:induction false} FaceRoundTrip(img: Bitmap, v: nat, s: Bitmap, k: nat)
    requires k <= 9 && EncodeFrom(img, k).Some?
    requires forall j | k <= j < 9 :: White(s, Corner(j))
    ensures var (v', s') := DecodeFrom(PushAll(EncodeFrom(img, k).value, v), s, k); v' == v && PaintedFrom(s', s, img, k)
    decreases 9 - k
  {
    if k < 9 {
      var (a, b) := (EncodeBlock(img, Corner(k)).value, EncodeFrom(img, k + 1).value);
      PushAllAppend(a, b, v);
      var w := PushAll(b, v);
      BlockRoundTrip(img, w, Corner(k));
      var s1 := DecodeBlock(PushAll(a, w), s, Corner(k)).1;
      forall j | k < j < 9 ensures White(s1, Corner(j)) {
        CornersStayWhite(s, s1, img, k, j);
      }
      FaceRoundTrip(img, v, s1, k + 1);
      PaintCorner(s, s1, DecodeFrom(w, s1, k + 1).1, img, k);
    } else {
      assert EncodeFrom(img, 9).value == [];
    }
  }

  lemma FullyPainted(s': Bitmap, s: Bitmap, img: Bitmap)
    requires PaintedFrom(s', s, img, 0)
    ensures s' == img
  {
    forall h | 0 <= h < PIXELS ensures s'[h] == img[h] {
      assert Pixel(s', h % WIDTH, h / WIDTH) == Pixel(img, h % WIDTH, h / WIDTH);
    }
  }

  // Decoding onto a white face.
  lemma FaceRestored(img: Bitmap, v: nat, s: Bitmap)
    requires EncodeFrom(img, 0).Some? && forall h | 0 <= h < PIXELS :: s[h] == 0
    ensures DecodeFrom(PushAll(EncodeFrom(img, 0).value, v), s, 0) == (v, img)
  {
    forall j | 0 <= j < 9 ensures White(s, Corner(j)) {
    }
    FaceRoundTrip(img, v, s, 0);
    FullyPainted(DecodeFrom(PushAll(EncodeFrom(img, 0).value, v), s, 0).1, s, img);
  }

  // ------------------------------------------------- when the encoder completes

  lemma WhiteStops(s: Bitmap, b: Block)
    ensures AllWhite(s, b) ==
      if !White(s, b) then Some(false) else if b.x > 0 && b.y + b.Side() == WIDTH then None else Some(true)
  {
  }

  // The k-th 2x2 cell of the bottom row.
  function BottomCell(k: nat): Block
    requires k < 24
  {
    Area(3, 2 * k, WIDTH - 2)
  }

  predicate Inked(s: Bitmap, k: nat)
    requires k < 24
  {
    !White(s, BottomCell(k))
  }

  // None of the bottom cells lo .. hi - 1 is all white.
  predicate BottomInked(s: Bitmap, lo: nat, hi: nat)
    requires hi <= 24
  {
    forall k | lo <= k < hi :: Inked(s, k)
  }

  predicate IsBottom(b: Block) {
    b.x % 2 == 0 && b.y + b.Side() == WIDTH
  }

  function FirstCell(b: Block): (k: nat)
    requires IsBottom(b)
    ensures k + b.Side() / 2 <= 24
  {
    b.x / 2
  }

  function EndCell(b: Block): (k: nat)
    requires IsBottom(b)
    ensures k <= 24
  {
    (b.x + b.Side()) / 2
  }

  lemma BottomQuarters(b: Block)
    requires IsBottom(b) && b.level < 3
    ensures Quarter(b, 0).y + Quarter(b, 0).Side() < WIDTH && Quarter(b, 1).y + Quarter(b, 1).Side() < WIDTH
    ensures IsBottom(Quarter(b, 2)) && FirstCell(Quarter(b, 2)) == FirstCell(b)
    ensures IsBottom(Quarter(b, 3)) && FirstCell(Quarter(b, 3)) == EndCell(Quarter(b, 2)) && EndCell(Quarter(b, 3)) == EndCell(b)
  {
  }

  lemma {:induction false} BlackIsInked(s: Bitmap, b: Block)
    requires AllBlack(s, b) && IsBottom(b)
    ensures BottomInked(s, FirstCell(b), EndCell(b))
    decreases 4 - b.level
  {
    if b.level < 3 {
      BottomQuarters(b);
      BlackIsInked(s, Quarter(b, 2));
      BlackIsInked(s, Quarter(b, 3));
    } else {
      assert BottomCell(FirstCell(b)) == b;
      assert CellIndex(s, b) != 0;
    }
  }

  // Blocks above the bottom row never stop the encoder.
  lemma {:induction false} UpperCompletes(s: Bitmap, b: Block)
    requires b.y + b.Side() < WIDTH
    ensures EncodeBlock(s, b).Some?
    decreases 4 - b.level
  {
    WhiteStops(s, b);
    CellIsWhiteOrBlack(s, b);
    if b.level < 3 {
      UpperCompletes(s, Quarter(b, 0));
      UpperCompletes(s, Quarter(b, 1));
      UpperCompletes(s, Quarter(b, 2));
      UpperCompletes(s, Quarter(b, 3));
    }
  }

  lemma WhiteBottom(s: Bitmap, b: Block)
    requires IsBottom(b) && White(s, b)
    ensures !Inked(s, FirstCell(b))
  {
  }

  lemma GreyBottom(s: Bitmap, b: Block)
    requires IsBottom(b) && !White(s, b) && !AllBlack(s, b)
    ensures b.level < 3
    ensures EncodeBlock(s, b).Some? <==> EncodeBlock(s, Quarter(b, 2)).Some? && EncodeBlock(s, Quarter(b, 3)).Some?
  {
    WhiteStops(s, b);
    CellIsWhiteOrBlack(s, b);
    BottomQuarters(b);
    UpperCompletes(s, Quarter(b, 0));
    UpperCompletes(s, Quarter(b, 1));
  }

  // Right of column 0 a bottom block is encoded exactly when all its bottom cells are inked.
  lemma {:induction false} RightCompletes(s: Bitmap, b: Block)
    requires IsBottom(b) && b.x > 0
    ensures EncodeBlock(s, b).Some? <==> BottomInked(s, FirstCell(b), EndCell(b))
    decreases 4 - b.level
  {
    WhiteStops(s, b);
    if White(s, b) {
      WhiteBottom(s, b);
    } else if AllBlack(s, b) {
      BlackIsInked(s, b);
    } else {
      GreyBottom(s, b);
      BottomQuarters(b);
      RightCompletes(s, Quarter(b, 2));
      RightCompletes(s, Quarter(b, 3));
    }
  }

  // The block in the bottom left corner of the face.
  function LeftCorner(level: nat): (b: Block)
    requires level < 4
    ensures IsBottom(b) && FirstCell(b) == 0
  {
    Area(level, 0, WIDTH - Area(level, 0, 0).Side())
  }

  // Some white corner block covers every white bottom cell before cell hi; the cell in
  // the corner itself needs no such cover.
  predicate LeftCovered(s: Bitmap, from: nat, hi: nat)
    requires hi <= 24
  {
    exists level | from <= level < 4 :: CoveredBy(s, level, hi)
  }

  predicate CoveredBy(s: Bitmap, level: nat, hi: nat)
    requires level < 4 && hi <= 24
  {
    && (level == 3 || White(s, LeftCorner(level)))
    && BottomInked(s, EndCell(LeftCorner(level)), hi)
  }

  lemma LeftWhole(s: Bitmap, level: nat)
    requires level < 4
    requires var b := LeftCorner(level); White(s, b) || level == 3 || AllBlack(s, b)
    ensures EncodeBlock(s, LeftCorner(level)).Some?
    ensures LeftCovered(s, level, EndCell(LeftCorner(level)))
  {
    var b := LeftCorner(level);
    WhiteStops(s, b);
    CellIsWhiteOrBlack(s, b);
    if White(s, b) || level == 3 {
      assert CoveredBy(s, level, EndCell(b));
    } else {
      BlackIsInked(s, b);
      assert CoveredBy(s, 3, EndCell(b));
    }
  }

  lemma {:induction false} LeftCompletes(s: Bitmap, level: nat)
    requires level < 4
    ensures EncodeBlock(s, LeftCorner(level)).Some? <==> LeftCovered(s, level, EndCell(LeftCorner(level)))
    decreases 4 - level
  {
    var b := LeftCorner(level);
    if White(s, b) || level == 3 || AllBlack(s, b) {
      LeftWhole(s, level);
    } else {
      GreyBottom(s, b);
      BottomQuarters(b);
      assert Quarter(b, 2) == LeftCorner(level + 1);
      LeftCompletes(s, level + 1);
      RightCompletes(s, Quarter(b, 3));
      CoverExtends(s, level + 1, EndCell(Quarter(b, 2)), EndCell(b));
      assert !CoveredBy(s, level, EndCell(b));
    }
  }

  lemma CoverExtends(s: Bitmap, from: nat, mid: nat, hi: nat)
    requires from < 4 && EndCell(LeftCorner(from)) <= mid <= hi <= 24
    ensures LeftCovered(s, from, hi) <==> LeftCovered(s, from, mid) && BottomInked(s, mid, hi)
  {
    forall level | from <= level < 4
      ensures CoveredBy(s, level, hi) <==> CoveredBy(s, level, mid) && BottomInked(s, mid, hi)
    {
      assert EndCell(LeftCorner(level)) <= mid;
    }
  }

  lemma EncodeFromStep(s: Bitmap, k: nat)
    requires k < 9
    ensures EncodeFrom(s, k).Some? <==> EncodeBlock(s, Corner(k)).Some? && EncodeFrom(s, k + 1).Some?
  {
  }

  lemma CornerCompletes(s: Bitmap, k: nat)
    requires k < 9
    ensures EncodeBlock(s, Corner(k)).Some? <==>
      if k < 6 then true
      else if k == 6 then LeftCovered(s, 0, 8)
      else BottomInked(s, 8 * (k - 6), 8 * (k - 5))
  {
    if k < 6 {
      UpperCompletes(s, Corner(k));
    } else if k == 6 {
      LeftCompletes(s, 0);
      assert Corner(6) == LeftCorner(0) && EndCell(LeftCorner(0)) == 8;
    } else {
      RightCompletes(s, Corner(k));
    }
  }

  lemma Chain(e: seq<bool>, c: seq<bool>, n: nat)
    requires n <= |c| && |e| == |c| + 1 && e[|c|]
    requires forall k | 0 <= k < |c| :: e[k] <==> c[k] && e[k + 1]
    ensures e[n] <==> forall k | n <= k < |c| :: c[k]
    decreases |c| - n
  {
    if n < |c| {
      Chain(e, c, n + 1);
    }
  }

  // The encoder completes exactly when every white cell of the bottom row lies inside
  // an all-white corner block at column 0, or is the corner cell.
  lemma FaceCompletes(s: Bitmap)
    ensures EncodeFrom(s, 0).Some? <==> LeftCovered(s, 0, 24)
  {
    var e := seq(10, k requires 0 <= k < 10 => EncodeFrom(s, k).Some?);
    var c := seq(9, k requires 0 <= k < 9 => EncodeBlock(s, Corner(k)).Some?);
    forall k | 0 <= k < 9 ensures e[k] <==> c[k] && e[k + 1] {
      EncodeFromStep(s, k);
    }
    Chain(e, c, 0);
    forall k | 0 <= k < 9
      ensures c[k] <==> (k == 6 ==> LeftCovered(s, 0, 8)) && (k > 6 ==> BottomInked(s, 8 * (k - 6), 8 * (k - 5)))
    {
      CornerCompletes(s, k);
    }
    assert (forall k | 0 <= k < 9 :: c[k]) <==> c[6] && c[7] && c[8];
    CoverExtends(s, 0, 8, 24);
    assert BottomInked(s, 8, 24) <==> BottomInked(s, 8, 16) && BottomInked(s, 16, 24);
  }
}
