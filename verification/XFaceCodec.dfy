// The X-Face codec: predictor, quadtree, integer coder and printable digits together.
module XFaceCodec {
  import opened Common
  import opened XFaceTables
  import opened XFaceCoder
  import opened XFacePredictor
  import opened XFaceBlocks

  // ------------------------------------------------------------------- digits

  const PRINTS := 94
  const FIRST_PRINT := '!'
  const LAST_PRINT := '~'

  function Digit(d: nat): char
    requires d < PRINTS
  {
    (d + 33) as char
  }

  // v in base 94, most significant digit first, at least one digit.
  function Digits(v: nat): string {
    if v < PRINTS then [Digit(v)] else Digits(v / PRINTS) + [Digit(v % PRINTS)]
  }

  predicate IsSpace(c: char) {
    c == ' ' || c == '\t' || c == '\r' || c == '\n'
  }

  predicate IsPrint(c: char) {
    FIRST_PRINT <= c <= LAST_PRINT
  }

  datatype Reading = Invalid | NoDigits | Number(v: nat)

  // The value of the digits of s, spaces skipped.
  function ReadDigits(s: string): Reading {
    if s == [] then NoDigits
    else
      var (r, c) := (ReadDigits(s[..|s| - 1]), s[|s| - 1]);
      if r == Invalid || (!IsPrint(c) && !IsSpace(c)) then Invalid
      else if IsSpace(c) then r
      else
        var d := c as int - 33;
        if r.Number? then Number(r.v * PRINTS + d) else Number(d)
  }

  lemma {:induction false} ReadUndoesWrite(v: nat)
    ensures ReadDigits(Digits(v)) == Number(v)
  {
    if v < PRINTS {
      assert Digits(v)[..0] == [];
    } else {
      ReadUndoesWrite(v / PRINTS);
      assert Digits(v)[..|Digits(v)| - 1] == Digits(v / PRINTS);
    }
  }

  function Reverse(s: string): (r: string)
    ensures |r| == |s|
    ensures forall i | 0 <= i < |s| :: r[i] == s[|s| - 1 - i]
  {
    if s == [] then [] else Reverse(s[1..]) + [s[0]]
  }

  lemma ReverseAppend(s: string, c: char)
    ensures Reverse(s + [c]) == [c] + Reverse(s)
  {
  }

  method Invert(bb: array<char>)
    modifies bb
    ensures bb[..] == Reverse(old(bb[..]))
  {
    var (i, n) := (0, bb.Length);
    while i < n / 2
      invariant 0 <= i <= n / 2
      invariant forall k | 0 <= k < i :: bb[k] == old(bb[n - 1 - k]) && bb[n - 1 - k] == old(bb[k])
      invariant forall k | i <= k < n - i :: bb[k] == old(bb[k])
    {
      bb[i], bb[n - i - 1] := bb[n - i - 1], bb[i];
      i := i + 1;
    }
  }

  function DigitsOrNone(v: nat, more: bool): string {
    if more then Digits(v) else []
  }

  lemma WriteStep(v: nat, buf: string)
    ensures Digits(v) + Reverse(buf) ==
      DigitsOrNone(v / PRINTS, v / PRINTS != 0) + Reverse(buf + [Digit(v % PRINTS)])
  {
    ReverseAppend(buf, Digit(v % PRINTS));
  }

  method XfaceWrite(b: BigInt) returns (s: string)
    modifies b
    ensures s == Digits(old(b.v))
  {
    ghost var all := Digits(b.v);
    var buf: string := [];
    var more := true;
    while more
      invariant all == DigitsOrNone(b.v, more) + Reverse(buf)
      decreases more, b.v
    {
      WriteStep(b.v, buf);
      var m := b.v % PRINTS;
      b.v := b.v / PRINTS;
      buf := buf + [Digit(m)];
      more := b.v != 0;
    }
    var bb := new char[|buf|](i requires 0 <= i < |buf| => buf[i]);
    assert bb[..] == buf;
    Invert(bb);
    s := bb[..];
  }

  // Returns a null pointer for an invalid character and when there is no digit at all.
  method XfaceRead(s: string) returns (b: BigInt?)
    ensures b != null ==> fresh(b) && ReadDigits(s) == Number(b.v)
    ensures b == null ==> !ReadDigits(s).Number?
  {
    b := null;
    var i := 0;
    while i < |s|
      invariant 0 <= i <= |s|
      invariant b != null ==> fresh(b)
      invariant ReadDigits(s[..i]) == if b == null then NoDigits else Number(b.v)
    {
      var c := s[i];
      assert s[..i + 1][..i] == s[..i];
      if c < FIRST_PRINT || c > LAST_PRINT {
        if !IsSpace(c) {
          InvalidStays(s, i + 1);
          return null;
        }
      } else if b != null {
        b.v := b.v * PRINTS;
        b.v := b.v + (c as int - 33);
      } else {
        b := new BigInt(c as int - 33);
      }
      i := i + 1;
    }
    assert s[..|s|] == s;
  }

  lemma InvalidStays(s: string, n: nat)
    requires n <= |s| && ReadDigits(s[..n]) == Invalid
    ensures ReadDigits(s) == Invalid
    decreases |s|
  {
    if n < |s| {
      assert s[..|s| - 1][..n] == s[..n];
      InvalidStays(s[..|s| - 1], n);
    } else {
      assert s[..n] == s;
    }
  }

  // -------------------------------------------------------------------- faces

  method CopyBitmap(bitmap: array<Byte>) returns (srcbmp: array<Byte>)
    ensures fresh(srcbmp) && srcbmp[..] == bitmap[..]
  {
    srcbmp := new Byte[bitmap.Length];
    forall i | 0 <= i < bitmap.Length {
      srcbmp[i] := bitmap[i];
    }
  }

  method Predict(t: GuessTables, bitmap: array<Byte>)
    requires IsBitmap(bitmap[..])
    modifies bitmap
    ensures IsBitmap(bitmap[..]) && Predicts(t, old(bitmap[..]), bitmap[..])
  {
    var srcbmp := CopyBitmap(bitmap);
    ghost var before: Bitmap := bitmap[..];
    GenerateFace(t, bitmap, srcbmp);
    assert srcbmp[..] == before;
    assert forall h | 0 <= h < PIXELS :: bitmap[..][h] == XorBit(before[h], Guess(t, before, h));
  }

  // The last symbol is pushed first, so that the first one pops first.
  method PushSymbols(b: BigInt, pq: seq<Symbol>)
    modifies b
    ensures b.v == PushAll(pq, old(b.v))
  {
    var i := |pq| - 1;
    while i >= 0
      invariant -1 <= i < |pq|
      invariant b.v == PushAll(pq[i + 1..], old(b.v))
    {
      PushInteger(b, pq[i]);
      assert pq[i..][1..] == pq[i + 1..];
      i := i - 1;
    }
    assert pq[0..] == pq;
  }

  // bitmap is filtered in place by the predictor, then its symbols are pushed. False
  // stands for the run-time panic of AllSame.
  method XfaceEncode(t: GuessTables, b: BigInt, bitmap: array<Byte>) returns (ok: bool)
    requires IsBitmap(bitmap[..])
    modifies b, bitmap
    ensures IsBitmap(bitmap[..]) && Predicts(t, old(bitmap[..]), bitmap[..])
    ensures ok <==> EncodeFrom(bitmap[..], 0).Some?
    ensures ok ==> b.v == PushAll(EncodeFrom(bitmap[..], 0).value, old(b.v))
  {
    Predict(t, bitmap);
    var coded := EncodeFrom(bitmap[..], 0);
    if coded.None? {
      return false;
    }
    PushSymbols(b, coded.value);
    return true;
  }

  method PopGreysInto(b: BigInt, bitmap: array<Byte>, at: Block)
    requires IsBitmap(bitmap[..])
    modifies b, bitmap
    ensures IsBitmap(bitmap[..]) && (b.v, bitmap[..]) == PopGreys(old(b.v), old(bitmap[..]), at)
    decreases 4 - at.level
  {
    if at.level < 3 {
      PopGreysInto(b, bitmap, Quarter(at, 0));
      PopGreysInto(b, bitmap, Quarter(at, 1));
      PopGreysInto(b, bitmap, Quarter(at, 2));
      PopGreysInto(b, bitmap, Quarter(at, 3));
    } else {
      GreysPartition();
      var w := PopInteger(b, GREYS);
      var o := at.x + at.y * WIDTH;
      if w % 2 == 1 {
        bitmap[o] := 1;
      }
      if w / 2 % 2 == 1 {
        bitmap[o + 1] := 1;
      }
      if w / 4 % 2 == 1 {
        bitmap[o + WIDTH] := 1;
      }
      if w / 8 % 2 == 1 {
        bitmap[o + WIDTH + 1] := 1;
      }
      assert bitmap[..] == PaintCell(old(bitmap[..]), at, w);
    }
  }

  method DecodeBlockInto(b: BigInt, bitmap: array<Byte>, at: Block)
    requires IsBitmap(bitmap[..])
    modifies b, bitmap
    ensures IsBitmap(bitmap[..]) && (b.v, bitmap[..]) == DecodeBlock(old(b.v), old(bitmap[..]), at)
    decreases 4 - at.level
  {
    LevelsPartition(at.level);
    NoGreyAtBottom(b.v);
    var i := PopInteger(b, LEVELS[at.level]);
    if i == WHITE {
    } else if i == BLACK {
      PopGreysInto(b, bitmap, at);
    } else {
      DecodeBlockInto(b, bitmap, Quarter(at, 0));
      DecodeBlockInto(b, bitmap, Quarter(at, 1));
      DecodeBlockInto(b, bitmap, Quarter(at, 2));
      DecodeBlockInto(b, bitmap, Quarter(at, 3));
    }
  }

  // The nine calls are written as a loop over the nine corners.
  method DecodeCorners(b: BigInt, bitmap: array<Byte>)
    requires IsBitmap(bitmap[..])
    modifies b, bitmap
    ensures IsBitmap(bitmap[..]) && (b.v, bitmap[..]) == DecodeFrom(old(b.v), old(bitmap[..]), 0)
  {
    for k := 0 to 9
      invariant IsBitmap(bitmap[..])
      invariant DecodeFrom(b.v, bitmap[..], k) == DecodeFrom(old(b.v), old(bitmap[..]), 0)
    {
      DecodeBlockInto(b, bitmap, Corner(k));
    }
  }

  method XfaceDecode(t: GuessTables, b: BigInt, bitmap: array<Byte>)
    requires IsBitmap(bitmap[..])
    modifies b, bitmap
    ensures IsBitmap(bitmap[..])
    ensures Unfiltered(t, DecodeFrom(old(b.v), old(bitmap[..]), 0).1, bitmap[..])
  {
    DecodeCorners(b, bitmap);
    GenerateFace(t, bitmap, bitmap);
  }

  // face is what filtering residual in place leaves.
  ghost predicate Unfiltered(t: GuessTables, residual: Bitmap, face: Bitmap) {
    forall h | 0 <= h < PIXELS :: face[h] == XorBit(residual[h], Guess(t, face, h))
  }

  method XfaceEncodeString(t: GuessTables, bitmap: array<Byte>) returns (s: Option<string>)
    requires IsBitmap(bitmap[..])
    modifies bitmap
    ensures IsBitmap(bitmap[..])
    ensures EncodesTo(t, old(bitmap[..]), bitmap[..], s)
  {
    var b := new BigInt(0);
    var ok := XfaceEncode(t, b, bitmap);
    if !ok {
      return None;
    }
    var digits := XfaceWrite(b);
    return Some(digits);
  }

  // face has the given residual, and s is the text of the residual's symbols or None.
  ghost predicate EncodesTo(t: GuessTables, face: Bitmap, residual: Bitmap, s: Option<string>) {
    && Predicts(t, face, residual)
    && s == match EncodeFrom(residual, 0)
            case None => None
            case Some(pq) => Some(Digits(PushAll(pq, 0)))
  }

  method XfaceDecodeString(t: GuessTables, bitmap: array<Byte>, s: string) returns (ok: bool)
    requires IsBitmap(bitmap[..])
    modifies bitmap
    ensures ok <==> ReadDigits(s).Number?
    ensures !ok ==> bitmap[..] == old(bitmap[..])
    ensures ok ==> IsBitmap(bitmap[..]) && DecodesTo(t, s, old(bitmap[..]), bitmap[..])
  {
    var b := XfaceRead(s);
    if b == null {
      return false;
    }
    XfaceDecode(t, b, bitmap);
    return true;
  }

  ghost predicate DecodesTo(t: GuessTables, s: string, before: Bitmap, face: Bitmap)
    requires ReadDigits(s).Number?
  {
    Unfiltered(t, DecodeFrom(ReadDigits(s).v, before, 0).1, face)
  }

  // ------------------------------------------------------------------- results

  // Whenever encoding completes, its text decodes to the very face it came from.
  lemma XfaceRoundTrip(t: GuessTables, face: Bitmap, residual: Bitmap, s: string, blank: Bitmap, restored: Bitmap)
    requires EncodesTo(t, face, residual, Some(s))
    requires forall h | 0 <= h < PIXELS :: blank[h] == 0
    requires ReadDigits(s).Number? ==> DecodesTo(t, s, blank, restored)
    ensures ReadDigits(s).Number? && restored == face
  {
    var pq := EncodeFrom(residual, 0).value;
    ReadUndoesWrite(PushAll(pq, 0));
    FaceRestored(residual, 0, blank);
    UnpredictRestores(t, face, residual, restored);
  }

  // Encoding completes exactly when the bottom row of the residual allows it.
  lemma XfaceCompletes(t: GuessTables, face: Bitmap, residual: Bitmap, s: Option<string>)
    requires EncodesTo(t, face, residual, s)
    ensures s.Some? <==> LeftCovered(residual, 0, 24)
  {
    FaceCompletes(residual);
  }

  // ---------------------------------------------------------------- blank face

  ghost function BlankFace(): Bitmap {
    seq(PIXELS, _ => 0)
  }

  lemma {:induction false} BlankContext(i: nat, j: nat, c: nat, d: nat)
    requires i < WIDTH && j < WIDTH && c <= 5 && d <= 3 && (c == 5 ==> d == 0)
    ensures Context(BlankFace(), i, j, c, d) == 0
    decreases c, d
  {
    if d > 0 {
      BlankContext(i, j, c, d - 1);
    } else if c > 0 {
      BlankContext(i, j, c - 1, 3);
    }
  }

  // The empty context guesses white everywhere.
  ghost predicate GuessesWhiteFirst(t: GuessTables) {
    && t.g00[0] < 128 && t.g01[0] < 128 && t.g02[0] < 128
    && t.g10[0] < 128 && t.g11[0] < 128 && t.g12[0] < 128
    && t.g20[0] < 128 && t.g21[0] < 128 && t.g22[0] < 128
    && t.g40[0] < 128 && t.g41[0] < 128 && t.g42[0] < 128
  }

  lemma FaceTablesGuessWhiteFirst()
    ensures GuessesWhiteFirst(FACE_TABLES)
  {
    assert G00[0] == 0 && G10[0] == 0 && G40[0] == 0;
  }

  lemma BlankGuess(t: GuessTables, h: nat)
    requires h < PIXELS && GuessesWhiteFirst(t)
    ensures Guess(t, BlankFace(), h) == 0
  {
    BlankContext(h % WIDTH, h / WIDTH, COLUMNS, NO_ROWS);
    assert Pow2(7) == 128;
  }

  lemma BlankNotCovered()
    ensures !LeftCovered(BlankFace(), 0, 24)
  {
    forall level | 0 <= level < 4 ensures !CoveredBy(BlankFace(), level, 24) {
      assert !Inked(BlankFace(), 23);
    }
  }

  // The all-white face is its own residual, and the encoder does not complete on it.
  lemma BlankFaceStops(t: GuessTables, residual: Bitmap, s: Option<string>)
    requires t == FACE_TABLES
    requires EncodesTo(t, BlankFace(), residual, s)
    ensures residual == BlankFace() && s == None
  {
    FaceTablesGuessWhiteFirst();
    BlankStops(t, residual, s);
  }

  lemma BlankStops(t: GuessTables, residual: Bitmap, s: Option<string>)
    requires GuessesWhiteFirst(t)
    requires EncodesTo(t, BlankFace(), residual, s)
    ensures residual == BlankFace() && s == None
  {
    forall h | 0 <= h < PIXELS ensures residual[h] == 0 {
      BlankGuess(t, h);
    }
    assert residual == BlankFace();
    XfaceCompletes(t, BlankFace(), residual, s);
    BlankNotCovered();
  }
}
