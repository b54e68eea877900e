// The yEnc encoding, line by line, and that decoding undoes it.
module YEncText {
  import opened Common

  const LINE_LENGTH: nat := 990
  const BUFFER_LENGTH: nat := 1000

  const NUL: Byte := 0
  const LF: Byte := 10
  const CR: Byte := 13
  const DOT: Byte := 46
  const ESCAPE: Byte := 61
  const Y: Byte := 121

  // Bytes that cannot stand for themselves; a dot cannot at the start of a line.
  predicate Critical(x: Byte, atStart: bool) {
    x == NUL || x == CR || x == LF || x == ESCAPE || (atStart && x == DOT)
  }

  function Shift(c: Byte, k: int): Byte {
    (c + k) % 256
  }

  function EncodeByte(c: Byte, atStart: bool): seq<Byte> {
    var x := Shift(c, 42);
    if Critical(x, atStart) then [ESCAPE, Shift(x, 64)] else [x]
  }

  // The lines written so far, and the one being written.
  datatype Encoded = Encoded(lines: seq<seq<Byte>>, line: seq<Byte>)

  function Push(e: Encoded, c: Byte): Encoded {
    var line := e.line + EncodeByte(c, e.line == []);
    if |line| >= LINE_LENGTH then Encoded(e.lines + [line], []) else Encoded(e.lines, line)
  }

  function PushAll(e: Encoded, t: seq<Byte>): Encoded
    decreases |t|
  {
    if t == [] then e else PushAll(Push(e, t[0]), t[1..])
  }

  function Finish(e: Encoded): seq<seq<Byte>> {
    if e.line == [] then e.lines else e.lines + [e.line]
  }

  function Joined(lines: seq<seq<Byte>>): seq<Byte> {
    if lines == [] then [] else lines[0] + [CR, LF] + Joined(lines[1..])
  }

  // What a line decodes to, and whether it ends in the middle of an escape.
  datatype Line = Line(data: seq<Byte>, cut: bool)

  function DecodeLine(s: seq<Byte>): Line {
    if s == [] then Line([], false)
    else if s[0] != ESCAPE then
      var d := DecodeLine(s[1..]);
      d.(data := [Shift(s[0], -42)] + d.data)
    else if |s| == 1 then Line([], true)
    else
      var d := DecodeLine(s[2..]);
      d.(data := [Shift(Shift(s[1], -64), -42)] + d.data)
  }

  function DecodeLines(lines: seq<seq<Byte>>): seq<Byte> {
    if lines == [] then [] else DecodeLine(lines[0]).data + DecodeLines(lines[1..])
  }

  // A line that gets through a dot writer unchanged and that no yEnc reader takes for a
  // header.
  predicate Clean(line: seq<Byte>) {
    && NUL !in line && CR !in line && LF !in line
    && (line != [] ==> line[0] != DOT)
    && (|line| >= 2 && line[0] == ESCAPE ==> line[1] != Y)
    && !DecodeLine(line).cut
  }

  predicate DataLine(line: seq<Byte>) {
    0 < |line| <= LINE_LENGTH + 1 && Clean(line)
  }

  // ------------------------------------------------------------- one line

  // One step of decoding.
  lemma DecodePlain(c: Byte, s: seq<Byte>)
    requires c != ESCAPE
    ensures DecodeLine([c] + s) == Line([Shift(c, -42)] + DecodeLine(s).data, DecodeLine(s).cut)
  {
    assert ([c] + s)[1..] == s;
  }

  lemma DecodeEscape(c: Byte, s: seq<Byte>)
    ensures DecodeLine([ESCAPE, c] + s) == Line([Shift(Shift(c, -64), -42)] + DecodeLine(s).data, DecodeLine(s).cut)
  {
    assert ([ESCAPE, c] + s)[2..] == s;
  }

  lemma Front(a: seq<Byte>, b: seq<Byte>, n: nat)
    requires n <= |a|
    ensures a + b == a[..n] + (a[n..] + b) && a == a[..n] + a[n..]
  {
  }

  lemma {:induction false} DecodeAppend(a: seq<Byte>, b: seq<Byte>)
    requires !DecodeLine(a).cut
    ensures DecodeLine(a + b) == Line(DecodeLine(a).data + DecodeLine(b).data, DecodeLine(b).cut)
    decreases |a|
  {
    if a == [] {
      assert a + b == b;
    } else if a[0] != ESCAPE {
      DecodeAppend(a[1..], b);
      Front(a, b, 1);
      assert a[..1] == [a[0]];
      DecodePlain(a[0], a[1..] + b);
      DecodePlain(a[0], a[1..]);
    } else {
      DecodeAppend(a[2..], b);
      Front(a, b, 2);
      assert a[..2] == [ESCAPE, a[1]];
      DecodeEscape(a[1], a[2..] + b);
      DecodeEscape(a[1], a[2..]);
    }
  }

  lemma ByteComesBack(c: Byte, atStart: bool)
    ensures DecodeLine(EncodeByte(c, atStart)) == Line([c], false)
  {
    var x := Shift(c, 42);
    if Critical(x, atStart) {
      var s := [ESCAPE, Shift(x, 64)];
      assert s[2..] == [];
    } else {
      assert [x][1..] == [];
    }
  }

  lemma CleanByte(c: Byte, atStart: bool)
    ensures var s := EncodeByte(c, atStart);
      && NUL !in s && CR !in s && LF !in s
      && (atStart ==> s[0] != DOT)
      && (s[0] == ESCAPE ==> |s| == 2 && s[1] != Y)
  {
  }

  lemma CleanAppend(line: seq<Byte>, c: Byte)
    requires Clean(line)
    ensures Clean(line + EncodeByte(c, line == []))
    ensures DecodeLine(line + EncodeByte(c, line == [])).data == DecodeLine(line).data + [c]
  {
    var s := EncodeByte(c, line == []);
    CleanByte(c, line == []);
    ByteComesBack(c, line == []);
    DecodeAppend(line, s);
    if line == [] {
      assert line + s == s;
    } else if |line| == 1 && line[0] == ESCAPE {
      assert false;
    }
  }

  // ------------------------------------------------------------- all lines

  ghost predicate Good(e: Encoded, t: seq<Byte>) {
    && (forall l <- e.lines :: DataLine(l))
    && |e.line| < LINE_LENGTH && Clean(e.line)
    && DecodeLines(e.lines) + DecodeLine(e.line).data == t
  }

  lemma {:induction false} DecodeLinesAppend(lines: seq<seq<Byte>>, line: seq<Byte>)
    ensures DecodeLines(lines + [line]) == DecodeLines(lines) + DecodeLine(line).data
  {
    if lines == [] {
      assert [line][1..] == [];
    } else {
      assert (lines + [line])[1..] == lines[1..] + [line];
      DecodeLinesAppend(lines[1..], line);
      var (a, b, c) := (DecodeLine(lines[0]).data, DecodeLines(lines[1..]), DecodeLine(line).data);
      assert a + (b + c) == a + b + c;
    }
  }

  lemma PushIsGood(e: Encoded, c: Byte, t: seq<Byte>)
    requires Good(e, t)
    ensures Good(Push(e, c), t + [c])
  {
    var line := e.line + EncodeByte(c, e.line == []);
    CleanAppend(e.line, c);
    assert DecodeLines(e.lines) + (DecodeLine(e.line).data + [c]) == t + [c];
    if |line| >= LINE_LENGTH {
      DecodeLinesAppend(e.lines, line);
      assert DecodeLine([]) == Line([], false);
    }
  }

  lemma {:induction false} PushAllIsGood(e: Encoded, u: seq<Byte>, t: seq<Byte>)
    requires Good(e, t)
    ensures Good(PushAll(e, u), t + u)
    decreases |u|
  {
    if u == [] {
      assert t + u == t;
    } else {
      PushIsGood(e, u[0], t);
      PushAllIsGood(Push(e, u[0]), u[1..], t + [u[0]]);
      assert t + u == t + [u[0]] + u[1..];
    }
  }

  // However the input is cut into writes, the lines are the same.
  lemma {:induction false} PushAllSplit(e: Encoded, t: seq<Byte>, u: seq<Byte>)
    ensures PushAll(e, t + u) == PushAll(PushAll(e, t), u)
    decreases |t|
  {
    if t == [] {
      assert t + u == u;
    } else {
      assert (t + u)[1..] == t[1..] + u;
      PushAllSplit(Push(e, t[0]), t[1..], u);
    }
  }

  const NOTHING := Encoded([], [])

  // Every line can be sent as it is, and the lines decode to what was written.
  lemma LinesComeBack(t: seq<Byte>)
    ensures var lines := Finish(PushAll(NOTHING, t));
      && (forall l <- lines :: DataLine(l))
      && DecodeLines(lines) == t
  {
    PushAllIsGood(NOTHING, t, []);
    assert [] + t == t;
    var e := PushAll(NOTHING, t);
    DecodeLinesAppend(e.lines, e.line);
  }

  lemma {:induction false} JoinedAppend(lines: seq<seq<Byte>>, line: seq<Byte>)
    ensures Joined(lines + [line]) == Joined(lines) + line + [CR, LF]
  {
    if lines == [] {
      assert [line][1..] == [];
      assert line + [CR, LF] + [] == [] + line + [CR, LF];
    } else {
      assert (lines + [line])[1..] == lines[1..] + [line];
      JoinedAppend(lines[1..], line);
    }
  }

  // What is sent for a byte, by the numbers: 42 is added, and a byte that must not be sent
  // as it is (NUL, LF, CR, the escape itself, or a dot at the start of a line) follows an
  // equals sign with 64 more.
  lemma OnTheWire(c: Byte, atStart: bool)
    ensures var (s, x) := (EncodeByte(c, atStart), (c + 42) % 256);
      if x == 0 || x == 10 || x == 13 || x == 61 || (atStart && x == 46) then s == [61, (c + 106) % 256] else s == [x]
  {
  }

  ghost predicate AllFull(lines: seq<seq<Byte>>) {
    forall l <- lines :: 990 <= |l| <= 991
  }

  lemma {:induction false} LinesAreFull(e: Encoded, t: seq<Byte>)
    requires AllFull(e.lines) && |e.line| < 990
    ensures var f := PushAll(e, t); AllFull(f.lines) && |f.line| < 990
    decreases |t|
  {
    if t != [] {
      LinesAreFull(Push(e, t[0]), t[1..]);
    }
  }

  // Every line but the last is full, up to an escape at its end.
  lemma OnlyLastShort(t: seq<Byte>)
    ensures var lines := Finish(PushAll(NOTHING, t)); lines != [] ==> AllFull(lines[..|lines| - 1]) && 0 < |lines[|lines| - 1]| <= 991
  {
    LinesAreFull(NOTHING, t);
    var (e, lines) := (PushAll(NOTHING, t), Finish(PushAll(NOTHING, t)));
    if e.line != [] {
      assert lines[..|lines| - 1] == e.lines;
    }
  }
}
