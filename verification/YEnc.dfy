// The yEnc writer and reader.
module YEnc {
  import opened Common
  import opened Source
  import opened BufReader
  import opened YEncText

  // A writer that takes everything.
  class Sink {
    var out: seq<Byte>

    constructor ()
      ensures out == []
    {
      out := [];
    }

    method Write(b: seq<Byte>)
      modifies this
      ensures out == old(out) + b
    {
      out := out + b;
    }
  }

  class YEncoder {
    const buf: array<Byte>
    var bufi: nat
    const w: Sink
    ghost var done: seq<seq<Byte>>

    // The lines finished so far are out, except that the last one may still be in the buffer.
    ghost predicate Valid()
      reads this, buf, w
    {
      && buf.Length == BUFFER_LENGTH && bufi <= LINE_LENGTH + 3
      && (bufi < LINE_LENGTH ==> w.out == Joined(done) && LF !in buf[..bufi])
      && (bufi >= LINE_LENGTH ==> w.out + buf[..bufi] == Joined(done) && buf[bufi - 1] == LF)
    }

    ghost function Now(): Encoded
      requires Valid()
      reads this, buf, w
    {
      Encoded(done, if bufi >= LINE_LENGTH then [] else buf[..bufi])
    }

    constructor (w: Sink)
      requires w.out == []
      ensures Valid() && fresh(buf) && this.w == w && Now() == NOTHING
    {
      this.w, bufi, done := w, 0, [];
      buf := new Byte[BUFFER_LENGTH](_ => 0);
    }

    // A finished line leaves the buffer when the next byte comes.
    method Flush()
      requires Valid() && bufi >= LINE_LENGTH
      modifies this, w
      ensures Valid() && bufi == 0 && done == old(done) && Now() == old(Now()) && w.out == Joined(done)
    {
      w.Write(buf[..bufi]);
      bufi := 0;
    }

    method EndLine(ghost line: seq<Byte>)
      requires buf.Length == BUFFER_LENGTH && 0 < bufi <= LINE_LENGTH + 1 && buf[..bufi] == line && w.out == Joined(done)
      modifies this, buf
      ensures bufi == old(bufi) + 2 && done == old(done) + [line]
      ensures w.out + buf[..bufi] == Joined(done) && buf[bufi - 1] == LF
    {
      buf[bufi], buf[bufi + 1] := CR, LF;
      bufi := bufi + 2;
      done := done + [line];
      assert buf[..bufi] == line + [CR, LF];
      JoinedAppend(old(done), line);
    }

    // The loop body of Write.
    method WriteByte(c: Byte)
      requires Valid()
      modifies this, buf, w
      ensures Valid() && Now() == Push(old(Now()), c)
    {
      if bufi >= LINE_LENGTH {
        Flush();
      }
      ghost var line := buf[..bufi];
      ghost var s := EncodeByte(c, line == []);
      CleanByte(c, line == []);
      var x := Shift(c, 42);
      if x == NUL || x == CR || x == LF || x == ESCAPE || (bufi == 0 && x == DOT) {
        x := Shift(x, 64);
        buf[bufi] := ESCAPE;
        bufi := bufi + 1;
      }
      buf[bufi] := x;
      bufi := bufi + 1;
      assert buf[..bufi] == line + s;
      if bufi >= LINE_LENGTH {
        EndLine(line + s);
      }
    }

    method Write(b: seq<Byte>) returns (n: nat)
      requires Valid()
      modifies this, buf, w
      ensures Valid() && n == |b| && Now() == PushAll(old(Now()), b)
    {
      assert b[..0] == [];
      for i := 0 to |b|
        invariant Valid() && Now() == PushAll(old(Now()), b[..i])
      {
        PushAllSplit(old(Now()), b[..i], [b[i]]);
        assert b[..i + 1] == b[..i] + [b[i]];
        assert [b[i]][1..] == [];
        WriteByte(b[i]);
      }
      assert b[..|b|] == b;
      return |b|;
    }

    method Close()
      requires Valid()
      modifies this, buf, w
      ensures Valid() && bufi == 0 && w.out == Joined(Finish(old(Now())))
    {
      if bufi != 0 {
        if buf[bufi - 1] != LF {
          assert bufi < LINE_LENGTH;
          EndLine(buf[..bufi]);
        }
        w.Write(buf[..bufi]);
        bufi := 0;
      }
    }
  }

  // ----------------------------------------------------------------- decoder

  // The line without its end.
  function Strip(raw: seq<Byte>): seq<Byte> {
    var s := if raw != [] && raw[|raw| - 1] == LF then raw[..|raw| - 1] else raw;
    if s != [] && s[|s| - 1] == CR then s[..|s| - 1] else s
  }

  class YDecoder {
    const br: BufReader
    const line: array<Byte>
    var linex: nat
    var linelen: nat

    ghost predicate Valid()
      reads this, line, br
    {
      && line.Length == BUFFER_LENGTH && linex <= linelen <= BUFFER_LENGTH
      && br.Valid() && br.b != line
    }

    function Cached(): seq<Byte>
      requires Valid()
      reads this, line, br
    {
      line[linex..linelen]
    }

    function Pending(): seq<Item>
      requires Valid()
      reads this, line, br, br.b, br.u
    {
      br.Pending()
    }

    constructor (br: BufReader)
      requires br.Valid()
      ensures Valid() && fresh(line) && this.br == br && Cached() == []
    {
      this.br, linex, linelen := br, 0, 0;
      line := new Byte[BUFFER_LENGTH](_ => 0);
    }

    // Puts a decoded byte in place of one that has been read.
    method Put(x: Byte)
      requires linelen < line.Length
      modifies this`linelen, line
      ensures linelen == old(linelen) + 1 && line[..linelen] == old(line[..linelen]) + [x]
      ensures line[linelen..] == old(line[linelen + 1..])
    {
      line[linelen] := x;
      linelen := linelen + 1;
    }

    // Decodes the first n bytes of the line in place.
    method Decode(n: nat) returns (cut: bool)
      requires line.Length == BUFFER_LENGTH && n <= BUFFER_LENGTH
      modifies this, line
      ensures linex == 0 && linelen <= n
      ensures Line(line[..linelen], cut) == DecodeLine(old(line[..n]))
    {
      ghost var raw := line[..n];
      linex, linelen, cut := 0, 0, false;
      var i := 0;
      while i < n
        invariant linex == 0 && linelen <= i <= n
        invariant forall j :: i <= j < n ==> line[j] == raw[j]
        invariant DecodedUpTo(raw, i, line[..linelen])
      {
        DecodeStep(raw, i, line[..linelen]);
        var c := line[i];
        if c == ESCAPE {
          i := i + 1;
          if i >= n {
            cut := true;
            return;
          }
          c := Shift(line[i], -64);
        }
        ghost var was := line[..];
        Put(Shift(c, -42));
        i := i + 1;
        forall j | i <= j < n ensures line[j] == raw[j] {
          assert line[linelen..][j - linelen] == was[linelen..][j - linelen];
        }
      }
      assert raw[n..] == [];
      assert line[..linelen] + [] == line[..linelen];
    }

    method ReadRaw() returns (n: nat, err: Option<Error>)
      requires Valid()
      modifies line, br, br.b, br.u
      ensures Valid() && n <= BUFFER_LENGTH && LineRead(old(Pending()), line[..n], err, Pending())
    {
      n, err := br.ReadUntil(line, LF);
      if err.None? {
        assert forall i :: 0 <= i < n - 1 ==> line[i] == line[..n - 1][i];
      }
    }

    method Trim(n: nat) returns (m: nat)
      requires n <= line.Length
      ensures m <= n && line[..m] == Strip(line[..n])
    {
      m := n;
      if m > 0 && line[m - 1] == LF {
        m := m - 1;
      }
      assert line[..n][..m] == line[..m];
      if m > 0 && line[m - 1] == CR {
        m := m - 1;
      }
    }

    // Reads the next line into the buffer. Lines that start with =y hold no data; for a
    // line of less than two bytes the test sees what was in the buffer before.
    method Fetch() returns (err: Option<Error>, ghost raw: seq<Byte>, ghost e: Option<Error>, ghost skipped: bool)
      requires Valid() && linex == linelen
      modifies this, line, br, br.b, br.u
      ensures Valid() && LineRead(old(Pending()), raw, e, Pending())
      ensures |raw| >= 2 ==> (skipped <==> raw[0] == ESCAPE && raw[1] == Y)
      ensures skipped ==> Cached() == [] && err == e
      ensures !skipped ==> Cached() == DecodeLine(Strip(raw)).data
      ensures !skipped ==> err == if e.None? && DecodeLine(Strip(raw)).cut then Some(UnterminatedEscape) else e
    {
      var n;
      n, err := ReadRaw();
      raw, e, skipped := line[..n], err, false;
      n := Trim(n);
      if line[0] == ESCAPE && line[1] == Y {
        skipped := true;
        assert Cached() == [];
        return;
      }
      var cut := Decode(n);
      assert Cached() == line[..linelen];
      if cut && err.None? {
        err := Some(UnterminatedEscape);
      }
    }

    // The stream holds these lines of data, and nothing else.
    ghost predicate Holds(lines: seq<seq<Byte>>)
      requires Valid()
      reads this, line, br, br.b, br.u
    {
      (forall l <- lines :: DataLine(l)) && Pending() == Bytes(Joined(lines))
    }

    // What is left to hand out.
    ghost function Text(lines: seq<seq<Byte>>): seq<Byte>
      requires Valid()
      reads this, line, br
    {
      Cached() + DecodeLines(lines)
    }

    method FetchLine(ghost lines: seq<seq<Byte>>) returns (err: Option<Error>, ghost left: seq<seq<Byte>>)
      requires Valid() && linex == linelen
      modifies this, line, br, br.b, br.u
      ensures Valid() && (err.None? ==> |Pending()| < |old(Pending())|)
      ensures old(Holds(lines)) ==> Holds(left) && old(Text(lines)) == Text(left)
      ensures old(Holds(lines)) && err.Some? ==> err == Some(EOF) && old(Text(lines)) == [] && Cached() == []
    {
      ghost var items := Pending();
      ghost var raw, e, skipped;
      err, raw, e, skipped := Fetch();
      left := lines;
      assert err.None? ==> |Bytes(raw)| > 0;
      if (forall l <- lines :: DataLine(l)) && items == Bytes(Joined(lines)) {
        HeldLine(lines, raw, e, Pending());
        left := if lines == [] then [] else lines[1..];
      }
    }

    // Hands out the rest of the current line, or of the next one that is not empty. For a
    // stream of data lines that is the text they decode to, whatever the sizes asked for,
    // and the only error is EOF at its end.
    method Read(size: nat, ghost lines: seq<seq<Byte>>)
      returns (p: seq<Byte>, err: Option<Error>, ghost left: seq<seq<Byte>>)
      requires Valid()
      modifies this, line, br, br.b, br.u
      ensures Valid() && |p| <= size
      ensures old(Holds(lines)) ==> Holds(left) && old(Text(lines)) == p + Text(left)
      ensures old(Holds(lines)) && err.None? && size > 0 ==> p != []
      ensures old(Holds(lines)) && err.Some? ==> err == Some(EOF) && p == [] && old(Text(lines)) == []
    {
      left, err := lines, None;
      while linex == linelen
        invariant Valid()
        invariant old(Holds(lines)) ==> Holds(left) && old(Text(lines)) == Text(left)
        invariant old(Holds(lines)) && err.Some? ==> err == Some(EOF) && old(Text(lines)) == [] && Cached() == []
        decreases err.None?, |Pending()|
      {
        if err.Some? {
          assert [] + Text(left) == Text(left);
          return [], err, left;
        }
        err, left := FetchLine(left);
      }
      var n := Min(size, linelen - linex);
      p := line[linex..linex + n];
      assert Text(left) == p + (line[linex + n..linelen] + DecodeLines(left));
      linex := linex + n;
    }
  }

  // The line read from a stream of data lines.
  lemma HeldLine(lines: seq<seq<Byte>>, raw: seq<Byte>, e: Option<Error>, rest: seq<Item>)
    requires forall l <- lines :: DataLine(l)
    requires LineRead(Bytes(Joined(lines)), raw, e, rest)
    ensures lines == [] ==> raw == [] && e == Some(EOF) && rest == []
    ensures lines != [] ==> |raw| >= 2 && !(raw[0] == ESCAPE && raw[1] == Y) && Strip(raw) == lines[0] && !DecodeLine(lines[0]).cut
    ensures lines != [] ==> e.None? && rest == Bytes(Joined(lines[1..]))
  {
    if lines == [] {
      assert Bytes(Joined(lines)) == [];
      NoLine(raw, e, rest);
    } else {
      assert DataLine(lines[0]);
      FirstLine(lines[0], Joined(lines[1..]), raw, e, rest);
      StripsEnd(lines[0]);
    }
  }

  lemma StripsEnd(line: seq<Byte>)
    requires Clean(line)
    ensures Strip(line + [CR, LF]) == line
  {
    var raw := line + [CR, LF];
    assert raw[..|raw| - 1] == line + [CR];
    assert (line + [CR])[..|line|] == line;
  }

  // What BufReader.ReadUntil says about the line it read.
  ghost predicate LineRead(items: seq<Item>, raw: seq<Byte>, e: Option<Error>, rest: seq<Item>) {
    && |raw| <= BUFFER_LENGTH
    && (e.None? ==> raw != [] && raw[|raw| - 1] == LF && items == Bytes(raw) + rest)
    && (e.None? ==> forall i :: 0 <= i < |raw| - 1 ==> raw[i] != LF)
    && (e.Some? ==> LF !in raw)
    && (e.Some? ==>
      || items == Bytes(raw) + Then(e, rest)
      || (e == Some(DelimNotFound) && |raw| == BUFFER_LENGTH && items == Bytes(raw) + rest))
  }

  lemma NoLine(raw: seq<Byte>, e: Option<Error>, rest: seq<Item>)
    requires LineRead([], raw, e, rest)
    ensures raw == [] && e == Some(EOF) && rest == []
  {
    var items: seq<Item> := [];
    assert e.None? ==> items == Bytes(raw) + rest;
    assert |Bytes(raw)| == 0;
  }

  lemma FirstLine(line: seq<Byte>, tail: seq<Byte>, raw: seq<Byte>, e: Option<Error>, rest: seq<Item>)
    requires LF !in line && |line| + 2 <= BUFFER_LENGTH
    requires LineRead(Bytes(line + [CR, LF] + tail), raw, e, rest)
    ensures raw == line + [CR, LF] && e.None? && rest == Bytes(tail)
  {
    var (s, k) := (line + [CR, LF] + tail, |line| + 1);
    var items := Bytes(s);
    assert s[k] == LF && forall i :: 0 <= i < k ==> s[i] != LF;
    assert forall i :: 0 <= i < |raw| ==> items[i] == Item.Byte(raw[i]);
    assert forall i :: 0 <= i < |raw| ==> raw[i] == s[i];
    assert |raw| > k ==> raw[k] == LF;
    ErrorAfter(raw, e, rest);
    assert items[..|raw|] == Bytes(raw) && items[|raw|..] == Bytes(s[|raw|..]);
    assert |raw| == k + 1;
    assert s[..k + 1] == line + [CR, LF] && s[k + 1..] == tail;
  }

  lemma ErrorAfter(raw: seq<Byte>, e: Option<Error>, rest: seq<Item>)
    ensures e.Some? ==> var items := Bytes(raw) + Then(e, rest); |items| == |raw| || items[|raw|].Fail?
  {
  }

  ghost predicate DecodedUpTo(raw: seq<Byte>, i: nat, got: seq<Byte>)
    requires i <= |raw|
  {
    DecodeLine(raw) == Line(got + DecodeLine(raw[i..]).data, DecodeLine(raw[i..]).cut)
  }

  lemma DecodeStep(raw: seq<Byte>, i: nat, got: seq<Byte>)
    requires i < |raw| && DecodedUpTo(raw, i, got)
    ensures raw[i] != ESCAPE ==> DecodedUpTo(raw, i + 1, got + [Shift(raw[i], -42)])
    ensures raw[i] == ESCAPE && i + 1 < |raw| ==> DecodedUpTo(raw, i + 2, got + [Shift(Shift(raw[i + 1], -64), -42)])
    ensures raw[i] == ESCAPE && i + 1 == |raw| ==> DecodeLine(raw) == Line(got, true)
  {
    var rest := raw[i..];
    if raw[i] != ESCAPE {
      assert rest[1..] == raw[i + 1..];
      var (c, d) := (Shift(raw[i], -42), DecodeLine(raw[i + 1..]).data);
      assert got + ([c] + d) == got + [c] + d;
    } else if i + 1 < |raw| {
      assert rest[1] == raw[i + 1] && rest[2..] == raw[i + 2..];
      var (c, d) := (Shift(Shift(raw[i + 1], -64), -42), DecodeLine(raw[i + 2..]).data);
      assert got + ([c] + d) == got + [c] + d;
    } else {
      assert got + [] == got;
    }
  }
}
