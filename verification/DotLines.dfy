// What the dot reader makes of any block, well-formed or not, line by line.
module DotLines {
  import opened Common
  import opened Source
  import opened BufReader
  import opened DotReader

  // A dot at the front of a line is dropped, whatever follows it.
  function Body(x: seq<Byte>): seq<Byte> {
    if x != [] && x[0] == DOT then x[1..] else x
  }

  // A CR right before the LF belongs to the end of the line.
  function StripCR(y: seq<Byte>): seq<Byte> {
    if y != [] && y[|y| - 1] == CR then y[..|y| - 1] else y
  }

  // The line does not end with CRLF, or there is another CR in it.
  predicate BadEnd(y: seq<Byte>) {
    y == [] || y[|y| - 1] != CR || CR in y[..|y| - 1]
  }

  predicate EndsBlock(x: seq<Byte>) {
    x == [DOT] || x == [DOT, CR]
  }

  type Line = x: seq<Byte> | LF !in x witness []

  function Sent(lines: seq<Line>): seq<Byte> {
    if lines == [] then [] else lines[0] + [LF] + Sent(lines[1..])
  }

  function Text(lines: seq<Line>): seq<Byte> {
    if lines == [] then [] else StripCR(Body(lines[0])) + [LF] + Text(lines[1..])
  }

  // ------------------------------------------------------------- everything

  function All(s: State, items: seq<Item>): Taken {
    TakeText(-1, s, items)
  }

  lemma {:induction false} AnyNegative(n: int, m: int, s: State, items: seq<Item>)
    requires n < 0 && m < 0
    ensures TakeText(n, s, items) == TakeText(m, s, items)
    decreases Measure(s, items)
  {
    var next := NextByte(s, items);
    if next.Got? {
      AnyNegative(n - 1, m - 1, next.state, next.rest);
    }
  }

  lemma AllNext(s: State, items: seq<Item>)
    ensures var next := NextByte(s, items);
      next.Got? ==> All(s, items) == After([next.c], All(next.state, next.rest))
    ensures !NextByte(s, items).Got? ==> All(s, items).data == []
  {
    var next := NextByte(s, items);
    if next.Got? {
      AnyNegative(-2, -1, next.state, next.rest);
    }
  }

  lemma SameNext(s: State, items: seq<Item>, s': State, items': seq<Item>)
    requires NextByte(s, items) == NextByte(s', items')
    ensures All(s, items) == All(s', items')
  {
  }

  // One byte of the block.
  lemma FeedAll(s: State, c: Byte, tail: seq<Byte>, rest: seq<Item>)
    requires s.pos != Ended
    ensures var (f, items) := (Feed(s, c), Bytes([c] + tail) + rest);
      All(s, items) ==
        if f.out.Some? then After([f.out.value], All(f.state, if f.unread then items else Bytes(tail) + rest))
        else All(f.state, Bytes(tail) + rest)
  {
    var (f, items) := (Feed(s, c), Bytes([c] + tail) + rest);
    FeedFront(s, c, tail, rest);
    AllNext(s, items);
    if f.out.None? {
      SameNext(s, items, f.state, Bytes(tail) + rest);
    }
  }

  // --------------------------------------------------------------- one line

  // The rest y of a line, from the middle of it on.
  lemma {:induction false} InLine(s: State, y: seq<Byte>, tail: seq<Byte>, rest: seq<Item>)
    requires LF !in y && (s.pos == NonBegin || (s.pos == BeginLine && (y == [] || y[0] != DOT)))
    ensures All(s, Bytes(y + [LF] + tail) + rest)
      == After(StripCR(y) + [LF], All(State(BeginLine, s.bad || BadEnd(y)), Bytes(tail) + rest))
    decreases |y|
  {
    if y == [] {
      assert y + [LF] + tail == [LF] + tail;
      FeedAll(s, LF, tail, rest);
    } else {
      var more := y[1..] + [LF] + tail;
      assert y + [LF] + tail == [y[0]] + more;
      FeedAll(s, y[0], more, rest);
      if y[0] != CR {
        InLine(State(NonBegin, s.bad), y[1..], tail, rest);
        PlainFirst(y, All(State(BeginLine, s.bad || BadEnd(y)), Bytes(tail) + rest));
      } else if |y| == 1 {
        assert more == [LF] + tail;
        FeedAll(State(InCR, s.bad), LF, tail, rest);
      } else {
        assert more == [y[1]] + (y[2..] + [LF] + tail);
        FeedAll(State(InCR, s.bad), y[1], y[2..] + [LF] + tail, rest);
        InLine(State(NonBegin, true), y[1..], tail, rest);
        BareCR(y);
        PlainFirst(y, All(State(BeginLine, true), Bytes(tail) + rest));
      }
    }
  }

  lemma PlainFirst(y: seq<Byte>, t: Taken)
    requires y != [] && (y[0] != CR || |y| > 1)
    ensures After([y[0]], After(StripCR(y[1..]) + [LF], t)) == After(StripCR(y) + [LF], t)
    ensures y[0] != CR ==> BadEnd(y[1..]) == BadEnd(y)
  {
    var z := y[1..];
    assert StripCR(y) == [y[0]] + StripCR(z);
    assert [y[0]] + ((StripCR(z) + [LF]) + t.data) == (StripCR(y) + [LF]) + t.data;
    if z != [] && y[0] != CR {
      assert y[..|y| - 1] == [y[0]] + z[..|z| - 1];
    }
  }

  lemma BareCR(y: seq<Byte>)
    requires |y| > 1 && y[0] == CR
    ensures BadEnd(y)
  {
    assert y[..|y| - 1][0] == CR;
  }

  // Behind the dot a line goes on like any other.
  lemma DottedLine(bad: bool, y: seq<Byte>, tail: seq<Byte>, rest: seq<Item>)
    requires LF !in y && y != [] && y != [CR]
    ensures All(State(Dot, bad), Bytes(y + [LF] + tail) + rest) == All(State(NonBegin, bad), Bytes(y + [LF] + tail) + rest)
  {
    var more := y[1..] + [LF] + tail;
    assert y + [LF] + tail == [y[0]] + more;
    FeedAll(State(Dot, bad), y[0], more, rest);
    FeedAll(State(NonBegin, bad), y[0], more, rest);
    if y[0] == CR {
      assert more == [y[1]] + (y[2..] + [LF] + tail);
      FeedAll(State(DotCR, bad), y[1], y[2..] + [LF] + tail, rest);
      FeedAll(State(InCR, bad), y[1], y[2..] + [LF] + tail, rest);
    }
  }

  lemma OneLine(bad: bool, x: Line, tail: seq<Byte>, rest: seq<Item>)
    requires !EndsBlock(x)
    ensures All(State(BeginLine, bad), Bytes(x + [LF] + tail) + rest)
      == After(StripCR(Body(x)) + [LF], All(State(BeginLine, bad || BadEnd(Body(x))), Bytes(tail) + rest))
  {
    if x != [] && x[0] == DOT {
      var y := x[1..];
      assert x == [DOT] + y;
      assert x + [LF] + tail == [DOT] + (y + [LF] + tail);
      FeedAll(State(BeginLine, bad), DOT, y + [LF] + tail, rest);
      DottedLine(bad, y, tail, rest);
      InLine(State(NonBegin, bad), y, tail, rest);
    } else {
      InLine(State(BeginLine, bad), x, tail, rest);
    }
  }

  lemma LastLine(bad: bool, x: Line, rest: seq<Item>)
    requires EndsBlock(x)
    ensures All(State(BeginLine, bad), Bytes(x + [LF]) + rest) == Taken([], Some(EOF), State(Ended, bad || x == [DOT]), rest)
  {
    assert Bytes([]) + rest == rest;
    if x == [DOT] {
      assert x + [LF] == [DOT] + [LF] && [LF] == [LF] + [];
      FeedAll(State(BeginLine, bad), DOT, [LF], rest);
      FeedAll(State(Dot, bad), LF, [], rest);
    } else {
      assert x + [LF] == [DOT] + [CR, LF] && [CR, LF] == [CR] + [LF] && [LF] == [LF] + [];
      FeedAll(State(BeginLine, bad), DOT, [CR, LF], rest);
      FeedAll(State(Dot, bad), CR, [LF], rest);
      FeedAll(State(DotCR, bad), LF, [], rest);
    }
  }

  // ---------------------------------------------------------------- a block

  predicate SomeBad(lines: seq<Line>) {
    exists i :: 0 <= i < |lines| && BadEnd(Body(lines[i]))
  }

  // Every block: lines up to the first one that is a dot alone. Each gives its text without
  // the dot in front and the CR at its end; what stands behind the last one is left; and
  // ends of lines that are not CRLF are noticed.
  lemma {:induction false} AnyBlock(bad: bool, lines: seq<Line>, end: Line, rest: seq<Item>)
    requires EndsBlock(end) && forall i :: 0 <= i < |lines| ==> !EndsBlock(lines[i])
    ensures All(State(BeginLine, bad), Bytes(Sent(lines) + end + [LF]) + rest)
      == Taken(Text(lines), Some(EOF), State(Ended, bad || SomeBad(lines) || end == [DOT]), rest)
    decreases |lines|
  {
    if lines == [] {
      assert Sent(lines) + end + [LF] == end + [LF];
      LastLine(bad, end, rest);
    } else {
      var (x, more) := (lines[0], lines[1..]);
      var bad' := bad || BadEnd(Body(x));
      assert Sent(lines) + end + [LF] == x + [LF] + (Sent(more) + end + [LF]);
      OneLine(bad, x, Sent(more) + end + [LF], rest);
      AnyBlock(bad', more, end, rest);
      FirstOrLater(lines);
    }
  }

  lemma FirstOrLater(lines: seq<Line>)
    requires lines != []
    ensures SomeBad(lines) <==> BadEnd(Body(lines[0])) || SomeBad(lines[1..])
  {
    if SomeBad(lines) && !BadEnd(Body(lines[0])) {
      var i :| 0 <= i < |lines| && BadEnd(Body(lines[i]));
      assert lines[1..][i - 1] == lines[i];
    }
    if SomeBad(lines[1..]) {
      var i :| 0 <= i < |lines[1..]| && BadEnd(Body(lines[1..][i]));
      assert lines[i + 1] == lines[1..][i];
    }
  }
}
