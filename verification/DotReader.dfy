// Reading a dot-stuffed block (section 3.1.1 of RFC 3977) as text with LF line ends.
module DotReader {
  import opened Common
  import opened Source
  import opened BufReader

  const CR: Byte := 13
  const LF: Byte := 10
  const DOT: Byte := 46

  datatype Pos = BeginLine | Dot | NonBegin | DotCR | InCR | Ended

  // The parser's state, and whether it has seen a CR or LF that does not match.
  datatype State = State(pos: Pos, bad: bool)

  // What the parser does with a byte: its new state, the byte to deliver if there is one,
  // and whether the byte is put back.
  datatype Fed = Fed(state: State, out: Option<Byte>, unread: bool)

  function Feed(s: State, c: Byte): Fed {
    match s.pos
    case BeginLine =>
      if c == DOT then Fed(s.(pos := Dot), None, false)
      else if c == CR then Fed(s.(pos := InCR), None, false)
      else if c != LF then Fed(s.(pos := NonBegin), Some(c), false)
      else Fed(State(BeginLine, true), Some(c), false)
    case Dot =>
      if c == CR then Fed(s.(pos := DotCR), None, false)
      else if c == LF then Fed(State(Ended, true), None, false)
      else Fed(s.(pos := NonBegin), Some(c), false)
    case NonBegin =>
      if c == CR then Fed(s.(pos := InCR), None, false)
      else if c == LF then Fed(State(BeginLine, true), Some(c), false)
      else Fed(s, Some(c), false)
    case DotCR =>
      if c == LF then Fed(s.(pos := Ended), None, false)
      else Fed(State(NonBegin, true), Some(CR), true)
    case InCR =>
      if c == LF then Fed(s.(pos := BeginLine), Some(c), false)
      else Fed(State(NonBegin, true), Some(CR), true)
    case Ended => Fed(s, Some(c), false)
  }

  // What reading one byte of text comes to, and what is left.
  datatype Next =
    | Got(c: Byte, state: State, rest: seq<Item>)
    | Finished(state: State, rest: seq<Item>)
    | Failed(e: Error, state: State, rest: seq<Item>)

  function Unexpected(e: Error): Error {
    if e == EOF then UnexpectedEOF else e
  }

  function NextByte(s: State, items: seq<Item>): (r: Next)
    ensures r.Got? ==> Measure(r.state, r.rest) < Measure(s, items)
    ensures r.Got? ==> r.state.pos != Ended
    ensures r.Finished? <==> r.state.pos == Ended
    decreases |items|
  {
    if s.pos == Ended then Finished(s, items)
    else if items == [] then Failed(UnexpectedEOF, s, [])
    else if items[0].Fail? then Failed(Unexpected(items[0].e), s, items[1..])
    else
      var f := Feed(s, items[0].b);
      var rest := if f.unread then items else items[1..];
      if f.out.Some? then Got(f.out.value, f.state, rest) else NextByte(f.state, rest)
  }

  // A byte that is put back makes the stream longer, but leaves the parser in the middle
  // of a line.
  function Measure(s: State, items: seq<Item>): nat {
    2 * |items| + if s.pos == DotCR || s.pos == InCR then 1 else 0
  }

  datatype Taken = Taken(data: seq<Byte>, e: Option<Error>, state: State, rest: seq<Item>)

  // What reading up to n bytes of text comes to, or with a negative n all of it.
  function TakeText(n: int, s: State, items: seq<Item>): (r: Taken)
    ensures n >= 0 ==> |r.data| <= n
    decreases Measure(s, items)
  {
    if n == 0 then Taken([], if s.pos == Ended then Some(EOF) else None, s, items)
    else
      match NextByte(s, items)
      case Finished(s', rest) => Taken([], Some(EOF), s', rest)
      case Failed(e, s', rest) => Taken([], Some(e), s', rest)
      case Got(c, s', rest) =>
        var t := TakeText(n - 1, s', rest);
        t.(data := [c] + t.data)
  }

  // Where a reading of text has got to: some bytes, and then t.
  function After(got: seq<Byte>, t: Taken): Taken {
    t.(data := got + t.data)
  }

  lemma AfterByte(got: seq<Byte>, c: Byte, t: Taken)
    ensures After(got, After([c], t)) == After(got + [c], t)
  {
    assert got + ([c] + t.data) == got + [c] + t.data;
  }

  lemma FedNext(s: State, c: Byte, rest: seq<Item>)
    requires s.pos != Ended
    ensures var (f, items) := (Feed(s, c), [Item.Byte(c)] + rest); var left := if f.unread then items else rest;
      && NextByte(s, items) == (if f.out.Some? then Got(f.out.value, f.state, left) else NextByte(f.state, left))
      && Measure(f.state, left) < Measure(s, items)
  {
    var items := [Item.Byte(c)] + rest;
    assert items[0].b == c && items[1..] == rest;
  }

  class DotReader {
    const r: BufReader
    var s: Pos
    var badnl: bool

    ghost predicate Valid()
      reads this, r
    {
      r.Valid()
    }

    function Now(): State
      reads this
    {
      State(s, badnl)
    }

    function Pending(): seq<Item>
      requires Valid()
      reads this, r, r.b, r.u
    {
      r.Pending()
    }

    constructor (r: BufReader)
      requires r.Valid()
      ensures this.r == r && Now() == State(BeginLine, false)
    {
      this.r, s, badnl := r, BeginLine, false;
    }

    method Reset()
      modifies this
      ensures Now() == State(BeginLine, false)
    {
      s, badnl := BeginLine, false;
    }

    // The byte has just been read, so putting it back cannot fail.
    method Process(c: Byte) returns (c': Byte, v: bool)
      requires Valid() && r.r > 0
      modifies this`s, this`badnl, r`r, r`w, r.b
      ensures Valid() && Now() == Feed(old(Now()), c).state
      ensures v == Feed(old(Now()), c).out.Some? && (v ==> c' == Feed(old(Now()), c).out.value)
      ensures Pending() == if Feed(old(Now()), c).unread then [Item.Byte(c)] + old(Pending()) else old(Pending())
    {
      match s {
        case BeginLine =>
          if c == DOT {
            s := Dot;
            return 0, false;
          }
          if c == CR {
            s := InCR;
            return 0, false;
          }
          if c != LF {
            s := NonBegin;
          } else {
            badnl := true;
            s := BeginLine;
          }
        case Dot =>
          if c == CR {
            s := DotCR;
            return 0, false;
          }
          if c == LF {
            badnl := true;
            s := Ended;
            return 0, false;
          }
          s := NonBegin;
        case NonBegin =>
          if c == CR {
            s := InCR;
            return 0, false;
          }
          if c == LF {
            badnl := true;
            s := BeginLine;
          }
        case DotCR =>
          if c == LF {
            s := Ended;
            return 0, false;
          }
          badnl := true;
          var ok := r.UnreadByte(c);
          s := NonBegin;
          return CR, true;
        case InCR =>
          if c == LF {
            s := BeginLine;
          } else {
            badnl := true;
            var ok := r.UnreadByte(c);
            s := NonBegin;
            return CR, true;
          }
        case Ended =>
      }
      return c, true;
    }

    // A byte is read and given to the parser.
    method Turn() returns (c: Byte, v: bool, e: Option<Error>)
      requires Valid() && s != Ended
      modifies this, r, r.b, r.u
      ensures Valid()
      ensures NextByte(old(Now()), old(Pending())) ==
        if e.Some? then Failed(e.value, Now(), Pending())
        else if v then Got(c, Now(), Pending())
        else NextByte(Now(), Pending())
      ensures e.None? ==> Measure(Now(), Pending()) < Measure(old(Now()), old(Pending()))
      ensures e.Some? || v ==> s != Ended
    {
      v := false;
      c, e := r.ReadByte();
      if e.Some? {
        if e == Some(EOF) {
          e := Some(UnexpectedEOF);
        }
        return;
      }
      FedNext(Now(), c, Pending());
      c, v := Process(c);
    }

    // What reading up to size bytes is going to come to, when it has got some already.
    ghost function Prospect(size: int, got: seq<Byte>): Taken
      requires Valid()
      reads this, r, r.b, r.u
    {
      After(got, TakeText(size - |got|, Now(), Pending()))
    }

    // One turn of the loops that read text.
    method TextTurn(size: int, ghost got: seq<Byte>) returns (c: Byte, v: bool, e: Option<Error>, ghost got': seq<Byte>)
      requires Valid() && s != Ended && size != |got|
      modifies this, r, r.b, r.u
      ensures Valid() && got' == if e.None? && v then got + [c] else got
      ensures old(Prospect(size, got)) == if e.Some? then Taken(got, e, Now(), Pending()) else Prospect(size, got')
      ensures e.None? ==> Measure(Now(), Pending()) < Measure(old(Now()), old(Pending()))
    {
      got' := got;
      c, v, e := Turn();
      if e.Some? {
        assert got + [] == got;
      } else if v {
        got' := got + [c];
        AfterByte(got, c, TakeText(size - |got'|, Now(), Pending()));
      }
    }

    // Nothing is left to read.
    lemma TextEnds(size: int, got: seq<Byte>)
      requires Valid() && (size == |got| || s == Ended)
      ensures Prospect(size, got) == Taken(got, if s == Ended then Some(EOF) else None, Now(), Pending())
    {
      assert got + [] == got;
    }

    method ReadByte() returns (c: Byte, e: Option<Error>)
      requires Valid()
      modifies this, r, r.b, r.u
      ensures Valid()
      ensures NextByte(old(Now()), old(Pending())) ==
        if e.None? then Got(c, Now(), Pending())
        else if s == Ended then Finished(Now(), Pending())
        else Failed(e.value, Now(), Pending())
      ensures s == Ended ==> e == Some(EOF)
    {
      c, e := 0, None;
      var v := false;
      while s != Ended && !v
        invariant Valid() && e.None?
        invariant NextByte(old(Now()), old(Pending())) ==
          if v then Got(c, Now(), Pending()) else NextByte(Now(), Pending())
        decreases !v, Measure(Now(), Pending())
      {
        c, v, e := Turn();
        if e.Some? {
          return;
        }
      }
      if s == Ended {
        e := Some(EOF);
      }
    }

    method Read(l: nat) returns (b: seq<Byte>, e: Option<Error>)
      requires Valid()
      modifies this, r, r.b, r.u
      ensures Valid()
      ensures TakeText(l, old(Now()), old(Pending())) == Taken(b, e, Now(), Pending())
    {
      ghost var (all, got) := (TakeText(l, Now(), Pending()), []);
      assert all == Prospect(l, got);
      b, e := [], None;
      while |b| < l && s != Ended
        invariant Valid() && got == b && |b| <= l && all == Prospect(l, got)
        decreases Measure(Now(), Pending())
      {
        var c, v;
        c, v, e, got := TextTurn(l, got);
        if e.Some? {
          return;
        }
        if v {
          b := b + [c];
        }
      }
      TextEnds(l, got);
      e := if s == Ended then Some(EOF) else None;
    }

    // Skips up to size bytes of text, or with a negative size all of it.
    method Discard(size: int) returns (n: nat, e: Option<Error>)
      requires Valid()
      modifies this, r, r.b, r.u
      ensures Valid()
      ensures var t := TakeText(size, old(Now()), old(Pending()));
        n == |t.data| && t == Taken(t.data, e, Now(), Pending())
    {
      ghost var (all, got) := (TakeText(size, Now(), Pending()), []);
      assert all == Prospect(size, got);
      n, e := 0, None;
      while (size < 0 || n < size) && s != Ended
        invariant Valid() && n == |got| && (size >= 0 ==> n <= size) && all == Prospect(size, got)
        decreases Measure(Now(), Pending())
      {
        var c, v;
        c, v, e, got := TextTurn(size, got);
        if e.Some? {
          return;
        }
        if v {
          n := n + 1;
        }
      }
      TextEnds(size, got);
      e := if s == Ended then Some(EOF) else None;
    }
  }

  // ------------------------------------------------------------- round trip

  // The encoder's side: CRLF line ends, a dot in front of every line that starts with one,
  // and a line with a dot alone at the end.
  function Stuff(t: seq<Byte>, bol: bool): seq<Byte> {
    if t == [] then [DOT, CR, LF]
    else (if bol && t[0] == DOT then [DOT] else []) + (if t[0] == LF then [CR, LF] else [t[0]]) + Stuff(t[1..], t[0] == LF)
  }

  // The text left to decode, when it is followed by `rest` in the stream below.
  ghost predicate Carries(s: State, items: seq<Item>, t: seq<Byte>, rest: seq<Item>) {
    if s.pos == Ended then t == [] && items == rest
    else
      && (s.pos == BeginLine || s.pos == NonBegin)
      && items == Bytes(Stuff(t, s.pos == BeginLine)) + rest
      && if t == [] then s.pos == BeginLine else t[|t| - 1] == LF
  }

  function StateAfter(s: State, c: Byte): State {
    State(if c == LF then BeginLine else NonBegin, s.bad || c == CR)
  }

  lemma FeedFront(s: State, c: Byte, tail: seq<Byte>, rest: seq<Item>)
    requires s.pos != Ended
    ensures var (f, items) := (Feed(s, c), Bytes([c] + tail) + rest);
      NextByte(s, items) ==
        if f.out.Some? then Got(f.out.value, f.state, if f.unread then items else Bytes(tail) + rest)
        else NextByte(f.state, Bytes(tail) + rest)
  {
    BytesFront(c, tail, rest);
    FedNext(s, c, Bytes(tail) + rest);
  }

  lemma NextAtEnd(s: State, rest: seq<Item>)
    requires s.pos == BeginLine
    ensures NextByte(s, Bytes(Stuff([], true)) + rest) == Finished(s.(pos := Ended), rest)
  {
    FeedFront(s, DOT, [CR, LF], rest);
    FeedFront(s.(pos := Dot), CR, [LF], rest);
    FeedFront(s.(pos := DotCR), LF, [], rest);
    assert [DOT] + [CR, LF] == [DOT, CR, LF] && [CR] + [LF] == [CR, LF] && [LF] + [] == [LF];
    assert Bytes([]) + rest == rest;
  }

  lemma NextPlain(s: State, c: Byte, tail: seq<Byte>, rest: seq<Item>)
    requires s.pos == BeginLine || s.pos == NonBegin
    requires c != CR && c != LF
    ensures var front := if s.pos == BeginLine && c == DOT then [DOT, c] else [c];
      NextByte(s, Bytes(front + tail) + rest) == Got(c, s.(pos := NonBegin), Bytes(tail) + rest)
  {
    if s.pos == BeginLine && c == DOT {
      assert [DOT, c] + tail == [DOT] + ([c] + tail);
      FeedFront(s, DOT, [c] + tail, rest);
      FeedFront(s.(pos := Dot), c, tail, rest);
    } else {
      FeedFront(s, c, tail, rest);
    }
  }

  lemma NextLine(s: State, tail: seq<Byte>, rest: seq<Item>)
    requires s.pos == BeginLine || s.pos == NonBegin
    ensures NextByte(s, Bytes([CR, LF] + tail) + rest) == Got(LF, s.(pos := BeginLine), Bytes(tail) + rest)
  {
    assert [CR, LF] + tail == [CR] + ([LF] + tail);
    FeedFront(s, CR, [LF] + tail, rest);
    FeedFront(s.(pos := InCR), LF, tail, rest);
  }

  // A CR that does not end a line: the parser has to look at the byte after it.
  lemma NextBareCR(s: State, tail: seq<Byte>, rest: seq<Item>)
    requires s.pos == BeginLine || s.pos == NonBegin
    requires tail != [] && tail[0] != LF
    ensures NextByte(s, Bytes([CR] + tail) + rest) == Got(CR, State(NonBegin, true), Bytes(tail) + rest)
  {
    FeedFront(s, CR, tail, rest);
    assert tail == [tail[0]] + tail[1..];
    FeedFront(s.(pos := InCR), tail[0], tail[1..], rest);
  }

  lemma NextOfText(s: State, items: seq<Item>, t: seq<Byte>, rest: seq<Item>)
    requires Carries(s, items, t, rest)
    ensures t == [] ==> NextByte(s, items) == Finished(s.(pos := Ended), rest)
    ensures t != [] ==>
      var n := NextByte(s, items);
      && n == Got(t[0], StateAfter(s, t[0]), n.rest)
      && Carries(n.state, n.rest, t[1..], rest)
  {
    if s.pos != Ended {
      if t == [] {
        NextAtEnd(s, rest);
      } else {
        var (c, bol) := (t[0], s.pos == BeginLine);
        var tail := Stuff(t[1..], c == LF);
        if c == LF {
          assert Stuff(t, bol) == [CR, LF] + tail;
          NextLine(s, tail, rest);
        } else if c == CR {
          assert Stuff(t, bol) == [CR] + tail;
          assert tail[0] != LF;
          NextBareCR(s, tail, rest);
        } else {
          assert Stuff(t, bol) == (if bol && c == DOT then [DOT, c] else [c]) + tail;
          NextPlain(s, c, tail, rest);
        }
      }
    }
  }

  // What a reading of any size should yield, and leave for the next one.
  ghost predicate Yields(n: int, r: Taken, bad: bool, t: seq<Byte>, rest: seq<Item>) {
    var k := if 0 <= n < |t| then n else |t|;
    && r.data == t[..k]
    && r.e == (if r.state.pos == Ended then Some(EOF) else None)
    && (n < 0 || n > |t| ==> r.state.pos == Ended)
    && Carries(r.state, r.rest, t[k..], rest)
    && r.state.bad == (bad || CR in r.data)
  }

  lemma YieldsMore(n: int, r: Taken, bad: bool, t: seq<Byte>, rest: seq<Item>)
    requires n != 0 && t != [] && Yields(n - 1, r, bad || t[0] == CR, t[1..], rest)
    ensures Yields(n, After([t[0]], r), bad, t, rest)
  {
    var k := if 0 <= n < |t| then n else |t|;
    assert t[..k] == [t[0]] + t[1..][..k - 1];
    assert t[1..][k - 1..] == t[k..];
  }

  // A Read, a ReadByte or a Discard each take their text this way, so they can be mixed at
  // will.
  lemma {:induction false} TextComesBack(n: int, s: State, items: seq<Item>, t: seq<Byte>, rest: seq<Item>)
    requires Carries(s, items, t, rest)
    ensures Yields(n, TakeText(n, s, items), s.bad, t, rest)
    decreases |t|
  {
    if n != 0 {
      NextOfText(s, items, t, rest);
      if t != [] {
        var next := NextByte(s, items);
        TextComesBack(n - 1, next.state, next.rest, t[1..], rest);
        YieldsMore(n, TakeText(n - 1, next.state, next.rest), s.bad, t, rest);
      }
    }
  }

  // Reading everything decodes the block and stops right behind its last line.
  lemma DotRoundTrip(t: seq<Byte>, rest: seq<Item>)
    requires t == [] || t[|t| - 1] == LF
    ensures TakeText(-1, State(BeginLine, false), Bytes(Stuff(t, true)) + rest)
      == Taken(t, Some(EOF), State(Ended, CR in t), rest)
  {
    TextComesBack(-1, State(BeginLine, false), Bytes(Stuff(t, true)) + rest, t, rest);
    assert t[..|t|] == t && t[|t|..] == [];
  }

  // ------------------------------------------------------ any mix of calls

  datatype Op = ReadsByte | Reads(l: nat) | Discards(size: int)

  // How many bytes of text are asked for; with a negative number, all.
  function Size(op: Op): int {
    match op
    case ReadsByte => 1
    case Reads(l) => l
    case Discards(size) => size
  }

  // What the calls return of the text, and what they leave of it.
  function Kept(ops: seq<Op>, t: seq<Byte>): seq<Byte> {
    if ops == [] then [] else (if ops[0].Discards? then [] else t[..Span(ops[0], t)]) + Kept(ops[1..], t[Span(ops[0], t)..])
  }

  function Unread(ops: seq<Op>, t: seq<Byte>): seq<Byte> {
    if ops == [] then t else Unread(ops[1..], t[Span(ops[0], t)..])
  }

  function Span(op: Op, t: seq<Byte>): (k: nat)
    ensures k <= |t|
  {
    if 0 <= Size(op) < |t| then Size(op) else |t|
  }

  // ReadByte takes text like the others.
  lemma OneByte(s: State, items: seq<Item>)
    ensures var (next, r) := (NextByte(s, items), TakeText(1, s, items));
      r.state == next.state && r.rest == next.rest && r.data == if next.Got? then [next.c] else []
  {
  }

  // One call. Behind it the reader carries what is left of the text.
  method Perform(dr: DotReader, op: Op, ghost t: seq<Byte>, ghost rest: seq<Item>) returns (data: seq<Byte>)
    requires dr.Valid() && Carries(dr.Now(), dr.Pending(), t, rest)
    modifies dr, dr.r, dr.r.b, dr.r.u
    ensures dr.Valid() && data == if op.Discards? then [] else t[..Span(op, t)]
    ensures Carries(dr.Now(), dr.Pending(), t[Span(op, t)..], rest)
  {
    TextComesBack(Size(op), dr.Now(), dr.Pending(), t, rest);
    OneByte(dr.Now(), dr.Pending());
    data := [];
    match op {
      case ReadsByte =>
        var c, e := dr.ReadByte();
        data := if e.None? then [c] else [];
      case Reads(l) =>
        var e;
        data, e := dr.Read(l);
      case Discards(size) =>
        var k, e := dr.Discard(size);
    }
  }

  // However the three methods are mixed, with whatever sizes, what they return is the text
  // without what was discarded, and the next call goes on behind it.
  method PerformAll(dr: DotReader, ops: seq<Op>, ghost t: seq<Byte>, ghost rest: seq<Item>) returns (data: seq<Byte>)
    requires dr.Valid() && Carries(dr.Now(), dr.Pending(), t, rest)
    modifies dr, dr.r, dr.r.b, dr.r.u
    ensures dr.Valid() && data == Kept(ops, t) && Carries(dr.Now(), dr.Pending(), Unread(ops, t), rest)
  {
    ghost var left := t;
    var next := ops;
    data := [];
    while next != []
      invariant dr.Valid() && Carries(dr.Now(), dr.Pending(), left, rest)
      invariant Kept(ops, t) == data + Kept(next, left) && Unread(ops, t) == Unread(next, left)
    {
      var p := Perform(dr, next[0], left, rest);
      KeptMore(data, p, Kept(next[1..], left[Span(next[0], left)..]));
      data, left, next := data + p, left[Span(next[0], left)..], next[1..];
    }
  }

  lemma KeptMore(data: seq<Byte>, p: seq<Byte>, rest: seq<Byte>)
    ensures data + (p + rest) == (data + p) + rest
  {
  }
}
