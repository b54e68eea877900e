// Reading headers piece by piece, as far as they are buffered.
module HeaderReader {
  import opened Common
  import opened Source
  import opened BufReader
  import opened Multipart
  import opened MultiLines
  import opened Headers

  // ----------------------------------------------- the whole input, line by line

  function GoFinish(names: Names, t: Taken, s: seq<Byte>, ending: Error): Outcome {
    if t.Bad? then Failed(t.e) else ReadHeaders(names, s, ending, t.st)
  }

  // The header before a line can be finished as soon as the line is seen to start another.
  lemma FinishEarly(names: Names, s: seq<Byte>, ending: Error, st: State)
    requires s != [] && !IsWS(s[0])
    ensures ReadHeaders(names, s, ending, st) == GoFinish(names, Finish(st), s, ending)
  {
    var i := LineEnd(s);
    if i > 0 {
      assert s[..i][0] == s[0];
      assert StripCR(s[..i]) != [] ==> StripCR(s[..i])[0] == s[0];
    }
  }

  function LineOutcome(names: Names, line: seq<Byte>, rest: seq<Byte>, ending: Error, st: State): Outcome {
    if line == [] then EndHeaders(st, rest) else GoFinish(names, TakeHeaderLine(names, st, line), rest, ending)
  }

  lemma LineRead(names: Names, line: seq<Byte>, rest: seq<Byte>, ending: Error, st: State)
    requires LF !in line
    ensures ReadHeaders(names, line + ([LF] + rest), ending, st) == LineOutcome(names, StripCR(line), rest, ending, st)
  {
    var s := line + ([LF] + rest);
    LineEndIs(s, |line|);
    assert s[..|line|] == line && s[|line| + 1..] == rest;
  }

  lemma NothingRead(names: Names, line: seq<Byte>, ending: Error, st: State)
    requires LF !in line
    ensures ReadHeaders(names, line, ending, st) == CutOff(line, st, ending)
  {
    assert LineEnd(line) < 0;
  }

  lemma Regroup(names: Names, p: seq<Byte>, wb: seq<Byte>, rest: seq<Byte>, ending: Error, st: State, goal: Outcome)
    requires ReadHeaders(names, p + (wb + rest), ending, st) == goal
    ensures ReadHeaders(names, p + wb + rest, ending, st) == goal
    ensures p == [] ==> p + wb == wb
  {
    assert p + (wb + rest) == p + wb + rest;
  }

  // canonicaliseSlice
  method CanonicaliseSlice(b: array<Byte>)
    modifies b
    ensures b[..] == Canonical(old(b[..]), true) && Titled(old(b[..]), b[..], true)
  {
    var (upper, i) := (true, 0);
    ghost var all := b[..];
    while i < b.Length
      invariant 0 <= i <= b.Length && b[i..] == all[i..]
      invariant b[..i] + Canonical(all[i..], upper) == Canonical(all, true)
    {
      var c := b[i];
      assert all[i..][1..] == all[i + 1..];
      ghost var (done, more) := (b[..i], Canonical(all[i + 1..], c == HYPHEN));
      b[i] := CanonicalByte(c, upper);
      assert b[..i + 1] == done + [CanonicalByte(c, upper)];
      assert done + ([CanonicalByte(c, upper)] + more) == b[..i + 1] + more;
      upper := c == HYPHEN;
      i := i + 1;
    }
    assert b[..i] == b[..];
    CanonicalIs(all, b[..], true);
  }

  // unsafeMapCanonicalOriginalHeaders
  method MapHeader(names: Names, name: seq<Byte>) returns (key: seq<Byte>, orig: seq<Byte>)
    ensures (key, orig) == KeyOf(names, name)
    ensures name !in names && key !in names ==> Titled(name, key, true) && NameOf(key, orig) == name
  {
    if name in names {
      return names[name], [];
    }
    var b := new Byte[|name|](i requires 0 <= i < |name| => name[i]);
    assert b[..] == name;
    CanonicaliseSlice(b);
    if b[..] in names {
      return names[b[..]], [];
    }
    key := b[..];
    orig := if key == name then [] else name;
  }

  // Where the name in front of index nn ends.
  method NameEnd(line: seq<Byte>, nn: nat) returns (hn: nat)
    requires nn <= |line|
    ensures hn <= nn && line[..hn] == TrimRight(line[..nn])
  {
    hn := nn;
    while hn != 0 && IsWS(line[hn - 1])
      invariant hn <= nn && TrimRight(line[..hn]) == TrimRight(line[..nn])
    {
      assert line[..hn][..hn - 1] == line[..hn - 1];
      hn := hn - 1;
    }
  }

  // Where the content behind index nn begins.
  method ContentStart(line: seq<Byte>, nn: nat) returns (i: nat)
    requires nn <= |line|
    ensures nn <= i <= |line| && line[i..] == SkipWS(line[nn..])
  {
    i := nn;
    while i < |line| && IsWS(line[i])
      invariant nn <= i <= |line| && SkipWS(line[i..]) == SkipWS(line[nn..])
    {
      assert line[i..][1..] == line[i + 1..];
      i := i + 1;
    }
  }

  // The name of a header, and where its content begins.
  method ParseName(names: Names, line: seq<Byte>, ghost out: seq<Header>)
    returns (e: Option<Error>, key: seq<Byte>, orig: seq<Byte>, i: nat)
    ensures e.Some? ==> OpenLine(names, out, line) == Bad(e.value)
    ensures e.None? ==> key != [] && i <= |line| && OpenLine(names, out, line) == Fine(State(out, Open(key, orig, [], line[i..])))
  {
    key, orig, i := [], [], 0;
    var nn := IndexByte(line, COLON);
    if nn < 0 {
      return Some(MISSING_COLON), key, orig, i;
    }
    var hn := NameEnd(line, nn);
    if hn == 0 {
      return Some(EMPTY_NAME), key, orig, i;
    }
    if !ValidName(line[..hn]) {
      return Some(BAD_NAME), key, orig, i;
    }
    key, orig := MapHeader(names, line[..hn]);
    KeyComesBack(names, line[..hn]);
    i := ContentStart(line, nn + 1);
    e := None;
  }

  lemma SliceOf(b: seq<Byte>, end: nat, i: nat, j: nat)
    requires i <= j <= end <= |b|
    ensures b[..end][i..j] == b[i..j]
    ensures j == end ==> b[..end][i..] == b[i..j]
  {
  }

  class Unfolder {
    const names: Names
    var h: seq<Byte>
    var start: nat
    var contStart: nat
    var lastStart: nat
    var splits: seq<nat>
    var key: seq<Byte>
    var orig: seq<Byte>
    var out: seq<Header>
    ghost var cur: Fold

    ghost predicate Valid()
      reads this
    {
      && start <= |h|
      && match cur
        case Nothing => key == [] && start == 0 && splits == []
        case Open(k, o, front, last) =>
          && key == k != [] && orig == o && splits == Lengths(front)
          && contStart <= lastStart <= start
          && h[contStart..lastStart] == Join(front) && h[lastStart..start] == last
    }

    ghost function St(): State
      reads this
    {
      State(out, cur)
    }

    // What there is of the current line.
    function Partial(): seq<Byte>
      requires start <= |h|
      reads this
    {
      h[start..]
    }

    constructor (names: Names)
      ensures Valid() && this.names == names && St() == START && Partial() == []
    {
      this.names := names;
      h, start, contStart, lastStart, splits, key, orig, out := [], 0, 0, 0, [], [], [], [];
      cur := Nothing;
    }

    method FinishCurrent() returns (e: Option<Error>)
      requires Valid()
      modifies this
      ensures Did(Finish(old(St())), e) && (e.None? ==> h == [] && cur.Nothing?)
    {
      if |key| != 0 {
        var content := h[contStart..start];
        assert content == Join(cur.front) + cur.last;
        if !ValidContent(content) {
          h := [];
          return Some(BAD_CONTENT);
        }
        out := out + [Header(key, orig, TrimWS(content), splits)];
        splits, key := [], [];
        cur := Nothing;
      }
      h, start, lastStart := [], 0, 0;
      e := None;
    }

    // The state has been reached, or the error.
    ghost predicate Did(t: Taken, e: Option<Error>)
      reads this
    {
      match t
      case Bad(x) => e == Some(x)
      case Fine(st) => e.None? && Valid() && St() == st
    }

    // The line is all there is, and it starts a header.
    method OpenHeader() returns (e: Option<Error>)
      requires Valid() && cur.Nothing?
      modifies this
      ensures Did(OpenLine(names, old(out), old(h)), e) && (e.None? ==> Partial() == [])
    {
      var k, o, i;
      e, k, o, i := ParseName(names, h, out);
      if e.None? {
        key, orig := k, o;
        contStart := i;
        lastStart := contStart;
        start := |h|;
        cur := Open(key, orig, [], h[i..]);
      }
    }

    // The line goes on with the current header.
    method FoldHeader() returns (e: Option<Error>)
      requires Valid()
      modifies this
      ensures Did(FoldLine(old(St()), old(Partial())), e) && (e.None? ==> Partial() == [])
    {
      var line := Partial();
      if |key| == 0 {
        return Some(BAD_CONTINUATION);
      }
      if start - lastStart == 0 || SkipWS(line) == [] {
        return Some(EMPTY_FOLD);
      }
      splits := splits + [start - lastStart];
      JoinMore(cur.front, cur.last);
      assert h[contStart..start] == h[contStart..lastStart] + h[lastStart..start];
      lastStart := start;
      start := |h|;
      cur := Open(key, orig, cur.front + [cur.last], line);
      e := None;
    }

    // A line that starts a header has finished the one before it.
    ghost predicate Fresh()
      requires start <= |h|
      reads this
    {
      && LF !in Partial()
      && (Partial() != [] && !IsWS(Partial()[0]) ==> cur.Nothing?)
    }

    // The carriage return at the end of the line belongs to the newline.
    method DropCR()
      requires Valid()
      modifies this`h
      ensures Valid() && Partial() == StripCR(old(Partial()))
    {
      var line := h[start..];
      if |line| != 0 && line[|line| - 1] == CR {
        var end := start + |line| - 1;
        SliceOf(h, end, start, end);
        if cur.Open? {
          SliceOf(h, end, contStart, lastStart);
          SliceOf(h, end, lastStart, start);
        }
        assert line[..|line| - 1] == h[start..end];
        h := h[..end];
      }
    }

    // The line is complete.
    method EndLine() returns (e: Option<Error>, ended: bool)
      requires Valid() && Fresh()
      modifies this
      ensures ended == (StripCR(old(Partial())) == []) && (ended ==> e.None? && Valid() && St() == old(St()))
      ensures !ended ==> Did(TakeHeaderLine(names, old(St()), StripCR(old(Partial()))), e) && (e.None? ==> Partial() == [])
    {
      DropCR();
      var line := h[start..];
      if |line| == 0 {
        return None, true;
      }
      ended := false;
      if !IsWS(line[0]) {
        e := OpenHeader();
      } else {
        e := FoldHeader();
      }
    }

    // With rest behind what has been taken, reading comes to the given outcome.
    ghost predicate Comes(rest: seq<Byte>, ending: Error, goal: Outcome)
      requires start <= |h|
      reads this
    {
      ReadHeaders(names, Partial() + rest, ending, St()) == goal
    }

    // More of a line.
    method Append(wb: seq<Byte>)
      requires Valid() && Fresh() && LF !in wb
      requires Partial() == [] && wb != [] && !IsWS(wb[0]) ==> cur.Nothing?
      modifies this`h
      ensures Valid() && Fresh() && Partial() == old(Partial()) + wb
    {
      ghost var p := Partial();
      h := h + wb;
      assert Partial() == p + wb;
    }

    // A piece of the stream starts a line.
    method StartLine(wb: seq<Byte>, ghost rest: seq<Byte>, ghost ending: Error, ghost goal: Outcome) returns (e: Option<Error>)
      requires Valid() && Fresh() && Partial() == [] && LF !in wb && Comes(wb + rest, ending, goal)
      modifies this
      ensures e.None? ==> Valid() && Fresh() && Partial() == wb && Comes(rest, ending, goal)
      ensures e.Some? ==> goal == Failed(e.value)
    {
      Regroup(names, [], wb, rest, ending, St(), goal);
      e := None;
      if |wb| != 0 && !IsWS(wb[0]) {
        FinishEarly(names, wb + rest, ending, St());
        e := FinishCurrent();
        if e.Some? {
          return;
        }
      }
      Append(wb);
    }

    // A piece of the stream goes on with a line.
    method AddToLine(wb: seq<Byte>, ghost rest: seq<Byte>, ghost ending: Error, ghost goal: Outcome)
      requires Valid() && Fresh() && Partial() != [] && LF !in wb && Comes(wb + rest, ending, goal)
      modifies this
      ensures Valid() && Fresh() && Partial() == old(Partial()) + wb && Comes(rest, ending, goal)
    {
      Regroup(names, Partial(), wb, rest, ending, St(), goal);
      Append(wb);
    }

    method AddPiece(wb: seq<Byte>, lastWasFrag: bool, ghost rest: seq<Byte>, ghost ending: Error, ghost goal: Outcome)
      returns (e: Option<Error>)
      requires Valid() && Fresh() && LF !in wb && lastWasFrag == (Partial() != [])
      requires Comes(wb + rest, ending, goal)
      modifies this
      ensures e.None? ==> Valid() && Fresh() && Partial() == old(Partial()) + wb && Comes(rest, ending, goal)
      ensures e.Some? ==> goal == Failed(e.value)
    {
      if !lastWasFrag {
        e := StartLine(wb, rest, ending, goal);
      } else {
        e := None;
        AddToLine(wb, rest, ending, goal);
      }
    }

    method TakeLine(ghost rest: seq<Byte>, ghost ending: Error, ghost goal: Outcome) returns (e: Option<Error>, ended: bool)
      requires Valid() && Fresh() && Comes([LF] + rest, ending, goal)
      modifies this
      ensures e.Some? ==> goal == Failed(e.value)
      ensures e.None? && ended ==> Valid() && goal == EndHeaders(St(), rest)
      ensures e.None? && !ended ==> Valid() && Fresh() && Partial() == [] && Comes(rest, ending, goal)
    {
      LineRead(names, Partial(), rest, ending, St());
      e, ended := EndLine();
      assert [] + rest == rest;
    }

    method TakePiece(wb: seq<Byte>, lastWasFrag: bool, currFrag: bool,
                     ghost rest: seq<Byte>, ghost ending: Error, ghost goal: Outcome)
      returns (e: Option<Error>, ended: bool)
      requires Valid() && Fresh() && LF !in wb && lastWasFrag == (Partial() != []) && (currFrag ==> wb != [])
      requires Comes(wb + (if currFrag then rest else [LF] + rest), ending, goal)
      modifies this
      ensures e.Some? ==> goal == Failed(e.value)
      ensures e.None? && ended ==> Valid() && goal == EndHeaders(St(), rest)
      ensures e.None? && !ended ==> Valid() && Fresh() && currFrag == (Partial() != []) && Comes(rest, ending, goal)
    {
      ended := false;
      e := AddPiece(wb, lastWasFrag, if currFrag then rest else [LF] + rest, ending, goal);
      if e.Some? || currFrag {
        return;
      }
      e, ended := TakeLine(rest, ending, goal);
    }
  }

  lemma {:induction false} JoinMore(front: seq<seq<Byte>>, last: seq<Byte>)
    ensures Join(front + [last]) == Join(front) + last
    ensures Lengths(front + [last]) == Lengths(front) + [|last|]
  {
    if front == [] {
      assert front + [last] == [last] && [last][1..] == [];
    } else {
      assert (front + [last])[1..] == front[1..] + [last];
      JoinMore(front[1..], last);
    }
  }

  // The next piece of the stream that is buffered: a line without its newline, or all of it.
  method NextPiece(br: BufReader) returns (wb: seq<Byte>, frag: bool)
    requires br.Valid() && br.r < br.w
    modifies br`r
    ensures br.Valid() && LF !in wb && |br.Pending()| < old(|br.Pending()|)
    ensures frag ==> wb != [] && br.r == br.w
    ensures old(Delivered(br.Pending())) == wb + (if frag then Delivered(br.Pending()) else [LF] + Delivered(br.Pending()))
    ensures Ending(br.Pending()) == old(Ending(br.Pending()))
  {
    var b := br.Buffered();
    var n := LineEnd(b);
    frag := n < 0;
    var p := br.Take(if frag then |b| else n + 1);
    assert p == if frag then b else b[..n + 1];
    DeliveredSplit(p, br.Pending());
    CutLine(b, n);
    wb := if frag then b else b[..n];
  }

  lemma CutLine(b: seq<Byte>, n: int)
    requires n == LineEnd(b)
    ensures n < 0 ==> LF !in b
    ensures n >= 0 ==> LF !in b[..n] && b[..n + 1] == b[..n] + [LF]
  {
  }

  // Everything that is buffered, unless the headers end before.
  method TakeBuffered(br: BufReader, u: Unfolder, wasFrag: bool, ghost goal: Outcome)
    returns (e: Option<Error>, ended: bool, frag: bool)
    requires br.Valid() && u.Valid() && u.Fresh() && wasFrag == (u.Partial() != [])
    requires u.Comes(Delivered(br.Pending()), Ending(br.Pending()), goal)
    modifies br`r, u
    ensures br.Valid() && Ending(br.Pending()) == old(Ending(br.Pending()))
    ensures |br.Pending()| <= old(|br.Pending()|) && (old(br.r < br.w) ==> |br.Pending()| < old(|br.Pending()|))
    ensures e.Some? ==> goal == Failed(e.value)
    ensures e.None? && ended ==> goal == EndHeaders(u.St(), Delivered(br.Pending())) && u.Valid()
    ensures e.None? && !ended ==> br.r == br.w && u.Valid() && u.Fresh() && frag == (u.Partial() != [])
    ensures e.None? && !ended ==> u.Comes(Delivered(br.Pending()), Ending(br.Pending()), goal)
  {
    e, ended, frag := None, false, wasFrag;
    while br.r < br.w
      invariant br.Valid() && Ending(br.Pending()) == old(Ending(br.Pending())) && e.None? && !ended
      invariant u.Valid() && u.Fresh() && frag == (u.Partial() != [])
      invariant u.Comes(Delivered(br.Pending()), Ending(br.Pending()), goal)
      invariant |br.Pending()| <= old(|br.Pending()|)
      invariant br.r < br.w || |br.Pending()| < old(|br.Pending()|) || br.r == old(br.r)
      invariant br.r == old(br.r) || |br.Pending()| < old(|br.Pending()|)
      decreases |br.Pending()|
    {
      var lastWasFrag := frag;
      var wb;
      wb, frag := NextPiece(br);
      e, ended := u.TakePiece(wb, lastWasFrag, frag, Delivered(br.Pending()), Ending(br.Pending()), goal);
      if e.Some? || ended {
        return;
      }
    }
  }

  // What reading has come to.
  ghost predicate Came(goal: Outcome, out: seq<Header>, e: Option<Error>, rest: seq<Byte>) {
    match goal
    case Done(hs, s) => e.None? && out == hs && rest == s
    case Failed(x) => e == Some(x)
  }

  // More of the stream in an empty buffer.
  method PullIn(br: BufReader) returns (e: Option<Error>)
    requires br.Valid() && br.r == br.w
    modifies br, br.b, br.u
    ensures br.Valid()
    ensures e.None? ==> br.Pending() == old(br.Pending()) && br.r < br.w
    ensures e.Some? ==> old(Delivered(br.Pending())) == [] && old(Ending(br.Pending())) == e.value
  {
    var capacity := br.Capacity();
    if capacity < 2000 {
      br.CompactBuffer();
    }
    ghost var items := br.Pending();
    var n;
    n, e := br.FillBufferAtleast(1);
    if e.Some? {
      assert Bytes(br.Buffered()) == [];
      assert items == Then(e, br.Behind());
    }
  }

  // The empty line has been reached.
  method EndOfHeaders(u: Unfolder, ghost rest: seq<Byte>, ghost goal: Outcome) returns (e: Option<Error>)
    requires u.Valid() && goal == EndHeaders(u.St(), rest)
    modifies u
    ensures Came(goal, u.out, e, rest)
  {
    e := u.FinishCurrent();
  }

  // What is buffered, and then more of the stream, or the end.
  method ReadSome(br: BufReader, u: Unfolder, wasFrag: bool, ghost goal: Outcome)
    returns (e: Option<Error>, done: bool, frag: bool)
    requires br.Valid() && u.Valid() && u.Fresh() && wasFrag == (u.Partial() != [])
    requires u.Comes(Delivered(br.Pending()), Ending(br.Pending()), goal)
    modifies br, br.b, br.u, u
    ensures br.Valid() && (!(done && e.Some?) ==> Ending(br.Pending()) == old(Ending(br.Pending())))
    ensures done ==> Came(goal, u.out, e, Delivered(br.Pending()))
    ensures !done ==> u.Valid() && u.Fresh() && frag == (u.Partial() != [])
    ensures !done ==> u.Comes(Delivered(br.Pending()), Ending(br.Pending()), goal)
    ensures !done ==> br.r < br.w && |br.Pending()| + (if old(br.r == br.w) then 0 else 1) <= old(|br.Pending()|)
  {
    var ended;
    done := true;
    e, ended, frag := TakeBuffered(br, u, wasFrag, goal);
    if e.Some? {
      return;
    }
    if ended {
      e := EndOfHeaders(u, Delivered(br.Pending()), goal);
      return;
    }
    ghost var (p, st) := (u.Partial(), u.St());
    e := PullIn(br);
    if e.Some? {
      assert p + [] == p;
      NothingRead(u.names, p, e.value, st);
      return;
    }
    done := false;
  }

  method ReadUntilEmpty(br: BufReader, u: Unfolder, ghost goal: Outcome) returns (e: Option<Error>)
    requires br.Valid() && u.Valid() && u.Fresh() && u.Partial() == []
    requires u.Comes(Delivered(br.Pending()), Ending(br.Pending()), goal)
    modifies br, br.b, br.u, u
    ensures br.Valid() && Came(goal, u.out, e, Delivered(br.Pending()))
    ensures e.None? ==> Ending(br.Pending()) == old(Ending(br.Pending()))
  {
    var (frag, done) := (false, false);
    e := None;
    while !done
      invariant br.Valid() && (done ==> Came(goal, u.out, e, Delivered(br.Pending())))
      invariant !(done && e.Some?) ==> Ending(br.Pending()) == old(Ending(br.Pending()))
      invariant !done ==> u.Valid() && u.Fresh() && frag == (u.Partial() != [])
      invariant !done ==> u.Comes(Delivered(br.Pending()), Ending(br.Pending()), goal)
      decreases !done, |br.Pending()|, if br.r == br.w then 1 else 0
    {
      e, done, frag := ReadSome(br, u, frag, goal);
    }
  }

  // readHeaderIntoFunc: the headers, in order, up to the empty line behind them.
  method ReadHeaderIntoFunc(br: BufReader, names: Names) returns (out: seq<Header>, e: Option<Error>)
    requires br.Valid()
    modifies br, br.b, br.u
    ensures br.Valid()
    ensures Came(old(ReadHeaders(names, Delivered(br.Pending()), Ending(br.Pending()), START)), out, e, Delivered(br.Pending()))
    ensures e.None? ==> Ending(br.Pending()) == old(Ending(br.Pending()))
  {
    ghost var (s, ending) := (Delivered(br.Pending()), Ending(br.Pending()));
    var u := new Unfolder(names);
    assert [] + s == s;
    e := ReadUntilEmpty(br, u, ReadHeaders(names, s, ending, START));
    out := u.out;
  }
}
