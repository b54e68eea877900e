// Reading the parts of a multipart body from a buffered reader.
module MultiReader {
  import opened Common
  import opened Source
  import opened BufReader
  import opened Multipart
  import opened MultiLines

  lemma BytesEqual(a: seq<Byte>, b: seq<Byte>)
    requires Bytes(a) == Bytes(b)
    ensures a == b
  {
    assert |Bytes(a)| == |a| && |Bytes(b)| == |b|;
    forall i | 0 <= i < |a| ensures a[i] == b[i] {
      assert Bytes(a)[i] == Item.Byte(a[i]) && Bytes(b)[i] == Item.Byte(b[i]);
    }
  }

  // What is buffered of a stream without errors is its beginning.
  lemma BufferedFirst(s: seq<Byte>, b: seq<Byte>, rest: seq<Item>)
    requires Bytes(s) == Bytes(b) + rest
    ensures b <= s && rest == Bytes(s[|b|..])
  {
    assert Bytes(s)[..|b|] == Bytes(s[..|b|]);
    BytesEqual(b, s[..|b|]);
    assert Bytes(s)[|b|..] == Bytes(s[|b|..]);
  }

  lemma ErrorIsNoByte(t: seq<Byte>, e: Option<Error>, rest: seq<Item>)
    ensures e.Some? && (e != Some(EOF) || rest != []) ==> Then(e, rest) != Bytes(t)
  {
    if e.Some? && (e != Some(EOF) || rest != []) {
      assert Then(e, rest)[0].Fail?;
      assert t != [] ==> Bytes(t)[0] == Item.Byte(t[0]);
    }
  }

  // The only error of such a stream is that it has ended.
  lemma OnlyEOF(s: seq<Byte>, b: seq<Byte>, e: Option<Error>, rest: seq<Item>)
    requires e.Some? && Bytes(s) == Bytes(b) + Then(e, rest)
    ensures e == Some(EOF) && b == s && rest == []
  {
    BufferedFirst(s, b, Then(e, rest));
    ErrorIsNoByte(s[|b|..], e, rest);
    assert |Bytes(s[|b|..])| == |s| - |b|;
  }

  // Some of the stream is buffered, and this is what is left of the current part.
  ghost predicate Reading(part: Part, m: Boundary, b: seq<Byte>, eof: bool) {
    part.m == m && Seen(b, part.s, eof)
  }

  // Whether the dash-boundary that ends at index p of the buffer starts a delimiter line.
  method CheckAfterPrefix(m: Boundary, b: seq<Byte>, eof: bool, p: nat, ghost part: Part) returns (a: Answer)
    requires p <= |b|
    ensures Reading(part, m, b, eof) ==> Told(part.m, b, part.s, eof, p, part.size, a)
  {
    a := Check(m, b[p..], eof);
    if Reading(part, m, b, eof) {
      CheckTells(m, b, part.s, eof, p, part.size);
    }
  }

  // Looks for the end of the part in the buffer, at the start of the part and further on.
  method FindEnd(m: Boundary, b: seq<Byte>, eof: bool, first: bool, ghost part: Part) returns (f: Found)
    ensures f.n <= |b|
    ensures Reading(part, m, b, eof) && part.start == first ==> Sound(part, b, eof, f)
  {
    if first && StandsAt(b, 0, m.dash) {
      var a := CheckAfterPrefix(m, b, eof, |m.dash|, part);
      f := AtBoundary(0, |m.dash|, a);
      if Reading(part, m, b, eof) && part.start {
        SoundFirst(part, b, eof, a);
      }
    } else if first && |b| < |m.dash| && BeginsAt(b, 0, m.dash) {
      f := Found(0, false);
      if Reading(part, m, b, eof) && part.start {
        SoundFirstPiece(part, b, eof);
      }
    } else {
      f := FindInside(m, b, eof, part);
    }
  }

  method FindInside(m: Boundary, b: seq<Byte>, eof: bool, ghost part: Part) returns (f: Found)
    ensures f.n <= |b|
    ensures Reading(part, m, b, eof) && PastFirst(part, b) ==> Sound(part, b, eof, f)
  {
    var i := Index(b, m.front);
    if i >= 0 {
      f := FrontAt(m, b, eof, i, part);
    } else {
      f := ReadableRest(m, b);
      if Reading(part, m, b, eof) && PastFirst(part, b) {
        SoundRest(part, b, eof);
      }
    }
  }

  method FrontAt(m: Boundary, b: seq<Byte>, eof: bool, i: nat, ghost part: Part) returns (f: Found)
    requires StandsAt(b, i, m.front) && NoneStands(b, m.front, i)
    ensures f.n <= |b|
    ensures Reading(part, m, b, eof) && PastFirst(part, b) ==> Sound(part, b, eof, f)
  {
    var a := CheckAfterPrefix(m, b, eof, i + |m.front|, part);
    f := AtBoundary(i, i + |m.front|, a);
    if Reading(part, m, b, eof) && PastFirst(part, b) {
      SoundFront(part, b, eof, i, a);
    }
  }

  // Of a stream the text has been read, and the rest is left.
  predicate Taken(s: seq<Byte>, text: seq<Byte>, rest: seq<Byte>) {
    s == text + rest
  }

  lemma TakenMore(s: seq<Byte>, text: seq<Byte>, rest: seq<Byte>, p: seq<Byte>)
    requires Taken(s, text, rest) && |p| <= |rest| && p == rest[..|p|]
    ensures Taken(s, text + p, rest[|p|..])
  {
    assert rest == p + rest[|p|..];
    assert text + (p + rest[|p|..]) == (text + p) + rest[|p|..];
  }

  class PartReader {
    const br: BufReader
    var n: nat
    var err: Option<Error>
    var rpart: nat
    var m: Boundary
    var partsRead: nat

    ghost predicate Valid()
      reads this, br
    {
      br.Valid() && n <= br.w - br.r
    }

    constructor (br: BufReader, dash: Dash)
      requires br.Valid()
      ensures Valid() && this.br == br && n == 0 && err.None? && rpart == 0 && partsRead == 0
      ensures m == WithNewline(dash, true)
    {
      this.br, n, err, rpart, partsRead := br, 0, None, 0, 0;
      m := WithNewline(dash, true);
    }

    // The bytes still to come, buffered or not, are s; the end has been seen only if all
    // of them are buffered.
    ghost predicate Streams(s: seq<Byte>)
      requires Valid()
      reads this, br, br.b, br.u
    {
      br.Pending() == Bytes(s) && (err.Some? ==> err == Some(EOF) && br.Buffered() == s)
    }

    // This is what is left of the current part.
    ghost predicate InPart(part: Part)
      requires Valid()
      reads this, br, br.b, br.u
    {
      && Streams(part.s) && n <= part.k
      && part.m == m && part.start == (rpart == 0) && part.size == br.b.Length
    }

    // How much of what is buffered belongs to the current part.
    method CheckReadable(ghost part: Part) returns (e: Option<Error>)
      requires Valid() && n == 0
      modifies this`n
      ensures Valid() && (e.None? || e == Some(EOF))
      ensures old(InPart(part)) ==> InPart(part) && (e.Some? ==> n == part.k)
      ensures old(InPart(part)) && n == 0 && e.None? ==> err.None? && br.w - br.r < br.b.Length
    {
      if InPart(part) {
        BufferedFirst(part.s, br.Buffered(), br.Behind());
      }
      var f := FindEnd(m, br.Buffered(), err == Some(EOF), rpart == 0, part);
      n := f.n;
      e := if f.ended then Some(EOF) else None;
    }

    // More of the stream, in a buffer in which room has been made. It fails only when the
    // buffer is full of what cannot be decided.
    method Refill(ghost s: seq<Byte>) returns (ok: bool)
      requires Valid() && n == 0 && err.None?
      modifies this, br, br.b, br.u
      ensures Valid() && n == 0 && rpart == old(rpart) && m == old(m) && partsRead == old(partsRead)
      ensures old(br.w - br.r) < br.b.Length ==> ok
      ensures ok && err.None? ==> br.w - br.r > old(br.w - br.r)
      ensures |br.Pending()| <= old(|br.Pending()|)
      ensures !ok ==> err.None? && br.w - br.r == br.b.Length
      ensures ok && old(Streams(s)) ==> Streams(s)
    {
      var capacity := br.Capacity();
      if capacity == 0 {
        if br.b.Length > br.w - br.r {
          br.CompactBuffer();
        } else {
          return false;
        }
      }
      ghost var before := br.Pending();
      var x;
      x, err := br.FillBufferAtleast(1);
      ok := true;
      if err.Some? && before == Bytes(s) {
        OnlyEOF(s, br.Buffered(), err, br.Behind());
      }
    }

    // Makes some of the part readable, or reports its end.
    method Prepare(ghost part: Part) returns (e: Option<Error>, stop: bool)
      requires Valid()
      modifies this, br, br.b, br.u
      ensures Valid() && rpart == old(rpart) && m == old(m) && partsRead == old(partsRead)
      ensures !stop ==> n > 0
      ensures stop ==> n == 0 && e.Some?
      ensures old(InPart(part)) ==> InPart(part) && (e.Some? ==> e == Some(EOF) && n == part.k)
      ensures |br.Pending()| <= old(|br.Pending()|)
    {
      e, stop := None, false;
      while n == 0
        invariant Valid() && rpart == old(rpart) && m == old(m) && partsRead == old(partsRead) && !stop
        invariant |br.Pending()| <= old(|br.Pending()|)
        invariant old(InPart(part)) ==> InPart(part) && (e.Some? ==> e == Some(EOF) && n == part.k)
        decreases err.None?, |br.Pending()| - (br.w - br.r), if n == 0 then 1 else 0
      {
        e := CheckReadable(part);
        if n == 0 {
          if e.Some? {
            return e, true;
          }
          if err.Some? {
            return if err == Some(EOF) then Some(UnexpectedEOF) else err, true;
          }
          var ok := Refill(part.s);
          if !ok {
            return Some(Other(0)), true;
          }
        }
      }
    }

    // Takes some of what is buffered.
    method TakeBuffered(size: nat, ghost s: seq<Byte>) returns (p: seq<Byte>)
      requires Valid() && 0 < n && size <= n
      modifies this, br, br.b, br.u
      ensures Valid() && |p| == size && m == old(m) && partsRead == old(partsRead)
      ensures n == old(n) - |p| && rpart == old(rpart) + |p| && |br.Pending()| + |p| == old(|br.Pending()|)
      ensures old(Streams(s)) ==> |p| <= |s| && p == s[..|p|] && Streams(s[|p|..])
    {
      ghost var (before, streams) := (br.Buffered(), Streams(s));
      var readErr;
      p, readErr := br.Read(size);
      rpart := rpart + |p|;
      n := n - |p|;
      if streams {
        BufferedFirst(s, p, br.Pending());
        assert before == s ==> br.Buffered() == s[|p|..];
      }
    }

    // Reads from the part. As much of the part as is left, at the front of the stream, it
    // gives the next bytes of, and says EOF behind the last one and not before.
    method Read(size: nat, ghost part: Part) returns (p: seq<Byte>, e: Option<Error>)
      requires Valid()
      modifies this, br, br.b, br.u
      ensures Valid() && |p| <= size && m == old(m) && partsRead == old(partsRead)
      ensures old(InPart(part)) ==> |p| <= part.k && p == part.s[..|p|] && InPart(After(part, |p|))
      ensures old(InPart(part)) && e.Some? ==> e == Some(EOF) && |p| == part.k
      ensures |br.Pending()| + |p| <= old(|br.Pending()|) && (e.Some? ==> n == 0)
      ensures e.None? && size > 0 ==> p != []
    {
      var stop;
      e, stop := Prepare(part);
      if stop {
        p := [];
        assert part.s[0..] == part.s;
        return;
      }
      p := TakeBuffered(Min(size, n), part.s);
      if n != 0 {
        e := None;
      }
    }

    // More of a line that is not complete. A line longer than the buffer loses its front
    // and is cut.
    method MoreOfLine(truncated: bool, ghost s: seq<Byte>) returns (cut: bool)
      requires Valid() && n == 0 && err.None? && LineEnd(br.Buffered()) < 0
      modifies this, br, br.b, br.u
      ensures Valid() && n == 0 && rpart == old(rpart) && m == old(m) && partsRead == old(partsRead)
      ensures |br.Pending()| <= old(|br.Pending()|)
      ensures err.None? ==> |br.Pending()| - |br.Buffered()| < old(|br.Pending()| - |br.Buffered()|)
      ensures old(Streams(s)) && LineFits(s, br.b.Length) ==> Streams(s) && cut == truncated
    {
      cut := truncated;
      if Streams(s) && LineFits(s, br.b.Length) {
        BufferedFirst(s, br.Buffered(), br.Behind());
        LineComing(br.Buffered(), s, br.b.Length);
      }
      var ok := Refill(s);
      if !ok {
        br.Drop();
        cut := true;
        ok := Refill(s);
      }
    }

    // Buffers the next line.
    method AwaitLine(truncated: bool, ghost s: seq<Byte>) returns (i: int, cut: bool, e: Option<Error>)
      requires Valid() && n == 0
      modifies this, br, br.b, br.u
      ensures Valid() && n == 0 && rpart == old(rpart) && m == old(m) && partsRead == old(partsRead)
      ensures e.None? ==> 0 <= i == LineEnd(br.Buffered())
      ensures |br.Pending()| <= old(|br.Pending()|)
      ensures old(Streams(s)) && LineFits(s, br.b.Length) ==> LineAwaited(s, i, e, truncated) && cut == truncated
    {
      cut := truncated;
      i := LineEnd(br.Buffered());
      while i < 0
        invariant Valid() && n == 0 && rpart == old(rpart) && m == old(m) && partsRead == old(partsRead)
        invariant i == LineEnd(br.Buffered()) && |br.Pending()| <= old(|br.Pending()|)
        invariant old(Streams(s)) && LineFits(s, br.b.Length) ==> Streams(s) && cut == truncated
        decreases err.None?, |br.Pending()| - |br.Buffered()|
      {
        if err.Some? {
          e := if err == Some(EOF) && (cut || !EndMark(m, br.Buffered())) then Some(UnexpectedEOF) else err;
          return;
        }
        cut := MoreOfLine(cut, s);
        i := LineEnd(br.Buffered());
      }
      e := None;
      if Streams(s) {
        BufferedFirst(s, br.Buffered(), br.Behind());
        LineEndSeen(br.Buffered(), s);
      }
    }

    // The first line of the stream is buffered up to index i, or there is none.
    ghost predicate LineAwaited(s: seq<Byte>, i: int, e: Option<Error>, truncated: bool)
      requires Valid()
      reads this, br, br.b, br.u
    {
      && Streams(s)
      && if LineEnd(s) >= 0 then e.None? && i == LineEnd(s)
        else e == Some(if !truncated && EndMark(m, s) then EOF else UnexpectedEOF)
    }

    // Takes the line that ends at index i off the buffer.
    method DropLine(i: nat, ghost s: seq<Byte>)
      requires Valid() && n == 0 && i < br.w - br.r
      modifies br`r
      ensures Valid() && |br.Pending()| < old(|br.Pending()|)
      ensures old(Streams(s)) ==> i < |s| && Streams(s[i + 1..])
    {
      ghost var (before, streams) := (br.Buffered(), Streams(s));
      var line := br.Take(i + 1);
      if streams {
        BufferedFirst(s, line, br.Pending());
        assert before == s ==> br.Buffered() == s[i + 1..];
      }
    }

    // What has been reached on the way to the next part.
    ghost predicate Reached(step: Step, e: Option<Error>)
      requires Valid()
      reads this, br, br.b, br.u
    {
      match step
      case Opened(a, rest) => e.None? && Streams(rest) && m == a && n == 0 && rpart == 0
      case Stopped(x) => e == Some(x)
    }

    // How the buffered line that ends at index i is taken.
    method TurnAt(i: nat, due: bool, cut: bool, ghost s: seq<Byte>, ghost step: Step) returns (turn: Turn)
      requires Valid() && i < br.w - br.r
      ensures Streams(s) && i == LineEnd(s) && !cut && Leads(m, s, partsRead == 0, due, br.b.Length, step) ==>
        LeadsAfter(turn, s[i + 1..], partsRead == 0, br.b.Length, step)
    {
      var line := br.Buffered()[..i + 1];
      turn := TakeLine(m, line, partsRead == 0, due, cut);
      if Streams(s) && i == LineEnd(s) && !cut && Leads(m, s, partsRead == 0, due, br.b.Length, step) {
        BufferedFirst(s, br.Buffered(), br.Behind());
        assert line == s[..i + 1];
        LeadsOn(m, s, partsRead == 0, due, br.b.Length, step, i);
      }
    }

    // On the way to the next part, with s before it.
    ghost predicate Leading(s: seq<Byte>, due: bool, cut: bool, step: Step)
      requires Valid()
      reads this, br, br.b, br.u
    {
      Streams(s) && !cut && Leads(m, s, partsRead == 0, due, br.b.Length, step)
    }

    // Waits for a line on that way.
    method LineAhead(due: bool, truncated: bool, ghost s: seq<Byte>, ghost step: Step)
      returns (i: int, cut: bool, e: Option<Error>)
      requires Valid() && n == 0
      modifies this, br, br.b, br.u
      ensures Valid() && n == 0 && partsRead == old(partsRead)
      ensures e.None? ==> 0 <= i == LineEnd(br.Buffered())
      ensures |br.Pending()| <= old(|br.Pending()|)
      ensures old(Leading(s, due, truncated, step)) && e.Some? ==> Reached(step, e)
      ensures old(Leading(s, due, truncated, step)) && e.None? ==> Leading(s, due, cut, step) && i == LineEnd(s)
    {
      ghost var leading := Leading(s, due, truncated, step);
      if leading {
        LeadsNowhere(m, s, partsRead == 0, due, br.b.Length, step);
      }
      i, cut, e := AwaitLine(truncated, s);
    }

    // One line: the part that opens with it or the error, or what comes behind it.
    method OneLine(due: bool, truncated: bool, ghost s: seq<Byte>, ghost step: Step)
      returns (e: Option<Error>, done: bool, due': bool, cut: bool, ghost s': seq<Byte>)
      requires Valid() && n == 0
      modifies this, br, br.b, br.u
      ensures Valid() && n == 0 && (!done ==> e.None? && |br.Pending()| < old(|br.Pending()|))
      ensures partsRead == old(partsRead) + if done && e.None? then 1 else 0
      ensures old(Leading(s, due, truncated, step)) ==> if done then Reached(step, e) else Leading(s', due', cut, step)
    {
      var i;
      done, due', s' := true, due, s;
      i, cut, e := LineAhead(due, truncated, s, step);
      if e.None? {
        var turn := TurnAt(i, due, cut, s, step);
        e, done, due', s' := DoTurn(turn, i, due, cut, s, step);
      }
    }

    method DoTurn(turn: Turn, i: nat, due: bool, cut: bool, ghost s: seq<Byte>, ghost step: Step)
      returns (e: Option<Error>, done: bool, due': bool, ghost s': seq<Byte>)
      requires Valid() && n == 0 && i < br.w - br.r
      modifies this, br`r
      ensures Valid() && n == 0 && (!done ==> e.None? && |br.Pending()| < old(|br.Pending()|))
      ensures partsRead == old(partsRead) + if done && e.None? then 1 else 0
      ensures old(Leading(s, due, cut, step)) && i < |s| && LeadsAfter(turn, s[i + 1..], old(partsRead) == 0, br.b.Length, step) ==>
        if done then Reached(step, e) else Leading(s', due', cut, step)
    {
      e, done, due', s' := None, true, due, s;
      match turn {
        case Opening(a) =>
          DropLine(i, s);
          m, partsRead, rpart := a, partsRead + 1, 0;
        case Closing(x) =>
          e := Some(x);
        case Skipping(a, d) =>
          DropLine(i, s);
          m, done, due', s' := a, false, d, if i < |s| then s[i + 1..] else s;
      }
    }

    // The lines between two parts.
    method NextLines(ghost s: seq<Byte>, ghost step: Step) returns (e: Option<Error>)
      requires Valid() && n == 0
      modifies this, br, br.b, br.u
      ensures Valid() && n == 0 && partsRead == old(partsRead) + if e.None? then 1 else 0
      ensures old(Leading(s, false, false, step)) ==> Reached(step, e)
    {
      var (due, truncated, done) := (false, false, false);
      ghost var cur := s;
      e := None;
      while !done
        invariant Valid() && n == 0 && (!done ==> e.None?)
        invariant partsRead == old(partsRead) + if done && e.None? then 1 else 0
        invariant old(Leading(s, false, false, step)) ==> if done then Reached(step, e) else Leading(cur, due, truncated, step)
        decreases !done, |br.Pending()|
      {
        e, done, due, truncated, cur := OneLine(due, truncated, cur, step);
      }
    }

    // Reads the rest of the part, in pieces of the given sizes and then of another one.
    method ReadAll(sizes: seq<nat>, size: nat, ghost part: Part) returns (text: seq<Byte>)
      requires Valid() && size > 0
      modifies this, br, br.b, br.u
      ensures Valid() && n == 0 && m == old(m) && partsRead == old(partsRead)
      ensures old(InPart(part)) ==> InPart(AtEnd(part)) && part.k <= |part.s| && text == part.s[..part.k]
    {
      ghost var (good, rest, goal) := (InPart(part), part, AtEnd(part));
      var next := sizes;
      text := [];
      while true
        invariant Valid() && m == old(m) && partsRead == old(partsRead)
        invariant good ==> InPart(rest) && AtEnd(rest) == goal
        invariant good ==> Taken(part.s, text, rest.s) && part.k == |text| + rest.k
        decreases |next|, |br.Pending()|
      {
        var p, e := Read(if next == [] then size else next[0], rest);
        next := if next == [] then [] else next[1..];
        if good {
          EndStays(rest, |p|);
          TakenMore(part.s, text, rest.s, p);
          rest := After(rest, |p|);
        }
        text := text + p;
        if e.Some? {
          if good {
            EndReached(rest);
          }
          return;
        }
      }
    }

    // Goes on to the next part. Before the first one the stream is s, later it starts with
    // what is left of the current part.
    method NextPart(ghost part: Part, ghost s: seq<Byte>) returns (e: Option<Error>)
      requires Valid() && (partsRead == 0 ==> n == 0)
      modifies this, br, br.b, br.u
      ensures Valid() && n == 0 && partsRead == old(partsRead) + if e.None? then 1 else 0
      ensures old(partsRead > 0 && InPart(part)) ==> Reached(Following(AtEnd(part)), e)
      ensures old(partsRead == 0 && Streams(s) && LinesFit(m, s, true, false, br.b.Length)) ==>
        Reached(old(Next(m, s, true, false)), e)
    {
      if partsRead > 0 {
        ghost var (good, end) := (InPart(part), AtEnd(part));
        var _ := ReadAll([], br.b.Length, part);
        if good {
          EndLeads(end);
        }
        e := NextLines(end.s, Following(end));
      } else {
        e := NextLines(s, Next(m, s, true, false));
      }
    }
  }
}
