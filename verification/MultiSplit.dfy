// The parts of a whole multipart message, and reading all of them.
module MultiSplit {
  import opened Common
  import opened Source
  import opened BufReader
  import opened Multipart
  import opened MultiLines
  import opened MultiReader

  // The part that starts s is k bytes long.
  ghost predicate IsLong(m: Boundary, s: seq<Byte>, k: nat) {
    Multipart.Ends(m, s, true, k)
  }

  // What follows the part that starts s and is k bytes long.
  ghost function Past(m: Boundary, s: seq<Byte>, k: nat): (step: Step)
    requires IsLong(m, s, k)
    ensures step == Stopped(EOF) || (step.Opened? && step.m == m && |step.rest| < |s|)
  {
    if DelimiterFirst(m, s) then Behind(m, s)
    else
      DelimiterShift(m, s, k, 0);
      FrontSplit(m, s[k..]);
      Behind(m, s[k..][|m.nl|..])
  }

  ghost function Left(step: Step): nat {
    if step.Opened? then |step.rest| + 1 else 0
  }

  // The contents of the part that opens and of all parts behind it, if the stream goes on
  // to a closing delimiter. Each one ends where its first delimiter stands (EndsOnce).
  ghost function Split(step: Step): Option<seq<seq<Byte>>>
    decreases Left(step)
  {
    match step
    case Stopped(e) => if e == EOF then Some([]) else None
    case Opened(m, s) =>
      if exists k: nat :: IsLong(m, s, k) then Prepend(s[..Length(m, s)], Split(Past(m, s, Length(m, s)))) else None
  }

  ghost function Length(m: Boundary, s: seq<Byte>): (k: nat)
    requires exists k: nat :: IsLong(m, s, k)
    ensures IsLong(m, s, k) && k <= |s|
  {
    var k: nat :| IsLong(m, s, k);
    k
  }

  function Prepend(part: seq<Byte>, parts: Option<seq<seq<Byte>>>): Option<seq<seq<Byte>>> {
    if parts.Some? then Some([part] + parts.value) else None
  }

  // The lines of these parts that begin with the dash-boundary fit in the buffer.
  ghost predicate SplitFits(step: Step, size: nat)
    decreases Left(step)
  {
    step.Opened? ==> forall k: nat | IsLong(step.m, step.rest, k) ::
      Fits(step.m, step.rest, true, size, k) && SplitFits(Past(step.m, step.rest, k), size)
  }

  // Where a message opens: behind its first delimiter line.
  function Head(dash: Dash, s: seq<Byte>): Step {
    Next(WithNewline(dash, true), s, true, false)
  }

  // The parts of a message with a preamble and an epilogue, whichever newline it uses.
  ghost function Message(dash: Dash, s: seq<Byte>): Option<seq<seq<Byte>>> {
    Split(Head(dash, s))
  }

  ghost predicate MessageFits(dash: Dash, s: seq<Byte>, size: nat) {
    LinesFit(WithNewline(dash, true), s, true, false, size) && SplitFits(Head(dash, s), size)
  }

  lemma SplitAt(m: Boundary, s: seq<Byte>, k: nat)
    requires IsLong(m, s, k)
    ensures k <= |s| && Split(Opened(m, s)) == Prepend(s[..k], Split(Past(m, s, k)))
  {
    EndsOnce(m, s, true, k, Length(m, s));
  }

  lemma PastFollows(p: Part)
    requires p.start
    ensures Following(AtEnd(p)) == Past(p.m, p.s, p.k)
  {
    if p.k == 0 {
      EndReached(p);
    }
  }

  // A part, and what follows it, are the split from its start on.
  lemma PartSplits(p: Part)
    requires p.start
    ensures p.k <= |p.s| && Split(Opened(p.m, p.s)) == Prepend(p.s[..p.k], Split(Following(AtEnd(p))))
    ensures Left(Following(AtEnd(p))) <= |p.s|
    ensures SplitFits(Opened(p.m, p.s), p.size) <==> SplitFits(Following(AtEnd(p)), p.size)
  {
    assert IsLong(p.m, p.s, p.k);
    SplitAt(p.m, p.s, p.k);
    PastFollows(p);
    forall k: nat | IsLong(p.m, p.s, k) ensures k == p.k {
      EndsOnce(p.m, p.s, true, k, p.k);
    }
  }

  lemma FirstFits(m: Boundary, s: seq<Byte>, size: nat)
    requires Split(Opened(m, s)).Some? && SplitFits(Opened(m, s), size)
    ensures exists k: nat :: IsLong(m, s, k)
    ensures Rest(m, s, true, size, Length(m, s)).Valid()
  {
    assert IsLong(m, s, Length(m, s));
  }

  // The part that opens a well-terminated stream.
  ghost function FirstPart(step: Step, size: nat): (p: Part)
    requires step.Opened? && Split(step).Some? && SplitFits(step, size)
    ensures p.start && p.size == size && step == Opened(p.m, p.s)
  {
    FirstFits(step.m, step.rest, size);
    Rest(step.m, step.rest, true, size, Length(step.m, step.rest))
  }

  // A reader that has come to a step of the split.
  ghost predicate Arrived(pr: PartReader, step: Step, e: Option<Error>)
    reads pr, pr.br, pr.br.b, pr.br.u
  {
    && pr.Valid() && pr.Reached(step, e) && (e.None? ==> pr.partsRead > 0)
    && Split(step).Some? && SplitFits(step, pr.br.b.Length)
  }

  // A reader in front of the first part of a message.
  method Open(u: Source, dash: Dash, size: nat, ghost s: seq<Byte>) returns (pr: PartReader, e: Option<Error>)
    requires u.Rest() == Bytes(s) && Message(dash, s).Some? && MessageFits(dash, s, size) && size > 0
    modifies u
    ensures fresh(pr) && fresh(pr.br) && fresh(pr.br.b) && pr.br.b.Length == size && pr.br.u == u
    ensures Arrived(pr, Head(dash, s), e)
  {
    var br := new BufReader(u, size);
    pr := new PartReader(br, dash);
    e := pr.NextPart(EMPTY_PART, s);
  }

  // A part, and the way to the one behind it.
  method ReadPart(pr: PartReader, sizes: seq<nat>, piece: nat, ghost step: Step)
    returns (text: seq<Byte>, e: Option<Error>, ghost step': Step)
    requires Arrived(pr, step, None) && piece > 0
    modifies pr, pr.br, pr.br.b, pr.br.u
    ensures Arrived(pr, step', e) && Split(step) == Prepend(text, Split(step')) && Left(step') < Left(step)
  {
    ghost var part := FirstPart(step, pr.br.b.Length);
    PartSplits(part);
    step' := Following(AtEnd(part));
    text := pr.ReadAll(sizes, piece, part);
    EndReached(AtEnd(part));
    e := pr.NextPart(AtEnd(part), []);
  }

  // What has been read, in front of the parts that are still to come.
  ghost function Joined(got: seq<seq<Byte>>, rest: Option<seq<seq<Byte>>>): Option<seq<seq<Byte>>> {
    if rest.Some? then Some(got + rest.value) else None
  }

  lemma JoinedMore(got: seq<seq<Byte>>, text: seq<Byte>, rest: Option<seq<seq<Byte>>>)
    ensures Joined(got, Prepend(text, rest)) == Joined(got + [text], rest)
    ensures Joined([], rest) == rest
  {
    if rest.Some? {
      assert got + ([text] + rest.value) == (got + [text]) + rest.value;
      assert [] + rest.value == rest.value;
    }
  }

  lemma JoinedAll(got: seq<seq<Byte>>, step: Step)
    requires step.Stopped? && Split(step).Some?
    ensures step.e == EOF && Joined(got, Split(step)) == Some(got)
  {
    assert got + [] == got;
  }

  // All parts from a step of the split on. For each part in turn there may be a list of
  // sizes to read it in.
  method ReadRest(pr: PartReader, reached: Option<Error>, sizes: seq<seq<nat>>, piece: nat, ghost first: Step)
    returns (got: seq<seq<Byte>>, e: Option<Error>)
    requires Arrived(pr, first, reached) && piece > 0
    modifies pr, pr.br, pr.br.b, pr.br.u
    ensures Some(got) == Split(first) && e == Some(EOF)
  {
    ghost var step := first;
    var next := sizes;
    got, e := [], reached;
    JoinedMore(got, [], Split(step));
    while e.None?
      invariant Arrived(pr, step, e) && Split(first) == Joined(got, Split(step))
      decreases Left(step)
    {
      var text;
      text, e, step := ReadPart(pr, if next == [] then [] else next[0], piece, step);
      next := if next == [] then [] else next[1..];
      JoinedMore(got, text, Split(step));
      got := got + [text];
    }
    JoinedAll(got, step);
  }

  // Reading all the parts of a message gives its split, and then EOF, however the stream
  // below is cut and in whatever pieces the parts are read.
  method ReadMessage(u: Source, dash: Dash, size: nat, sizes: seq<seq<nat>>, piece: nat, ghost s: seq<Byte>)
    returns (got: seq<seq<Byte>>, e: Option<Error>)
    requires u.Rest() == Bytes(s) && Message(dash, s).Some? && MessageFits(dash, s, size) && size > 0 && piece > 0
    modifies u
    ensures Some(got) == Message(dash, s) && e == Some(EOF)
  {
    var pr, reached := Open(u, dash, size, s);
    got, e := ReadRest(pr, reached, sizes, piece, Head(dash, s));
  }
}
