// The delimiter lines of a multipart body, as whole lines.
module MultiLines {
  import opened Common
  import opened Multipart

  // Where the first line of s ends, or -1 if it does not.
  function LineEnd(s: seq<Byte>): (i: int)
    ensures -1 <= i < |s|
    ensures i >= 0 ==> s[i] == LF
    ensures forall j :: 0 <= j < |s| && (i < 0 || j < i) ==> s[j] != LF
  {
    if s == [] then -1 else if s[0] == LF then 0
    else
      var i := LineEnd(s[1..]);
      if i < 0 then -1 else i + 1
  }

  lemma LineEndIs(s: seq<Byte>, i: nat)
    requires i < |s| && s[i] == LF && forall j :: 0 <= j < i ==> s[j] != LF
    ensures LineEnd(s) == i
  {
  }

  // What is buffered of a stream decides where its first line ends, if it holds the line.
  lemma LineEndSeen(b: seq<Byte>, s: seq<Byte>)
    requires b <= s
    ensures LineEnd(b) >= 0 ==> LineEnd(s) == LineEnd(b)
    ensures LineEnd(b) < 0 ==> LineEnd(s) < 0 || LineEnd(s) >= |b|
  {
  }

  datatype Kind = Plain | Opens | Ends

  // How a line is taken: before the first part the newline of the message is not known yet,
  // and the first delimiter line decides it.
  function Adapted(m: Boundary, line: seq<Byte>, first: bool): Boundary {
    if first && StandsAt(line, 0, m.dash) && SkipWS(Unmarked(line[|m.dash|..])) == [LF] then WithNewline(m.dash, false)
    else m
  }

  function KindOf(m: Boundary, line: seq<Byte>): Kind {
    if !StandsAt(line, 0, m.dash) then Plain
    else
      var rest := line[|m.dash|..];
      if SkipWS(Unmarked(rest)) != m.nl then Plain else if Marked(rest) then Ends else Opens
  }

  // How long a delimiter line is whose boundary ends at p.
  function DelimiterLength(m: Boundary, s: seq<Byte>, p: nat): nat
    requires p <= |s|
  {
    |s| - |SkipWS(Unmarked(s[p..]))| + |m.nl|
  }

  lemma {:induction false} SkipWSCut(b: seq<Byte>, n: nat)
    requires |b| - |SkipWS(b)| <= n <= |b|
    ensures SkipWS(b[..n]) == SkipWS(b)[..n - (|b| - |SkipWS(b)|)]
  {
    if b != [] && IsWS(b[0]) {
      assert b[..n][1..] == b[1..][..n - 1];
      SkipWSCut(b[1..], n - 1);
    }
  }

  lemma {:induction false} SkipWSIsTail(b: seq<Byte>)
    ensures b[|b| - |SkipWS(b)|..] == SkipWS(b)
  {
    if b != [] && IsWS(b[0]) {
      SkipWSIsTail(b[1..]);
    }
  }

  lemma UnmarkedCut(rest: seq<Byte>, n: nat)
    requires |rest| - |Unmarked(rest)| <= n <= |rest| && |Unmarked(rest)| > 0
    ensures n > |rest| - |Unmarked(rest)| && (rest[0] != HYPHEN || Marked(rest)) ==>
      Marked(rest[..n]) == Marked(rest) && Unmarked(rest[..n]) == Unmarked(rest)[..n - (|rest| - |Unmarked(rest)|)]
  {
    var c := rest[..n];
    if Marked(rest) {
      assert c[2..] == rest[2..][..n - 2];
    }
  }

  // How a whole delimiter line is taken, by what stands behind its boundary.
  lemma KindOfRest(m: Boundary, rest: seq<Byte>, n: nat)
    requires StandsAt(SkipWS(Unmarked(rest)), 0, m.nl) && n == |rest| - |SkipWS(Unmarked(rest))| + |m.nl|
    ensures n <= |rest| && SkipWS(Unmarked(rest[..n])) == m.nl && Marked(rest[..n]) == Marked(rest)
  {
    var (u, t) := (Unmarked(rest), SkipWS(Unmarked(rest)));
    assert t[0 + 0] == m.nl[0];
    if rest[0] == HYPHEN && !Marked(rest) {
      HyphenIsNoNewline(m, rest);
    }
    UnmarkedCut(rest, n);
    SkipWSCut(u, |u| - |t| + |m.nl|);
    assert t[..|m.nl|] == m.nl;
  }

  lemma DelimiterLineEnd(m: Boundary, s: seq<Byte>)
    requires StandsAt(s, 0, m.dash) && StandsAt(SkipWS(Unmarked(s[|m.dash|..])), 0, m.nl)
    ensures var d := DelimiterLength(m, s, |m.dash|); d <= |s| && LineEnd(s) == d - 1
  {
    NoNewlineBefore(m, s);
    EndOfNewline(m, s);
    LineEndIs(s, DelimiterLength(m, s, |m.dash|) - 1);
  }

  lemma DelimiterKind(m: Boundary, s: seq<Byte>, n: nat, marked: bool)
    requires StandsAt(s, 0, m.dash) && |m.dash| + n <= |s|
    requires SkipWS(Unmarked(s[|m.dash|..][..n])) == m.nl && Marked(s[|m.dash|..][..n]) == marked
    ensures KindOf(m, s[..|m.dash| + n]) == if marked then Ends else Opens
  {
    var line := s[..|m.dash| + n];
    assert line[|m.dash|..] == s[|m.dash|..][..n];
    SeenAt(line, s, 0, m.dash);
  }

  // The line of a delimiter that stands at the front of s, without the newline before it.
  lemma DelimiterLine(m: Boundary, s: seq<Byte>, rest: seq<Byte>, d: nat)
    requires StandsAt(s, 0, m.dash) && rest == s[|m.dash|..] && StandsAt(SkipWS(Unmarked(rest)), 0, m.nl)
    requires d == |s| - |SkipWS(Unmarked(rest))| + |m.nl|
    ensures d <= |s| && KindOf(m, s[..d]) == if Marked(rest) then Ends else Opens
  {
    KindOfRest(m, rest, d - |m.dash|);
    DelimiterKind(m, s, d - |m.dash|, Marked(rest));
    assert |m.dash| + (d - |m.dash|) == d;
  }

  lemma NoNewlineBefore(m: Boundary, s: seq<Byte>)
    requires StandsAt(s, 0, m.dash)
    ensures forall j :: 0 <= j < |s| - |SkipWS(Unmarked(s[|m.dash|..]))| ==> !IsNewline(s[j])
  {
    var (rest, p) := (s[|m.dash|..], |m.dash|);
    var (u, t) := (Unmarked(rest), SkipWS(Unmarked(rest)));
    forall j | 0 <= j < |s| - |t| ensures !IsNewline(s[j]) {
      if j < p {
        assert s[0 + j] == m.dash[j];
      } else if j >= |s| - |u| {
        OnlyBlanksSkipped(u, j - (|s| - |u|));
      }
    }
  }

  lemma EndOfNewline(m: Boundary, s: seq<Byte>)
    requires StandsAt(s, 0, m.dash) && StandsAt(SkipWS(Unmarked(s[|m.dash|..])), 0, m.nl)
    ensures var d := DelimiterLength(m, s, |m.dash|);
      && d <= |s| && s[d - 1] == LF && (|m.nl| == 2 ==> s[d - 2] != LF)
  {
    var rest := s[|m.dash|..];
    var (u, t) := (Unmarked(rest), SkipWS(Unmarked(rest)));
    SkipWSIsTail(u);
    assert s[|s| - |t|..] == t;
    assert t[0 + 0] == m.nl[0] && t[0 + (|m.nl| - 1)] == m.nl[|m.nl| - 1];
    assert s[|s| - |t|..][0] == t[0] && s[|s| - |t|..][|m.nl| - 1] == t[|m.nl| - 1];
  }

  // ------------------------------------------------------- going on to the next part

  // A part opens, and this is the stream from its first byte on; or there is none.
  datatype Step = Opened(m: Boundary, rest: seq<Byte>) | Stopped(e: Error)

  const BAD_LINE := Other(1)

  // checkPartEndEOF: the closing line without a newline.
  predicate EndMark(m: Boundary, line: seq<Byte>) {
    StandsAt(line, 0, m.dash) && Marked(line[|m.dash|..]) && SkipWS(Unmarked(line[|m.dash|..])) == []
  }

  datatype Turn = Opening(m: Boundary) | Closing(e: Error) | Skipping(m: Boundary, due: bool)

  // One line between two parts, and whether it is followed by a part. Before the first
  // part every line is skipped that is no delimiter; afterwards one newline may stand in
  // front of a delimiter, which is then due. A line that has been cut is none of them.
  function TakeLine(m: Boundary, line: seq<Byte>, first: bool, due: bool, cut: bool): Turn {
    var a := if cut then m else Adapted(m, line, first);
    var kind := if cut then Plain else KindOf(a, line);
    match kind
    case Opens => Opening(a)
    case Ends => Closing(EOF)
    case Plain =>
      if due then Closing(BAD_LINE)
      else if first then Skipping(a, false)
      else if !cut && line == a.nl then Skipping(a, true)
      else Closing(BAD_LINE)
  }

  // nextPart on the whole stream.
  function Next(m: Boundary, s: seq<Byte>, first: bool, due: bool): Step
    decreases |s|
  {
    var i := LineEnd(s);
    if i < 0 then Stopped(if EndMark(m, s) then EOF else UnexpectedEOF)
    else
      match TakeLine(m, s[..i + 1], first, due, false)
      case Opening(a) => Opened(a, s[i + 1..])
      case Closing(e) => Stopped(e)
      case Skipping(a, due') => Next(a, s[i + 1..], first, due')
  }

  predicate LineFits(s: seq<Byte>, size: nat) {
    LineEnd(s) < size && (LineEnd(s) < 0 ==> |s| < size)
  }

  lemma LineComing(b: seq<Byte>, s: seq<Byte>, size: nat)
    requires b <= s && LineEnd(b) < 0 && LineFits(s, size)
    ensures |b| < size
  {
    LineEndSeen(b, s);
  }

  // Every line that is looked at fits in a buffer of the given size.
  predicate LinesFit(m: Boundary, s: seq<Byte>, first: bool, due: bool, size: nat)
    decreases |s|
  {
    && LineFits(s, size)
    && var i := LineEnd(s);
      i < 0 || var turn := TakeLine(m, s[..i + 1], first, due, false);
        turn.Skipping? ==> LinesFit(turn.m, s[i + 1..], first, turn.due, size)
  }

  // The lines at the front of s lead to the given step.
  ghost predicate Leads(m: Boundary, s: seq<Byte>, first: bool, due: bool, size: nat, step: Step) {
    LinesFit(m, s, first, due, size) && Next(m, s, first, due) == step
  }

  // They still do so behind a line that has been taken.
  ghost predicate LeadsAfter(turn: Turn, rest: seq<Byte>, first: bool, size: nat, step: Step) {
    match turn
    case Opening(a) => step == Opened(a, rest)
    case Closing(e) => step == Stopped(e)
    case Skipping(a, due) => Leads(a, rest, first, due, size, step)
  }

  lemma LeadsOn(m: Boundary, s: seq<Byte>, first: bool, due: bool, size: nat, step: Step, i: nat)
    requires Leads(m, s, first, due, size, step) && i == LineEnd(s)
    ensures LeadsAfter(TakeLine(m, s[..i + 1], first, due, false), s[i + 1..], first, size, step)
  {
  }

  lemma LeadsNowhere(m: Boundary, s: seq<Byte>, first: bool, due: bool, size: nat, step: Step)
    requires Leads(m, s, first, due, size, step)
    ensures LineFits(s, size)
    ensures LineEnd(s) < 0 ==> step == Stopped(if EndMark(m, s) then EOF else UnexpectedEOF)
  {
  }

  // -------------------------------------------------- behind the end of a part

  // What follows a delimiter whose dash-boundary starts s.
  function Behind(m: Boundary, s: seq<Byte>): Step
    requires StandsAt(s, 0, m.dash) && Closes(m, s[|m.dash|..])
  {
    var rest := s[|m.dash|..];
    if Marked(rest) then Stopped(EOF) else Opened(m, SkipWS(rest)[|m.nl|..])
  }

  // What follows a part that has no bytes left.
  ghost function Following(p: Part): Step
    requires p.k == 0
  {
    if p.start && DelimiterFirst(p.m, p.s) then Behind(p.m, p.s)
    else
      FrontSplit(p.m, p.s);
      Behind(p.m, p.s[|p.m.nl|..])
  }

  lemma FrontSplit(m: Boundary, s: seq<Byte>)
    requires DelimiterAt(m, s, 0)
    ensures StandsAt(s, 0, m.nl) && |m.nl| <= |s| && StandsAt(s[|m.nl|..], 0, m.dash)
    ensures s[|m.nl|..][|m.dash|..] == s[0 + |m.front|..]
  {
    forall x | 0 <= x < |m.nl| ensures s[0 + x] == m.nl[x] {
      assert m.front[x] == m.nl[x];
    }
    forall x | 0 <= x < |m.dash| ensures s[|m.nl|..][0 + x] == m.dash[x] {
      assert m.front[|m.nl| + x] == m.dash[x] && s[0 + (|m.nl| + x)] == m.front[|m.nl| + x];
    }
  }

  // A whole delimiter line.
  lemma WholeLineLeads(m: Boundary, s: seq<Byte>, due: bool, size: nat)
    requires StandsAt(s, 0, m.dash) && StandsAt(SkipWS(Unmarked(s[|m.dash|..])), 0, m.nl)
    requires |m.dash| + 2 + Blanks(s[|m.dash|..]) + |m.nl| <= size
    ensures Leads(m, s, false, due, size, Behind(m, s))
  {
    var rest := s[|m.dash|..];
    var d := DelimiterLength(m, s, |m.dash|);
    DelimiterLineEnd(m, s);
    DelimiterLine(m, s, rest, d);
    SkipWSIsTail(Unmarked(rest));
    assert s[d..] == SkipWS(Unmarked(rest))[|m.nl|..];
    LineLeads(m, s, due, size, d, Marked(rest));
  }

  lemma LineLeads(m: Boundary, s: seq<Byte>, due: bool, size: nat, d: nat, marked: bool)
    requires 0 < d <= |s| && LineEnd(s) == d - 1 && d <= size
    requires KindOf(m, s[..d]) == if marked then Ends else Opens
    ensures Leads(m, s, false, due, size, if marked then Stopped(EOF) else Opened(m, s[d..]))
  {
    assert TakeLine(m, s[..LineEnd(s) + 1], false, due, false) == if marked then Closing(EOF) else Opening(m);
  }

  // A closing line without a newline, at the end of the stream.
  lemma LastLineLeads(m: Boundary, s: seq<Byte>, due: bool, size: nat)
    requires StandsAt(s, 0, m.dash) && Marked(s[|m.dash|..]) && SkipWS(Unmarked(s[|m.dash|..])) == []
    requires |m.dash| + 2 + Blanks(s[|m.dash|..]) + |m.nl| <= size
    ensures Leads(m, s, false, due, size, Stopped(EOF))
  {
    NoNewlineBefore(m, s);
    assert LineEnd(s) < 0;
  }

  lemma BoundaryLeads(m: Boundary, s: seq<Byte>, due: bool, size: nat)
    requires StandsAt(s, 0, m.dash) && Closes(m, s[|m.dash|..])
    requires |m.dash| + 2 + Blanks(s[|m.dash|..]) + |m.nl| <= size
    ensures Leads(m, s, false, due, size, Behind(m, s))
  {
    if StandsAt(SkipWS(Unmarked(s[|m.dash|..])), 0, m.nl) {
      WholeLineLeads(m, s, due, size);
    } else {
      LastLineLeads(m, s, due, size);
    }
  }

  // The newline in front of a delimiter.
  lemma NewlineLeads(m: Boundary, s: seq<Byte>, size: nat, step: Step)
    requires StandsAt(s, 0, m.nl) && |m.nl| <= size && Leads(m, s[|m.nl|..], false, true, size, step)
    ensures Leads(m, s, false, false, size, step)
  {
    assert s[0 + 0] == m.nl[0] && s[0 + (|m.nl| - 1)] == m.nl[|m.nl| - 1];
    LineEndIs(s, |m.nl| - 1);
    assert s[..|m.nl|] == m.nl;
    assert !StandsAt(m.nl, 0, m.dash) by {
      assert m.nl[0] != HYPHEN;
    }
    assert TakeLine(m, m.nl, false, false, false) == Skipping(m, true);
  }

  // When a part has been read to its end, the lines that come next are its delimiter.
  lemma EndLeads(p: Part)
    requires p.k == 0
    ensures Leads(p.m, p.s, false, false, p.size, Following(p))
  {
    if p.start && DelimiterFirst(p.m, p.s) {
      BoundaryLeads(p.m, p.s, false, p.size);
    } else {
      FrontSplit(p.m, p.s);
      BoundaryLeads(p.m, p.s[|p.m.nl|..], true, p.size);
      NewlineLeads(p.m, p.s, p.size, Following(p));
    }
  }
}
