// Parts that have been framed come back unchanged, however the stream is cut.
module MultiRoundTrip {
  import opened Common
  import opened Source
  import opened BufReader
  import opened Multipart
  import opened MultiLines
  import opened MultiReader
  import opened MultiSplit
  import opened MultiWriter

  // No line of the text starts with the dash-boundary.
  ghost predicate NoBoundaryLine(dash: Dash, c: seq<Byte>) {
    forall i: nat | i <= |c| && (i == 0 || c[i - 1] == LF) :: !StandsAt(c, i, dash)
  }

  type Text = t: Framing | t.Valid() ghost witness Framing([HYPHEN, HYPHEN], [], [HYPHEN, HYPHEN, LF], 16)

  // A text, the newline and dash-boundary behind it, and the stream from there on.
  datatype Framing = Framing(dash: Dash, c: seq<Byte>, behind: seq<Byte>, size: nat) {
    ghost predicate Valid() {
      && NoBoundaryLine(dash, c) && |dash| + 6 <= size
      && (BeginsLine(behind) || EndsLine(behind))
    }

    function Stream(): seq<Byte> {
      c + [LF] + dash + behind
    }
  }

  predicate BeginsLine(s: seq<Byte>) {
    s != [] && s[0] == LF
  }

  predicate EndsLine(s: seq<Byte>) {
    |s| >= 3 && s[0] == HYPHEN && s[1] == HYPHEN && s[2] == LF
  }

  lemma NoNewlineInside(dash: Dash, s: seq<Byte>, i: nat, j: nat)
    requires StandsAt(s, i, dash) && i <= j < i + |dash|
    ensures s[j] != LF
  {
    assert s[i + (j - i)] == dash[j - i];
  }

  // A dash-boundary in the stream is not cut off by the end of the text.
  lemma NotAcross(t: Text, i: nat)
    requires i <= |t.c| && StandsAt(t.Stream(), i, t.dash)
    ensures StandsAt(t.c, i, t.dash)
  {
    var s := t.Stream();
    assert s[|t.c|] == LF;
    if i + |t.dash| > |t.c| {
      NoNewlineInside(t.dash, s, i, |t.c|);
    }
    assert t.c == s[..|t.c|];
  }

  lemma FrontParts(m: Boundary, s: seq<Byte>, i: nat)
    requires m.nl == [LF]
    ensures StandsAt(s, i, m.front) <==> i < |s| && s[i] == LF && StandsAt(s, i + 1, m.dash)
  {
    if StandsAt(s, i, m.front) {
      assert s[i + 0] == m.front[0];
      forall x | 0 <= x < |m.dash| ensures s[i + 1 + x] == m.dash[x] {
        assert s[i + (1 + x)] == m.front[1 + x];
      }
    }
    if i < |s| && s[i] == LF && StandsAt(s, i + 1, m.dash) {
      forall x | 0 <= x < |m.front| ensures s[i + x] == m.front[x] {
        if x > 0 {
          assert s[i + 1 + (x - 1)] == m.dash[x - 1];
        }
      }
    }
  }

  lemma OnlyBehind(t: Text, m: Boundary, i: nat)
    requires m == WithNewline(t.dash, false) && i < |t.c|
    ensures !StandsAt(t.Stream(), i, m.front) && !StandsAt(t.Stream(), 0, m.dash)
  {
    FrontParts(m, t.Stream(), i);
    if StandsAt(t.Stream(), i, m.front) {
      assert t.Stream()[i] == t.c[i];
      NotAcross(t, i + 1);
    }
    if StandsAt(t.Stream(), 0, m.dash) {
      NotAcross(t, 0);
    }
  }

  lemma BehindIt(t: Text, m: Boundary)
    requires m == WithNewline(t.dash, false)
    ensures StandsAt(t.Stream(), |t.c|, m.front) && t.Stream()[|t.c| + |m.front|..] == t.behind
    ensures !StandsAt(t.Stream(), 0, m.dash)
  {
    FrontParts(m, t.Stream(), |t.c|);
    if StandsAt(t.Stream(), 0, m.dash) {
      NotAcross(t, 0);
    }
  }

  lemma BehindCloses(m: Boundary, behind: seq<Byte>)
    requires m.nl == [LF] && (BeginsLine(behind) || EndsLine(behind))
    ensures Closes(m, behind) && Blanks(behind) == 0 && Marked(behind) == !BeginsLine(behind)
    ensures SkipWS(Unmarked(behind)) == Unmarked(behind)
  {
  }

  // The text is a part of the stream, and there is nothing in it that looks like its end.
  lemma TextIsPart(t: Text)
    ensures var m := WithNewline(t.dash, false); Rest(m, t.Stream(), true, t.size, |t.c|).Valid()
  {
    var (m, s) := (WithNewline(t.dash, false), t.Stream());
    BehindIt(t, m);
    BehindCloses(m, t.behind);
    forall i: nat | i < |t.c| ensures !StandsAt(s, i, m.front) {
      OnlyBehind(t, m, i);
    }
  }

  // Where reading goes on behind a dash-boundary.
  function Onwards(m: Boundary, behind: seq<Byte>): Step
  {
    if BeginsLine(behind) then Opened(m, behind[1..]) else Stopped(EOF)
  }

  ghost function PartOf(t: Text): (p: Part)
    ensures p == Rest(WithNewline(t.dash, false), t.Stream(), true, t.size, |t.c|)
  {
    TextIsPart(t);
    Rest(WithNewline(t.dash, false), t.Stream(), true, t.size, |t.c|)
  }

  lemma BehindBoundary(m: Boundary, s: seq<Byte>, behind: seq<Byte>)
    requires m.nl == [LF] && (BeginsLine(behind) || EndsLine(behind)) && s == m.dash + behind
    ensures StandsAt(s, 0, m.dash) && Closes(m, s[|m.dash|..]) && Behind(m, s) == Onwards(m, behind)
  {
    BehindCloses(m, behind);
    assert s[|m.dash|..] == behind;
  }

  lemma FollowingNewline(p: Part, behind: seq<Byte>)
    requires p.k == 0 && p.m.nl == [LF] && (BeginsLine(behind) || EndsLine(behind))
    requires p.s == [LF] + p.m.dash + behind
    ensures Following(p) == Onwards(p.m, behind)
  {
    assert p.s[1..] == p.m.dash + behind;
    BehindBoundary(p.m, p.s[1..], behind);
    assert !StandsAt(p.s, 0, p.m.dash) by {
      assert p.s[0] == LF != p.m.dash[0];
    }
  }

  lemma TextAtFront(t: Text, s: seq<Byte>)
    requires s == t.Stream()
    ensures |t.c| <= |s| && s[..|t.c|] == t.c && s[|t.c|..] == [LF] + t.dash + t.behind
  {
  }

  lemma BehindText(t: Text)
    ensures Following(AtEnd(PartOf(t))) == Onwards(WithNewline(t.dash, false), t.behind)
  {
    TextAtFront(t, t.Stream());
    FollowingNewline(AtEnd(PartOf(t)), t.behind);
  }

  // ------------------------------------------------------------ the preamble

  predicate ShortLines(c: seq<Byte>, size: nat)
    decreases |c|
  {
    LineFits(c, size) && (LineEnd(c) < 0 || ShortLines(c[LineEnd(c) + 1..], size))
  }

  lemma PlainLineLeads(m: Boundary, s: seq<Byte>, i: nat, size: nat, step: Step)
    requires LineEnd(s) == i && i < size && !StandsAt(s[..i + 1], 0, m.dash)
    requires Leads(m, s[i + 1..], true, false, size, step)
    ensures Leads(m, s, true, false, size, step)
  {
    assert TakeLine(m, s[..i + 1], true, false, false) == Skipping(m, false);
  }

  lemma NotInLine(dash: Dash, s: seq<Byte>, c: seq<Byte>, i: nat)
    requires i < |s| && s[i] == LF && (forall j :: 0 <= j < i ==> s[j] != LF) && !StandsAt(c, 0, dash)
    requires i <= |c| && s[..i] == c[..i]
    ensures !StandsAt(s[..i + 1], 0, dash)
  {
    if StandsAt(s[..i + 1], 0, dash) {
      if |dash| == i + 1 {
        NoNewlineInside(dash, s[..i + 1], 0, i);
      }
      forall x | 0 <= x < |dash| ensures c[0 + x] == dash[x] {
        assert s[..i + 1][0 + x] == dash[x] && s[..i][x] == c[..i][x];
      }
    }
  }

  lemma FirstOfBoth(pre: seq<Byte>, t: seq<Byte>, s: seq<Byte>, i: nat)
    requires s == pre + [LF] + t && i == if LineEnd(pre) < 0 then |pre| else LineEnd(pre)
    ensures i < |s| && i <= |pre| && LineEnd(s) == i && s[i] == LF && s[..i] == pre[..i]
    ensures forall j :: 0 <= j < i ==> s[j] != LF
    ensures s[i + 1..] == if LineEnd(pre) < 0 then t else pre[i + 1..] + [LF] + t
  {
    LineEndIs(s, i);
  }

  lemma {:induction false} PreambleLeads(m: Boundary, pre: seq<Byte>, t: seq<Byte>, size: nat, step: Step)
    requires NoBoundaryLine(m.dash, pre) && ShortLines(pre, size) && Leads(m, t, true, false, size, step)
    ensures Leads(m, pre + [LF] + t, true, false, size, step)
    decreases |pre|
  {
    var (s, end) := (pre + [LF] + t, LineEnd(pre));
    var i := if end < 0 then |pre| else end;
    FirstOfBoth(pre, t, s, i);
    NotInLine(m.dash, s, pre, i);
    if end >= 0 {
      NoBoundaryBehind(m.dash, pre, i + 1);
      PreambleLeads(m, pre[i + 1..], t, size, step);
    }
    PlainLineLeads(m, s, i, size, step);
  }

  lemma NoBoundaryBehind(dash: Dash, c: seq<Byte>, i: nat)
    requires NoBoundaryLine(dash, c) && 0 < i <= |c| && c[i - 1] == LF
    ensures NoBoundaryLine(dash, c[i..])
  {
    forall j: nat | j <= |c[i..]| && (j == 0 || c[i..][j - 1] == LF) ensures !StandsAt(c[i..], j, dash) {
      ShiftStands(c, i, j, dash);
    }
  }

  // The line that a dash-boundary and what is behind it begin with.
  lemma FirstLine(dash: Dash, behind: seq<Byte>, s: seq<Byte>, n: nat)
    requires s == dash + behind && (BeginsLine(behind) || EndsLine(behind)) && n == if BeginsLine(behind) then 1 else 3
    ensures |dash| + n <= |s| && LineEnd(s) == |dash| + n - 1 && StandsAt(s[..|dash| + n], 0, dash)
    ensures s[..|dash| + n][|dash|..] == if BeginsLine(behind) then [LF] else [HYPHEN, HYPHEN, LF]
    ensures BeginsLine(behind) ==> s[|dash| + n..] == behind[1..]
  {
    LineEndIs(s, |dash| + n - 1);
    CutBehind(dash, behind, n);
  }

  lemma CutBehind(a: seq<Byte>, b: seq<Byte>, n: nat)
    requires n <= |b|
    ensures (a + b)[..|a| + n] == a + b[..n] && (a + b[..n])[|a|..] == b[..n] && (a + b)[|a| + n..] == b[n..]
  {
  }

  lemma FirstTurn(dash: Dash, line: seq<Byte>)
    requires StandsAt(line, 0, dash) && (line[|dash|..] == [LF] || line[|dash|..] == [HYPHEN, HYPHEN, LF])
    ensures TakeLine(WithNewline(dash, true), line, true, false, false)
      == if line[|dash|..] == [LF] then Opening(WithNewline(dash, false)) else Closing(EOF)
  {
    assert SkipWS([LF]) == [LF];
    assert Unmarked(line[|dash|..]) == [LF];
  }

  // The first dash-boundary tells the newline of the message.
  lemma FirstLeads(dash: Dash, behind: seq<Byte>, size: nat)
    requires |dash| + 6 <= size && (BeginsLine(behind) || EndsLine(behind))
    ensures Leads(WithNewline(dash, true), dash + behind, true, false, size, Onwards(WithNewline(dash, false), behind))
  {
    var (s, n) := (dash + behind, if BeginsLine(behind) then 1 else 3);
    FirstLine(dash, behind, s, n);
    FirstTurn(dash, s[..|dash| + n]);
  }

  // -------------------------------------------------------------- round trip

  ghost predicate AllText(dash: Dash, parts: seq<seq<Byte>>) {
    forall i :: 0 <= i < |parts| ==> NoBoundaryLine(dash, parts[i])
  }

  lemma RemainingBegins(dash: Dash, parts: seq<seq<Byte>>, post: seq<Byte>)
    ensures if parts == [] then EndsLine(Remaining(dash, parts, post)) else BeginsLine(Remaining(dash, parts, post))
  {
  }

  // The first of the parts, in front of the others.
  ghost function FirstText(dash: Dash, parts: seq<seq<Byte>>, post: seq<Byte>, size: nat): (t: Text)
    requires parts != [] && AllText(dash, parts) && |dash| + 6 <= size
    ensures t == Framing(dash, parts[0], Remaining(dash, parts[1..], post), size)
    ensures Remaining(dash, parts, post)[1..] == t.Stream()
  {
    RemainingBegins(dash, parts[1..], post);
    assert NoBoundaryLine(dash, parts[0]);
    Framing(dash, parts[0], Remaining(dash, parts[1..], post), size)
  }

  lemma LeadFirst(pre: seq<Byte>, dash: seq<Byte>, rest: seq<Byte>)
    ensures Lead(pre) + dash + rest == if pre == [] then dash + rest else pre + [LF] + (dash + rest)
  {
  }

  lemma FramedLeads(dash: Dash, pre: seq<Byte>, rest: seq<Byte>, size: nat)
    requires |dash| + 6 <= size && NoBoundaryLine(dash, pre) && ShortLines(pre, size)
    requires BeginsLine(rest) || EndsLine(rest)
    ensures Leads(WithNewline(dash, true), Lead(pre) + dash + rest, true, false, size, Onwards(WithNewline(dash, false), rest))
  {
    FirstLeads(dash, rest, size);
    LeadFirst(pre, dash, rest);
    if pre != [] {
      PreambleLeads(WithNewline(dash, true), pre, dash + rest, size, Onwards(WithNewline(dash, false), rest));
    }
  }

  lemma TextSplits(t: Text, p: Part, step: Step)
    requires p == PartOf(t) && step == Onwards(p.m, t.behind) && SplitFits(step, t.size)
    ensures Split(Opened(p.m, p.s)) == Prepend(t.c, Split(step)) && SplitFits(Opened(p.m, p.s), p.size)
  {
    BehindText(t);
    assert Following(AtEnd(p)) == step;
    PartSplits(p);
    TextAtFront(t, p.s);
  }

  lemma FirstOpens(dash: Dash, parts: seq<seq<Byte>>, post: seq<Byte>, size: nat)
    requires parts != [] && AllText(dash, parts) && |dash| + 6 <= size
    ensures Onwards(WithNewline(dash, false), Remaining(dash, parts, post))
      == Opened(WithNewline(dash, false), FirstText(dash, parts, post, size).Stream())
  {
  }

  lemma FirstSplits(dash: Dash, parts: seq<seq<Byte>>, post: seq<Byte>, size: nat, step: Step, next: Step)
    requires parts != [] && AllText(dash, parts) && |dash| + 6 <= size && SplitFits(next, size)
    requires step == Onwards(WithNewline(dash, false), Remaining(dash, parts, post))
    requires next == Onwards(WithNewline(dash, false), Remaining(dash, parts[1..], post))
    requires Split(next) == Some(parts[1..])
    ensures Split(step) == Some(parts) && SplitFits(step, size)
  {
    var t := FirstText(dash, parts, post, size);
    FirstOpens(dash, parts, post, size);
    TextSplits(t, PartOf(t), next);
    HeadAndTail(parts);
  }

  lemma HeadAndTail(parts: seq<seq<Byte>>)
    requires parts != []
    ensures [parts[0]] + parts[1..] == parts
  {
  }

  lemma NoneSplits(dash: Dash, post: seq<Byte>, size: nat, step: Step)
    requires step == Onwards(WithNewline(dash, false), Remaining(dash, [], post))
    ensures Split(step) == Some([]) && SplitFits(step, size)
  {
    assert step == Stopped(EOF);
  }

  // Framed parts are the split of what they are framed in.
  lemma {:induction false} RemainingSplits(dash: Dash, parts: seq<seq<Byte>>, post: seq<Byte>, size: nat, step: Step)
    requires AllText(dash, parts) && |dash| + 6 <= size
    requires step == Onwards(WithNewline(dash, false), Remaining(dash, parts, post))
    ensures Split(step) == Some(parts) && SplitFits(step, size)
    decreases |parts|
  {
    if parts == [] {
      NoneSplits(dash, post, size, step);
    } else {
      var next := Onwards(WithNewline(dash, false), Remaining(dash, parts[1..], post));
      RemainingSplits(dash, parts[1..], post, size, next);
      FirstSplits(dash, parts, post, size, step, next);
    }
  }

  lemma FramedSplits(dash: Dash, pre: seq<Byte>, parts: seq<seq<Byte>>, post: seq<Byte>, size: nat)
    requires |dash| + 6 <= size && NoBoundaryLine(dash, pre) && ShortLines(pre, size) && AllText(dash, parts)
    ensures Message(dash, Framed(dash, pre, parts, post)) == Some(parts) && MessageFits(dash, Framed(dash, pre, parts, post), size)
  {
    RemainingBegins(dash, parts, post);
    FramedLeads(dash, pre, Remaining(dash, parts, post), size);
    RemainingSplits(dash, parts, post, size, Onwards(WithNewline(dash, false), Remaining(dash, parts, post)));
  }

  // Reading all the parts of a multipart body that has been framed.
  method ReadParts(u: Source, dash: Dash, size: nat, sizes: seq<seq<nat>>, piece: nat,
                   ghost pre: seq<Byte>, ghost parts: seq<seq<Byte>>, ghost post: seq<Byte>)
    returns (got: seq<seq<Byte>>, e: Option<Error>)
    requires |dash| + 6 <= size && piece > 0
    requires u.Rest() == Bytes(Framed(dash, pre, parts, post))
    requires NoBoundaryLine(dash, pre) && ShortLines(pre, size) && AllText(dash, parts)
    modifies u
    ensures got == parts && e == Some(EOF)
  {
    FramedSplits(dash, pre, parts, post, size);
    got, e := ReadMessage(u, dash, size, sizes, piece, Framed(dash, pre, parts, post));
  }
}
