// The delimiters of a multipart body in the words of its grammar (section 5.1.1 of RFC 2046).
module MultiGrammar {
  import opened Common
  import opened Multipart
  import opened MultiLines

  // Transport padding: spaces and tabs.
  ghost predicate Padding(w: seq<Byte>) {
    forall i :: 0 <= i < |w| ==> w[i] == 32 || w[i] == 9
  }

  // What may follow a dash-boundary: two hyphens if it is the last one, padding, and a
  // newline; and behind the last one the stream may also end.
  ghost predicate Follows(m: Boundary, rest: seq<Byte>, last: bool) {
    || (exists w: seq<Byte>, more: seq<Byte> :: Padding(w) && rest == Mark(last) + w + m.nl + more)
    || (last && exists w: seq<Byte> :: Padding(w) && rest == Mark(last) + w)
  }

  function Mark(last: bool): seq<Byte> {
    if last then [45, 45] else []
  }

  lemma FollowsLine(m: Boundary, rest: seq<Byte>, last: bool, w: seq<Byte>, more: seq<Byte>)
    requires Padding(w) && rest == Mark(last) + w + m.nl + more
    ensures Follows(m, rest, last)
  {
  }

  lemma FollowsEnd(m: Boundary, rest: seq<Byte>, w: seq<Byte>)
    requires Padding(w) && rest == Mark(true) + w
    ensures Follows(m, rest, true)
  {
  }

  lemma {:induction false} PaddingSkipped(w: seq<Byte>, more: seq<Byte>)
    requires Padding(w) && (more == [] || !IsWS(more[0]))
    ensures SkipWS(w + more) == more
  {
    if w == [] {
      assert w + more == more;
    } else {
      assert (w + more)[1..] == w[1..] + more;
      PaddingSkipped(w[1..], more);
    }
  }

  lemma SkippedIsPadding(b: seq<Byte>) returns (w: seq<Byte>)
    ensures Padding(w) && b == w + SkipWS(b)
  {
    w := b[..|b| - |SkipWS(b)|];
    SkipWSIsTail(b);
    forall i | 0 <= i < |w| ensures w[i] == 32 || w[i] == 9 {
      OnlyBlanksSkipped(b, i);
    }
  }

  lemma NewlineFirst(m: Boundary, t: seq<Byte>)
    ensures StandsAt(t, 0, m.nl) <==> |m.nl| <= |t| && t == m.nl + t[|m.nl|..]
  {
    if StandsAt(t, 0, m.nl) {
      assert forall x :: 0 <= x < |m.nl| ==> t[0 + x] == m.nl[x];
    }
  }

  lemma UnmarkedTail(rest: seq<Byte>)
    ensures rest == Mark(Marked(rest)) + Unmarked(rest)
  {
  }

  lemma Joined4(mark: seq<Byte>, w: seq<Byte>, nl: seq<Byte>, more: seq<Byte>)
    ensures mark + (w + (nl + more)) == mark + w + nl + more
  {
  }

  lemma ClosesByGrammar(m: Boundary, rest: seq<Byte>)
    requires Closes(m, rest)
    ensures Follows(m, rest, Marked(rest))
  {
    var u := Unmarked(rest);
    var t := SkipWS(u);
    var w := SkippedIsPadding(u);
    UnmarkedTail(rest);
    NewlineFirst(m, t);
    if StandsAt(t, 0, m.nl) {
      Joined4(Mark(Marked(rest)), w, m.nl, t[|m.nl|..]);
      FollowsLine(m, rest, Marked(rest), w, t[|m.nl|..]);
    } else {
      assert w + [] == w;
      FollowsEnd(m, rest, w);
    }
  }

  lemma GrammarCloses(m: Boundary, rest: seq<Byte>, last: bool)
    requires Follows(m, rest, last)
    ensures Closes(m, rest) && Marked(rest) == last
  {
    if exists w: seq<Byte>, more: seq<Byte> :: Padding(w) && rest == Mark(last) + w + m.nl + more {
      var w: seq<Byte>, more: seq<Byte> :| Padding(w) && rest == Mark(last) + w + m.nl + more;
      WithNewline(m, rest, last, w, more);
    } else {
      var w: seq<Byte> :| Padding(w) && rest == Mark(last) + w;
      assert w + [] == w;
      PaddingSkipped(w, []);
      assert Unmarked(rest) == w;
    }
  }

  lemma WithNewline(m: Boundary, rest: seq<Byte>, last: bool, w: seq<Byte>, more: seq<Byte>)
    requires Padding(w) && rest == Mark(last) + w + m.nl + more
    ensures Closes(m, rest) && Marked(rest) == last
  {
    var t := m.nl + more;
    PaddingSkipped(w, t);
    assert rest == Mark(last) + (w + t);
    if !last {
      assert (w + t)[0] != 45;
    }
    assert Unmarked(rest) == w + t;
    assert t[|m.nl|..] == more;
    NewlineFirst(m, t);
  }

  // A line is a delimiter, and the last one, exactly if the grammar says so.
  lemma ClosesIs(m: Boundary, rest: seq<Byte>)
    ensures Closes(m, rest) && Marked(rest) <==> Follows(m, rest, true)
    ensures Closes(m, rest) && !Marked(rest) <==> Follows(m, rest, false)
  {
    if Closes(m, rest) {
      ClosesByGrammar(m, rest);
    }
    if Follows(m, rest, true) {
      GrammarCloses(m, rest, true);
    }
    if Follows(m, rest, false) {
      GrammarCloses(m, rest, false);
    }
  }

  // What stands at the front of s is a newline, the dash-boundary, and one of these endings.
  ghost predicate Delimiter(m: Boundary, s: seq<Byte>, rest: seq<Byte>, last: bool) {
    s == m.nl + m.dash + rest && Follows(m, rest, last)
  }

  lemma DelimiterByGrammar(m: Boundary, s: seq<Byte>, i: nat) returns (rest: seq<Byte>, last: bool)
    requires i <= |s| && DelimiterAt(m, s, i)
    ensures Delimiter(m, s[i..], rest, last)
  {
    rest := s[i + |m.front|..];
    last := Marked(rest);
    FrontAt(m, s, i);
    ClosesIs(m, rest);
  }

  lemma GrammarDelimits(m: Boundary, s: seq<Byte>, i: nat, rest: seq<Byte>, last: bool)
    requires i <= |s| && Delimiter(m, s[i..], rest, last)
    ensures DelimiterAt(m, s, i)
  {
    GrammarCloses(m, rest, last);
    FrontStands(m, s, i, rest);
  }

  // A delimiter stands at an index exactly if the grammar says so.
  lemma DelimiterIs(m: Boundary, s: seq<Byte>, i: nat)
    requires i <= |s|
    ensures DelimiterAt(m, s, i) <==> exists rest: seq<Byte>, last: bool :: Delimiter(m, s[i..], rest, last)
  {
    if DelimiterAt(m, s, i) {
      var rest, last := DelimiterByGrammar(m, s, i);
    }
    if exists rest: seq<Byte>, last: bool :: Delimiter(m, s[i..], rest, last) {
      var rest: seq<Byte>, last: bool :| Delimiter(m, s[i..], rest, last);
      GrammarDelimits(m, s, i, rest, last);
    }
  }

  lemma FrontAt(m: Boundary, s: seq<Byte>, i: nat)
    requires StandsAt(s, i, m.front)
    ensures s[i..] == m.nl + m.dash + s[i + |m.front|..]
  {
    assert s[i..][..|m.front|] == m.front;
    assert s[i..] == s[i..][..|m.front|] + s[i..][|m.front|..];
  }

  lemma FrontStands(m: Boundary, s: seq<Byte>, i: nat, rest: seq<Byte>)
    requires i <= |s| && s[i..] == m.nl + m.dash + rest
    ensures StandsAt(s, i, m.front) && s[i + |m.front|..] == rest
  {
    assert forall x :: 0 <= x < |m.front| ==> s[i + x] == s[i..][x] == m.front[x];
    assert s[i..][|m.front|..] == rest;
  }
}
