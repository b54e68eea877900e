// Where the parts of a multipart body end (section 5.1.1 of RFC 2046), on the whole input.
module Multipart {
  import opened Common

  const LF: Byte := 10
  const CR: Byte := 13
  const HYPHEN: Byte := 45

  predicate IsWS(c: Byte) {
    c == 32 || c == 9
  }

  predicate IsNewline(c: Byte) {
    c == CR || c == LF
  }

  // The dash-boundary, the newline the message uses, and the two together.
  datatype Marks = Marks(dash: seq<Byte>, nl: seq<Byte>, front: seq<Byte>) {
    predicate Valid() {
      && 2 <= |dash| && dash[0] == HYPHEN && dash[1] == HYPHEN
      && (forall i :: 0 <= i < |dash| ==> !IsNewline(dash[i]))
      && (nl == [CR, LF] || nl == [LF]) && 1 <= |nl| <= 2
      && front == nl + dash
      && (forall i :: 0 < i < |front| ==> front[i] != front[0])
    }
  }

  type Boundary = m: Marks | m.Valid()
    witness Marks([HYPHEN, HYPHEN], [LF], [LF, HYPHEN, HYPHEN])

  type Dash = d: seq<Byte> | 2 <= |d| && d[0] == HYPHEN && d[1] == HYPHEN && forall i :: 0 <= i < |d| ==> !IsNewline(d[i])
    witness [HYPHEN, HYPHEN]

  function WithNewline(dash: Dash, crlf: bool): (m: Boundary)
    ensures m.dash == dash && m.nl == if crlf then [CR, LF] else [LF]
  {
    var nl := if crlf then [CR, LF] else [LF];
    Marks(dash, nl, nl + dash)
  }

  function SkipWS(b: seq<Byte>): (r: seq<Byte>)
    ensures |r| <= |b|
    ensures r != [] ==> !IsWS(r[0])
  {
    if b != [] && IsWS(b[0]) then SkipWS(b[1..]) else b
  }

  predicate Marked(b: seq<Byte>) {
    |b| >= 2 && b[0] == HYPHEN && b[1] == HYPHEN
  }

  function Unmarked(b: seq<Byte>): seq<Byte> {
    if Marked(b) then b[2..] else b
  }

  // p stands in s at index i.
  predicate StandsAt(s: seq<Byte>, i: nat, p: seq<Byte>) {
    i + |p| <= |s| && forall x :: 0 <= x < |p| ==> s[i + x] == p[x]
  }

  // From index i on, s is the beginning of p.
  predicate BeginsAt(s: seq<Byte>, i: nat, p: seq<Byte>) {
    i <= |s| <= i + |p| && forall x :: i <= x < |s| ==> s[x] == p[x - i]
  }

  // Behind a dash-boundary, rest makes a delimiter line of it: the closing mark, white
  // space, and a newline, or the end of the stream after the closing mark.
  predicate Closes(m: Boundary, rest: seq<Byte>) {
    var t := SkipWS(Unmarked(rest));
    StandsAt(t, 0, m.nl) || (Marked(rest) && t == [])
  }

  // A delimiter, with the newline that belongs to it, at index i.
  predicate DelimiterAt(m: Boundary, s: seq<Byte>, i: nat) {
    StandsAt(s, i, m.front) && Closes(m, s[i + |m.front|..])
  }

  // A delimiter right at the start of a part, which needs no newline in front.
  predicate DelimiterFirst(m: Boundary, s: seq<Byte>) {
    StandsAt(s, 0, m.dash) && Closes(m, s[|m.dash|..])
  }

  ghost predicate NoneBelow(m: Boundary, s: seq<Byte>, n: nat) {
    forall i: nat | i < n :: !DelimiterAt(m, s, i)
  }

  // The part that starts s, or goes on in it, has k more bytes.
  ghost predicate Ends(m: Boundary, s: seq<Byte>, start: bool, k: nat) {
    if start && DelimiterFirst(m, s) then k == 0 else DelimiterAt(m, s, k) && NoneBelow(m, s, k)
  }

  lemma EndsOnce(m: Boundary, s: seq<Byte>, start: bool, k: nat, k': nat)
    requires Ends(m, s, start, k) && Ends(m, s, start, k')
    ensures k == k'
  {
  }

  lemma ShiftStands(s: seq<Byte>, w: nat, i: nat, p: seq<Byte>)
    requires w <= |s|
    ensures StandsAt(s[w..], i, p) <==> StandsAt(s, w + i, p)
  {
  }

  lemma DelimiterShift(m: Boundary, s: seq<Byte>, w: nat, i: nat)
    requires w <= |s|
    ensures DelimiterAt(m, s[w..], i) <==> DelimiterAt(m, s, w + i)
  {
    ShiftStands(s, w, i, m.front);
    if w + i + |m.front| <= |s| {
      assert s[w..][i + |m.front|..] == s[w + i + |m.front|..];
    }
  }

  // Taking some bytes of the part leaves the rest of it.
  lemma EndsLater(m: Boundary, s: seq<Byte>, k: nat, w: nat)
    requires DelimiterAt(m, s, k) && NoneBelow(m, s, k) && w <= k <= |s|
    ensures Ends(m, s[w..], false, k - w)
  {
    DelimiterShift(m, s, w, k - w);
    NoneBelowAfter(m, s, k, w);
  }

  lemma NoneBelowAfter(m: Boundary, s: seq<Byte>, k: nat, w: nat)
    requires NoneBelow(m, s, k) && w <= k <= |s|
    ensures NoneBelow(m, s[w..], k - w)
  {
    forall i: nat | i < k - w ensures !DelimiterAt(m, s[w..], i) {
      DelimiterShift(m, s, w, i);
    }
  }

  // ---------------------------------------------- deciding on a piece of it

  // How many blanks follow a dash-boundary and its closing mark.
  function Blanks(rest: seq<Byte>): nat {
    |Unmarked(rest)| - |SkipWS(Unmarked(rest))|
  }

  datatype Answer = Yes | Unknown | No

  // checkAfterPrefix: whether a delimiter line is complete, by what is buffered of it.
  function Check(m: Boundary, b: seq<Byte>, eof: bool): Answer {
    if b == [] then Unknown
    else if b[0] == HYPHEN && |b| == 1 then Unknown
    else if b[0] == HYPHEN && b[1] != HYPHEN then No
    else
      var t := SkipWS(Unmarked(b));
      if t == [] then (if Marked(b) && eof then Yes else Unknown)
      else if |t| < |m.nl| then Unknown
      else if StandsAt(t, 0, m.nl) then Yes
      else No
  }

  lemma {:induction false} SkipWSAppend(a: seq<Byte>, b: seq<Byte>)
    ensures SkipWS(a) != [] ==> SkipWS(a + b) == SkipWS(a) + b
    ensures SkipWS(a) == [] ==> SkipWS(a + b) == SkipWS(b)
  {
    if a == [] {
      assert a + b == b;
    } else if IsWS(a[0]) {
      assert (a + b)[1..] == a[1..] + b;
      SkipWSAppend(a[1..], b);
    }
  }

  lemma UnmarkedAppend(b: seq<Byte>, more: seq<Byte>)
    requires |b| >= 2 || (b != [] && b[0] != HYPHEN)
    ensures Marked(b + more) == Marked(b) && Unmarked(b + more) == Unmarked(b) + more
  {
  }

  lemma HyphenIsNoNewline(m: Boundary, s: seq<Byte>)
    requires s != [] && s[0] == HYPHEN && !Marked(s)
    ensures !Closes(m, s)
  {
    assert SkipWS(s) == s;
    assert m.nl[0] != HYPHEN;
  }

  // An answer holds for every continuation.
  lemma CheckIsRight(m: Boundary, b: seq<Byte>, more: seq<Byte>)
    ensures Check(m, b, false) == Yes ==> Closes(m, b + more)
    ensures Check(m, b, false) == No ==> !Closes(m, b + more)
  {
    if Check(m, b, false) != Unknown {
      UnmarkedAppend(b, more);
      SkipWSAppend(Unmarked(b), more);
      if b[0] == HYPHEN && b[1] != HYPHEN {
        HyphenIsNoNewline(m, b + more);
      }
    }
  }

  // At the end of the stream there is always an answer.
  lemma CheckAtEnd(m: Boundary, b: seq<Byte>)
    ensures Closes(m, b) <==> Check(m, b, true) == Yes
  {
    if b != [] && b[0] == HYPHEN && !Marked(b) {
      HyphenIsNoNewline(m, b);
    }
  }

  // Without an answer little has been seen: not more than the mark, the blanks and less
  // than a newline.
  lemma CheckIsQuick(m: Boundary, b: seq<Byte>, more: seq<Byte>, eof: bool)
    requires Check(m, b, eof) == Unknown
    ensures |b| < 2 + Blanks(b + more) + |m.nl|
  {
    if |b| >= 2 || (b != [] && b[0] != HYPHEN) {
      UnmarkedAppend(b, more);
      var (u, t) := (Unmarked(b), SkipWS(Unmarked(b)));
      SkipWSAppend(u, more);
      if t == [] {
        assert Blanks(b + more) == |u| + |more| - |SkipWS(more)| >= |u|;
      } else {
        assert Blanks(b + more) == |u| - |t|;
      }
    }
  }

  // -------------------------------------------------------- what is readable

  // Nowhere before index n does p stand in s.
  ghost predicate NoneStands(s: seq<Byte>, p: seq<Byte>, n: nat) {
    forall j: nat | j < n :: !StandsAt(s, j, p)
  }

  // The first place where p is found in s, or -1.
  method Index(s: seq<Byte>, p: seq<Byte>) returns (i: int)
    ensures i == -1 || (i >= 0 && StandsAt(s, i, p))
    ensures NoneStands(s, p, if i < 0 then |s| + 1 else i)
  {
    i := 0;
    while i <= |s|
      invariant 0 <= i <= |s| + 1 && NoneStands(s, p, i)
    {
      if StandsAt(s, i, p) {
        return;
      }
      i := i + 1;
    }
    i := -1;
  }

  // The last place of c in s, or -1.
  function LastIndex(s: seq<Byte>, c: Byte): (i: int)
    ensures -1 <= i < |s|
    ensures i >= 0 ==> s[i] == c
    ensures forall j :: i < j < |s| ==> s[j] != c
  {
    if s == [] then -1 else if s[|s| - 1] == c then |s| - 1 else LastIndex(s[..|s| - 1], c)
  }

  datatype Found = Found(n: nat, ended: bool)

  // checkReadable when a dash-boundary ends at index i of the buffer: what stands before
  // it belongs to the part, and if it is no delimiter it does so too.
  function AtBoundary(from: nat, to: nat, a: Answer): Found {
    match a
    case Yes => Found(from, true)
    case Unknown => Found(from, false)
    case No => Found(to, false)
  }

  // checkReadable when none is found. The end of the buffer may be the beginning of one.
  function ReadableRest(m: Boundary, b: seq<Byte>): Found {
    if BeginsAt(b, 0, m.front) then Found(0, false)
    else
      var l := LastIndex(b, m.front[0]);
      if l >= 0 && BeginsAt(b, l, m.front) then Found(l, false) else Found(|b|, false)
  }

  // Some of the stream is buffered, all of it if its end has been seen.
  ghost predicate Seen(b: seq<Byte>, s: seq<Byte>, eof: bool) {
    b <= s && (eof ==> b == s)
  }

  lemma SeenAt(b: seq<Byte>, s: seq<Byte>, i: nat, p: seq<Byte>)
    requires b <= s && i + |p| <= |b|
    ensures StandsAt(b, i, p) <==> StandsAt(s, i, p)
  {
    assert b == s[..|b|];
  }

  lemma SeenPartly(b: seq<Byte>, s: seq<Byte>, i: nat, p: seq<Byte>)
    requires b <= s && i < |b| < i + |p| && StandsAt(s, i, p)
    ensures BeginsAt(b, i, p)
  {
    forall x | i <= x < |b| ensures b[x] == p[x - i] {
      assert s[i + (x - i)] == p[x - i];
    }
  }

  // What is found lies within the part, and the end is only found at the end.
  ghost predicate Right(m: Boundary, s: seq<Byte>, f: Found) {
    NoneBelow(m, s, f.n) && (f.ended ==> DelimiterAt(m, s, f.n))
  }

  // An answer about the stream behind p.
  ghost predicate Truthful(m: Boundary, s: seq<Byte>, p: nat, a: Answer) {
    && (a == Yes ==> p <= |s| && Closes(m, s[p..]))
    && (a == No ==> p <= |s| && !Closes(m, s[p..]))
  }

  lemma CheckTail(m: Boundary, b: seq<Byte>, s: seq<Byte>, eof: bool, p: nat)
    requires Seen(b, s, eof) && p <= |b|
    ensures Truthful(m, s, p, Check(m, b[p..], eof))
  {
    if eof {
      CheckAtEnd(m, b[p..]);
    } else {
      CheckIsRight(m, b[p..], s[|b|..]);
      assert s[p..] == b[p..] + s[|b|..];
    }
  }

  lemma FrontIsRight(m: Boundary, b: seq<Byte>, s: seq<Byte>, i: nat, a: Answer)
    requires b <= s && StandsAt(b, i, m.front) && Truthful(m, s, i + |m.front|, a)
    requires NoneStands(b, m.front, i)
    ensures Right(m, s, AtBoundary(i, i + |m.front|, a))
  {
    SeenAt(b, s, i, m.front);
    forall j: nat | j < i + |m.front| && j != i ensures !DelimiterAt(m, s, j) {
      if j < i {
        SeenAt(b, s, j, m.front);
      } else {
        NoOverlap(m, s, i, j);
      }
    }
  }

  // Where one delimiter begins, no other begins inside its front.
  lemma NoOverlap(m: Boundary, s: seq<Byte>, i: nat, j: nat)
    requires StandsAt(s, i, m.front) && i < j < i + |m.front|
    ensures !StandsAt(s, j, m.front)
  {
    assert s[i + (j - i)] == m.front[j - i];
    assert j + 0 == j;
  }

  lemma RestIsRight(m: Boundary, b: seq<Byte>, s: seq<Byte>, eof: bool)
    requires Seen(b, s, eof) && NoneStands(b, m.front, |b| + 1)
    ensures Right(m, s, ReadableRest(m, b))
  {
    forall j: nat | j < ReadableRest(m, b).n ensures !DelimiterAt(m, s, j) {
      if j + |m.front| <= |b| {
        SeenAt(b, s, j, m.front);
      } else if StandsAt(s, j, m.front) {
        SeenPartly(b, s, j, m.front);
        LastIsFront(m, b, j);
      }
    }
  }

  // A newline byte stands only at the front of a delimiter.
  lemma LastIsFront(m: Boundary, b: seq<Byte>, j: nat)
    requires j < |b| && BeginsAt(b, j, m.front)
    ensures LastIndex(b, m.front[0]) == j
  {
    assert b[j] == m.front[j - j];
  }

  lemma FirstIsRight(m: Boundary, b: seq<Byte>, s: seq<Byte>, a: Answer)
    requires b <= s && StandsAt(b, 0, m.dash) && Truthful(m, s, |m.dash|, a)
    ensures var f := AtBoundary(0, |m.dash|, a);
      && (f.ended ==> DelimiterFirst(m, s) && f.n == 0)
      && (DelimiterFirst(m, s) ==> f.n == 0)
      && NoneBelow(m, s, f.n)
  {
    SeenAt(b, s, 0, m.dash);
    assert IsNewline(m.front[0]);
    forall j: nat | j < |m.dash| ensures !DelimiterAt(m, s, j) {
      assert s[0 + j] == m.dash[j];
      assert j + 0 == j;
    }
  }

  lemma StartSeen(m: Boundary, b: seq<Byte>, s: seq<Byte>)
    requires b <= s && !StandsAt(b, 0, m.dash) && !(|b| < |m.dash| && BeginsAt(b, 0, m.dash))
    ensures !DelimiterFirst(m, s)
  {
    if |b| >= |m.dash| {
      SeenAt(b, s, 0, m.dash);
    } else if StandsAt(s, 0, m.dash) && |b| > 0 {
      SeenPartly(b, s, 0, m.dash);
    }
  }

  // --------------------------------------------------------------- progress

  // Every line of the next k bytes, and the one behind them, fits in a buffer of the given
  // size if it may turn out to be a delimiter.
  ghost predicate Fits(m: Boundary, s: seq<Byte>, start: bool, size: nat, k: nat) {
    && |m.front| + 5 <= size
    && (forall i: nat | i <= k && StandsAt(s, i, m.front) :: |m.front| + 2 + Blanks(s[i + |m.front|..]) + |m.nl| <= size)
    && (start && StandsAt(s, 0, m.dash) ==> |m.dash| + 2 + Blanks(s[|m.dash|..]) + |m.nl| <= size)
  }

  lemma FitsAfter(m: Boundary, s: seq<Byte>, start: bool, size: nat, k: nat, w: nat)
    requires Fits(m, s, start, size, k) && 0 < w <= |s| && w <= k
    ensures Fits(m, s[w..], false, size, k - w)
  {
    forall i: nat | i <= k - w && StandsAt(s[w..], i, m.front)
      ensures |m.front| + 2 + Blanks(s[w..][i + |m.front|..]) + |m.nl| <= size
    {
      ShiftStands(s, w, i, m.front);
      assert s[w..][i + |m.front|..] == s[w + i + |m.front|..];
    }
  }

  lemma {:induction false} OnlyBlanksSkipped(b: seq<Byte>, x: nat)
    requires x < |b| - |SkipWS(b)|
    ensures IsWS(b[x])
  {
    if x > 0 {
      OnlyBlanksSkipped(b[1..], x - 1);
    }
  }

  // Without an answer no newline has been seen, except for its first byte at the end.
  lemma UnknownHasNoNewline(m: Boundary, b: seq<Byte>, eof: bool, x: nat)
    requires Check(m, b, eof) == Unknown && x + 1 < |b|
    ensures !IsNewline(b[x])
  {
    var (u, t) := (Unmarked(b), SkipWS(Unmarked(b)));
    var skipped := |b| - |u|;
    if x >= skipped && x - skipped < |u| - |t| {
      OnlyBlanksSkipped(u, x - skipped);
    }
  }

  // So at the end of the stream there is no delimiter behind it.
  lemma UnknownAtEnd(m: Boundary, s: seq<Byte>, p: nat, k: nat)
    requires p <= k && p <= |s| && Check(m, s[p..], true) == Unknown
    ensures !DelimiterAt(m, s, k)
  {
    if StandsAt(s, k, m.front) {
      assert s[k + 0] == m.front[0] && IsNewline(m.front[0]);
      UnknownHasNoNewline(m, s[p..], true, k - p);
    }
  }

  // No answer about the line whose boundary ends at p: it is short, and the stream goes on.
  lemma UnknownMeansMore(m: Boundary, b: seq<Byte>, s: seq<Byte>, eof: bool, p: nat, size: nat)
    requires Seen(b, s, eof) && p <= |b| && Check(m, b[p..], eof) == Unknown
    requires p + 2 + Blanks(s[p..]) + |m.nl| <= size
    ensures |b| < size
  {
    CheckIsQuick(m, b[p..], s[|b|..], eof);
    assert s[p..] == b[p..] + s[|b|..];
  }

  // An answer about the line whose boundary ends at p, given from what is buffered. If it
  // is Unknown the line fits in the buffer with room to spare, or it is no delimiter and
  // neither is anything behind it.
  ghost predicate Told(m: Boundary, b: seq<Byte>, s: seq<Byte>, eof: bool, p: nat, size: nat, a: Answer) {
    && p <= |s| && Truthful(m, s, p, a)
    && (a == Unknown && p + 2 + Blanks(s[p..]) + |m.nl| <= size ==> |b| < size)
    && (a == Unknown && eof ==> !Closes(m, s[p..]) && NoneFrom(m, s, p))
  }

  ghost predicate NoneFrom(m: Boundary, s: seq<Byte>, p: nat) {
    forall k: nat | p <= k :: !DelimiterAt(m, s, k)
  }

  lemma CheckTells(m: Boundary, b: seq<Byte>, s: seq<Byte>, eof: bool, p: nat, size: nat)
    requires Seen(b, s, eof) && p <= |b|
    ensures Told(m, b, s, eof, p, size, Check(m, b[p..], eof))
  {
    CheckTail(m, b, s, eof, p);
    if Check(m, b[p..], eof) == Unknown {
      if p + 2 + Blanks(s[p..]) + |m.nl| <= size {
        UnknownMeansMore(m, b, s, eof, p, size);
      }
      if eof {
        CheckAtEnd(m, s[p..]);
        forall k: nat | p <= k ensures !DelimiterAt(m, s, k) {
          UnknownAtEnd(m, s, p, k);
        }
      }
    }
  }

  lemma FirstWaits(m: Boundary, b: seq<Byte>, s: seq<Byte>, eof: bool, k: nat, size: nat)
    requires Seen(b, s, eof) && Ends(m, s, true, k) && Fits(m, s, true, size, k)
    requires StandsAt(b, 0, m.dash) && Told(m, b, s, eof, |m.dash|, size, Unknown)
    ensures !eof && |b| < size
  {
    SeenAt(b, s, 0, m.dash);
    if eof {
      FirstIsRight(m, b, s, No);
    }
  }

  lemma FrontWaits(m: Boundary, b: seq<Byte>, s: seq<Byte>, eof: bool, k: nat, size: nat)
    requires Seen(b, s, eof) && DelimiterAt(m, s, k) && Fits(m, s, false, size, k)
    requires StandsAt(b, 0, m.front) && Told(m, b, s, eof, |m.front|, size, Unknown)
    ensures !eof && |b| < size
  {
    SeenAt(b, s, 0, m.front);
    assert 0 + |m.front| == |m.front|;
    if eof && 0 < k < |m.front| {
      NoOverlap(m, s, 0, k);
    }
  }

  lemma RestWaits(m: Boundary, b: seq<Byte>, s: seq<Byte>, eof: bool, k: nat)
    requires Seen(b, s, eof) && DelimiterAt(m, s, k) && !StandsAt(b, 0, m.front)
    requires ReadableRest(m, b).n == 0
    ensures !eof && |b| <= |m.front|
  {
    assert BeginsAt(b, 0, m.front);
  }

  // What is left of a part, at the front of a stream: whether it is all of the part, and
  // that it has k more bytes. Its lines fit in a buffer of the given size if they may turn
  // out to be delimiters.
  datatype Rest = Rest(m: Boundary, s: seq<Byte>, start: bool, size: nat, k: nat) {
    ghost predicate Valid() {
      Ends(m, s, start, k) && Fits(m, s, start, size, k)
    }
  }

  type Part = p: Rest | p.Valid() ghost witness EMPTY_PART

  const EMPTY_PART := Rest(Marks([HYPHEN, HYPHEN], [LF], [LF, HYPHEN, HYPHEN]), [HYPHEN, HYPHEN, LF], true, 16, 0)

  lemma PartEndsLater(p: Part, w: nat)
    requires 0 < w <= p.k
    ensures w <= |p.s| && Ends(p.m, p.s[w..], false, p.k - w)
  {
    EndsLater(p.m, p.s, p.k, w);
  }

  lemma PartFitsLater(p: Part, w: nat)
    requires 0 < w <= p.k && w <= |p.s|
    ensures Fits(p.m, p.s[w..], false, p.size, p.k - w)
  {
    FitsAfter(p.m, p.s, p.start, p.size, p.k, w);
  }

  // The part when w more bytes of it have been read.
  ghost function After(p: Part, w: nat): (q: Part)
    requires w <= p.k
    ensures w <= |p.s| && q == Rest(p.m, p.s[w..], p.start && w == 0, p.size, p.k - w)
  {
    if w == 0 then
      assert p.s[0..] == p.s;
      p
    else
      PartEndsLater(p, w);
      PartFitsLater(p, w);
      Rest(p.m, p.s[w..], false, p.size, p.k - w)
  }

  // Where the part ends.
  ghost function AtEnd(p: Part): (q: Part)
    ensures q.k == 0
  {
    After(p, p.k)
  }

  lemma EndStays(p: Part, w: nat)
    requires w <= p.k
    ensures AtEnd(After(p, w)) == AtEnd(p)
  {
    assert p.s[w..][p.k - w..] == p.s[p.k..];
  }

  lemma EndReached(p: Part)
    requires p.k == 0
    ensures AtEnd(p) == p
  {
    assert p.s[0..] == p.s;
  }

  // --------------------------------------- the outcomes of checkReadable

  // What is found is at most the rest of the part, and the end is only found behind it;
  // when nothing is found, the stream has not ended and there is room for more of it.
  ghost predicate Sound(part: Part, b: seq<Byte>, eof: bool, f: Found) {
    && f.n <= part.k && (f.ended ==> f.n == part.k)
    && (f.n == 0 && !f.ended ==> !eof && |b| < part.size)
  }

  // At the start of the part the buffer begins with a dash-boundary.
  lemma SoundFirst(part: Part, b: seq<Byte>, eof: bool, a: Answer)
    requires Seen(b, part.s, eof) && part.start && StandsAt(b, 0, part.m.dash)
    requires Told(part.m, b, part.s, eof, |part.m.dash|, part.size, a)
    ensures Sound(part, b, eof, AtBoundary(0, |part.m.dash|, a))
  {
    FirstIsRight(part.m, b, part.s, a);
    if a == Unknown {
      FirstWaits(part.m, b, part.s, eof, part.k, part.size);
    }
  }

  // At the start of the part the buffer is the beginning of a dash-boundary.
  lemma SoundFirstPiece(part: Part, b: seq<Byte>, eof: bool)
    requires Seen(b, part.s, eof) && part.start && |b| < |part.m.dash| && BeginsAt(b, 0, part.m.dash)
    ensures Sound(part, b, eof, Found(0, false))
  {
  }

  // Otherwise there is no delimiter at the start of the part.
  ghost predicate PastFirst(part: Part, b: seq<Byte>) {
    part.start ==> !StandsAt(b, 0, part.m.dash) && !(|b| < |part.m.dash| && BeginsAt(b, 0, part.m.dash))
  }

  lemma EndsInside(part: Part, b: seq<Byte>, eof: bool)
    requires Seen(b, part.s, eof) && PastFirst(part, b)
    ensures DelimiterAt(part.m, part.s, part.k) && NoneBelow(part.m, part.s, part.k)
  {
    if part.start {
      StartSeen(part.m, b, part.s);
    }
  }

  lemma AtMost(m: Boundary, s: seq<Byte>, k: nat, f: Found)
    requires DelimiterAt(m, s, k) && NoneBelow(m, s, k) && Right(m, s, f)
    ensures f.n <= k && (f.ended ==> f.n == k)
  {
  }

  lemma RightInside(part: Part, b: seq<Byte>, eof: bool, f: Found)
    requires Seen(b, part.s, eof) && PastFirst(part, b) && Right(part.m, part.s, f)
    ensures f.n <= part.k && (f.ended ==> f.n == part.k)
    ensures DelimiterAt(part.m, part.s, part.k)
  {
    EndsInside(part, b, eof);
    AtMost(part.m, part.s, part.k, f);
  }

  // It is found at the start of the buffer, and the line is not complete.
  lemma SoundWait(part: Part, b: seq<Byte>, eof: bool, i: nat, a: Answer)
    requires Seen(b, part.s, eof) && DelimiterAt(part.m, part.s, part.k)
    requires i == 0 && a == Unknown && StandsAt(b, i, part.m.front)
    requires Told(part.m, b, part.s, eof, i + |part.m.front|, part.size, a)
    ensures !eof && |b| < part.size
  {
    FrontWaits(part.m, b, part.s, eof, part.k, part.size);
  }

  // Once there is no delimiter at the start of the part, the part ends with a front.
  lemma FrontInside(part: Part, b: seq<Byte>, eof: bool, i: nat, a: Answer)
    requires Seen(b, part.s, eof) && PastFirst(part, b)
    requires StandsAt(b, i, part.m.front) && NoneStands(b, part.m.front, i)
    requires Truthful(part.m, part.s, i + |part.m.front|, a)
    ensures var f := AtBoundary(i, i + |part.m.front|, a); f.n <= part.k && (f.ended ==> f.n == part.k)
    ensures DelimiterAt(part.m, part.s, part.k)
  {
    FrontIsRight(part.m, b, part.s, i, a);
    RightInside(part, b, eof, AtBoundary(i, i + |part.m.front|, a));
  }

  lemma SoundFront(part: Part, b: seq<Byte>, eof: bool, i: nat, a: Answer)
    requires Seen(b, part.s, eof) && PastFirst(part, b)
    requires StandsAt(b, i, part.m.front) && NoneStands(b, part.m.front, i)
    requires Told(part.m, b, part.s, eof, i + |part.m.front|, part.size, a)
    ensures Sound(part, b, eof, AtBoundary(i, i + |part.m.front|, a))
  {
    FrontInside(part, b, eof, i, a);
    if i == 0 && a == Unknown {
      SoundWait(part, b, eof, i, a);
    }
  }

  // None is found.
  lemma SoundRest(part: Part, b: seq<Byte>, eof: bool)
    requires Seen(b, part.s, eof) && PastFirst(part, b)
    requires NoneStands(b, part.m.front, |b| + 1)
    ensures Sound(part, b, eof, ReadableRest(part.m, b))
  {
    var (m, s) := (part.m, part.s);
    EndsInside(part, b, eof);
    RestIsRight(m, b, s, eof);
    RightInside(part, b, eof, ReadableRest(m, b));
    if ReadableRest(m, b).n == 0 {
      RestWaits(m, b, s, eof, part.k);
    }
  }
}
