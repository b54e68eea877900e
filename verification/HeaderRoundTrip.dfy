// Headers that have been read come back unchanged when they are written and read again.
module HeaderRoundTrip {
  import opened Common
  import opened Multipart
  import opened MultiLines
  import opened Headers
  import opened HeaderWriter
  import Source
  import BufReader
  import HeaderReader

  // The lines of a value, but for the last one.
  function FrontOf(v: seq<Byte>, s: seq<nat>): seq<seq<Byte>>
    requires Sum(s) <= |v|
  {
    if s == [] then [] else [v[..s[0]]] + FrontOf(v[s[0]..], s[1..])
  }

  function LastOf(v: seq<Byte>, s: seq<nat>): seq<Byte>
    requires Sum(s) <= |v|
  {
    v[Sum(s)..]
  }

  lemma {:induction false} CutLengths(v: seq<Byte>, s: seq<nat>)
    requires Sum(s) <= |v|
    ensures Lengths(FrontOf(v, s)) == s
  {
    if s != [] {
      CutLengths(v[s[0]..], s[1..]);
      LengthsOf(v[..s[0]], FrontOf(v[s[0]..], s[1..]));
    }
  }

  lemma LengthsOf(first: seq<Byte>, more: seq<seq<Byte>>)
    ensures Lengths([first] + more) == [|first|] + Lengths(more)
  {
  }

  lemma {:induction false} CutJoin(v: seq<Byte>, s: seq<nat>)
    requires Sum(s) <= |v|
    ensures Join(FrontOf(v, s)) + LastOf(v, s) == v
  {
    if s != [] {
      var (w, t) := (v[s[0]..], s[1..]);
      CutJoin(w, t);
      JoinFirst(v[..s[0]], FrontOf(w, t), LastOf(w, t));
      assert LastOf(v, s) == LastOf(w, t);
    }
  }

  lemma JoinFirst(first: seq<Byte>, more: seq<seq<Byte>>, last: seq<Byte>)
    ensures Join([first] + more) + last == first + (Join(more) + last)
  {
    assert ([first] + more)[1..] == more;
  }

  lemma {:induction false} JoinCut(front: seq<seq<Byte>>, last: seq<Byte>)
    ensures Sum(Lengths(front)) == |Join(front)|
    ensures FrontOf(Join(front) + last, Lengths(front)) == front && LastOf(Join(front) + last, Lengths(front)) == last
  {
    if front != [] {
      var rest := front[1..];
      JoinCut(rest, last);
      assert Lengths(front)[1..] == Lengths(rest);
      assert (Join(front) + last)[|front[0]|..] == Join(rest) + last;
      assert (Join(front) + last)[..|front[0]|] == front[0];
    }
  }

  // A line that goes on with a header starts with a blank and holds something else.
  predicate GoodFold(x: seq<Byte>) {
    x != [] && IsWS(x[0]) && SkipWS(x) != []
  }

  // The lines of a header: the first one does not start with a blank, and only a header of
  // one line is empty.
  predicate GoodLines(front: seq<seq<Byte>>, last: seq<Byte>) {
    if front == [] then last == [] || !IsWS(last[0])
    else front[0] != [] && !IsWS(front[0][0]) && GoodFold(last) && forall i :: 0 < i < |front| ==> GoodFold(front[i])
  }

  // What the reader makes of a header.
  predicate Well(names: Names, h: Header) {
    && ProperKey(names, h.key, h.orig) && Sum(h.splits) <= |h.value|
    && ValidContent(h.value) && TrimRight(h.value) == h.value
    && GoodLines(FrontOf(h.value, h.splits), LastOf(h.value, h.splits))
  }

  predicate AllWell(names: Names, hs: seq<Header>) {
    forall i :: 0 <= i < |hs| ==> Well(names, hs[i])
  }

  predicate StateOk(names: Names, st: State) {
    && AllWell(names, st.out)
    && (st.cur.Open? ==> ProperKey(names, st.cur.key, st.cur.orig) && GoodLines(st.cur.front, st.cur.last))
  }

  // The lengths at which a header was folded leave something for the last line.
  lemma SplitsBelow(names: Names, h: Header)
    requires Well(names, h) && h.splits != []
    ensures Sum(h.splits) < |h.value|
  {
    assert FrontOf(h.value, h.splits) != [];
  }

  // ------------------------------------------------- the reader makes them so

  lemma NotBlank(b: seq<Byte>)
    requires b != [] && !IsWS(b[|b| - 1])
    ensures SkipWS(b) != []
  {
    if SkipWS(b) == [] {
      OnlyBlanksSkipped(b, |b| - 1);
    }
  }

  lemma {:induction false} KeepsSome(b: seq<Byte>, x: nat)
    requires x < |b| && !IsWS(b[x])
    ensures x < |TrimRight(b)|
    decreases |b|
  {
    if IsWS(b[|b| - 1]) {
      KeepsSome(b[..|b| - 1], x);
    }
  }

  lemma FoldTrimmed(last: seq<Byte>)
    requires GoodFold(last)
    ensures GoodFold(TrimRight(last))
  {
    SkipWSIsTail(last);
    var x := |last| - |SkipWS(last)|;
    assert last[x] == SkipWS(last)[0];
    KeepsSome(last, x);
    NotBlank(TrimRight(last));
  }

  lemma ValueOf(front: seq<seq<Byte>>, last: seq<Byte>)
    requires GoodLines(front, last)
    ensures SkipWS(Join(front) + last) == Join(front) + last
    ensures TrimWS(Join(front) + last) == Join(front) + TrimRight(last)
    ensures GoodLines(front, TrimRight(last))
  {
    if front == [] {
      assert Join(front) + last == last;
      assert Join(front) + TrimRight(last) == TrimRight(last);
    } else {
      FoldTrimmed(last);
      TrimRightAppend(Join(front), last);
      assert (Join(front) + last)[0] == front[0][0];
    }
  }

  lemma HeaderIsWell(names: Names, front: seq<seq<Byte>>, last: seq<Byte>, h: Header)
    requires ProperKey(names, h.key, h.orig) && GoodLines(front, last) && ValidContent(Join(front) + last)
    requires h.value == TrimWS(Join(front) + last) && h.splits == Lengths(front)
    ensures Well(names, h)
  {
    ValueOf(front, last);
    JoinCut(front, TrimRight(last));
    TrimmedValid(Join(front) + last);
  }

  lemma FinishKeeps(names: Names, st: State)
    requires StateOk(names, st)
    ensures Finish(st).Fine? ==> StateOk(names, Finish(st).st)
  {
    if st.cur.Open? && Finish(st).Fine? {
      var out := Finish(st).st.out;
      HeaderIsWell(names, st.cur.front, st.cur.last, out[|out| - 1]);
    }
  }

  lemma OpenKeeps(names: Names, out: seq<Header>, line: seq<Byte>)
    requires AllWell(names, out)
    ensures OpenLine(names, out, line).Fine? ==> StateOk(names, OpenLine(names, out, line).st)
  {
    var n := IndexByte(line, COLON);
    if n >= 0 {
      var name := TrimRight(line[..n]);
      if name != [] && ValidName(name) {
        KeyComesBack(names, name);
      }
    }
  }

  lemma TakeKeeps(names: Names, st: State, line: seq<Byte>)
    requires StateOk(names, st) && line != []
    ensures TakeHeaderLine(names, st, line).Fine? ==> StateOk(names, TakeHeaderLine(names, st, line).st)
  {
    if !IsWS(line[0]) {
      FinishKeeps(names, st);
      if Finish(st).Fine? {
        OpenKeeps(names, Finish(st).st.out, line);
      }
    }
  }

  lemma {:induction false} ReadIsWell(names: Names, s: seq<Byte>, ending: Error, st: State)
    requires StateOk(names, st)
    ensures ReadHeaders(names, s, ending, st).Done? ==> AllWell(names, ReadHeaders(names, s, ending, st).out)
    decreases |s|
  {
    var i := LineEnd(s);
    if i >= 0 {
      var line := StripCR(s[..i]);
      FinishKeeps(names, st);
      if line != [] {
        TakeKeeps(names, st, line);
        if TakeHeaderLine(names, st, line).Fine? {
          ReadIsWell(names, s[i + 1..], ending, TakeHeaderLine(names, st, line).st);
        }
      }
    }
  }

  // ------------------------------------------------------------ reading back

  lemma CleanSplit(b: seq<Byte>, i: nat)
    requires Clean(b) && i <= |b|
    ensures Clean(b[..i]) && Clean(b[i..])
  {
  }

  // A line that has been written is taken as it is.
  lemma LineTaken(names: Names, line: seq<Byte>, rest: seq<Byte>, ending: Error, st: State, st': State)
    requires line != [] && Clean(line) && TakeHeaderLine(names, st, line) == Fine(st')
    ensures ReadHeaders(names, line + [LF] + rest, ending, st) == ReadHeaders(names, rest, ending, st')
  {
    var s := line + [LF] + rest;
    LineEndIs(s, |line|);
    assert s[..|line|] == line && s[|line| + 1..] == rest;
    assert StripCR(line) == line;
  }

  function WithFold(cur: Fold, line: seq<Byte>): Fold
    requires cur.Open?
  {
    cur.(front := cur.front + [cur.last], last := line)
  }

  lemma FoldTaken(names: Names, line: seq<Byte>, rest: seq<Byte>, ending: Error, out: seq<Header>, cur: Fold)
    requires GoodFold(line) && Clean(line) && cur.Open? && cur.last != []
    ensures ReadHeaders(names, line + [LF] + rest, ending, State(out, cur))
      == ReadHeaders(names, rest, ending, State(out, WithFold(cur, line)))
  {
    LineTaken(names, line, rest, ending, State(out, cur), State(out, WithFold(cur, line)));
  }

  ghost predicate AllFolds(front: seq<seq<Byte>>) {
    forall i :: 0 <= i < |front| ==> GoodFold(front[i])
  }

  lemma FoldsText(v: seq<Byte>, s: seq<nat>, rest: seq<Byte>)
    requires s != [] && Sum(s) <= |v|
    ensures Folded(v, s) + rest == v[..s[0]] + [LF] + (Folded(v[s[0]..], s[1..]) + rest)
  {
    var more := Folded(v[s[0]..], s[1..]);
    assert v[..s[0]] + [LF] + more + rest == v[..s[0]] + [LF] + (more + rest);
  }

  lemma FoldsSplit(line: seq<Byte>, more: seq<seq<Byte>>)
    requires AllFolds([line] + more)
    ensures GoodFold(line) && AllFolds(more)
  {
    assert ([line] + more)[0] == line;
    forall i | 0 <= i < |more| ensures GoodFold(more[i]) {
      assert ([line] + more)[i + 1] == more[i];
    }
  }

  lemma LastStays(v: seq<Byte>, s: seq<nat>)
    requires s != [] && Sum(s) <= |v|
    ensures LastOf(v[s[0]..], s[1..]) == LastOf(v, s)
  {
  }

  // What the lines of a value add to a header.
  function WithFolds(cur: Fold, front: seq<seq<Byte>>, last: seq<Byte>): Fold
    requires cur.Open?
  {
    cur.(front := cur.front + [cur.last] + front, last := last)
  }

  lemma WithMore(cur: Fold, line: seq<Byte>, front: seq<seq<Byte>>, last: seq<Byte>)
    requires cur.Open?
    ensures WithFolds(WithFold(cur, line), front, last) == WithFolds(cur, [line] + front, last)
    ensures WithFolds(cur, [], last) == WithFold(cur, last)
  {
  }

  lemma {:induction false} FoldsTaken(names: Names, v: seq<Byte>, s: seq<nat>, rest: seq<Byte>, ending: Error,
                                      out: seq<Header>, cur: Fold)
    requires cur.Open? && cur.last != [] && Sum(s) <= |v| && Clean(v)
    requires AllFolds(FrontOf(v, s)) && GoodFold(LastOf(v, s))
    ensures ReadHeaders(names, Folded(v, s) + rest, ending, State(out, cur))
      == ReadHeaders(names, rest, ending, State(out, WithFolds(cur, FrontOf(v, s), LastOf(v, s))))
    decreases |s|
  {
    if s == [] {
      FoldTaken(names, v, rest, ending, out, cur);
      WithMore(cur, [], [], v);
    } else {
      var (line, w, t) := (v[..s[0]], v[s[0]..], s[1..]);
      FoldsSplit(line, FrontOf(w, t));
      LastStays(v, s);
      CleanSplit(v, s[0]);
      FoldsText(v, s, rest);
      FoldTaken(names, line, Folded(w, t) + rest, ending, out, cur);
      FoldsTaken(names, w, t, rest, ending, out, WithFold(cur, line));
      WithMore(cur, line, FrontOf(w, t), LastOf(w, t));
    }
  }

  lemma ColonAt(name: seq<Byte>, first: seq<Byte>)
    requires ValidName(name)
    ensures IndexByte(name + [COLON, SPACE] + first, COLON) == |name|
  {
    var line := name + [COLON, SPACE] + first;
    assert line[|name|] == COLON;
    assert forall j :: 0 <= j < |name| ==> line[j] == name[j];
  }

  // The first line of a header.
  lemma NameTaken(names: Names, h: Header, first: seq<Byte>, out: seq<Header>)
    requires ProperKey(names, h.key, h.orig) && (first == [] || !IsWS(first[0]))
    ensures OpenLine(names, out, NameOf(h.key, h.orig) + [COLON, SPACE] + first)
      == Fine(State(out, Open(h.key, h.orig, [], first)))
  {
    var name := NameOf(h.key, h.orig);
    var line := name + [COLON, SPACE] + first;
    ColonAt(name, first);
    assert line[..|name|] == name;
    assert line[|name| + 1..] == [SPACE] + first;
    assert SkipWS([SPACE] + first) == first by {
      assert ([SPACE] + first)[1..] == first;
    }
    assert TrimRight(name) == name;
    assert KeyOf(names, name) == (h.key, h.orig);
  }

  lemma NameFront(name: seq<Byte>, first: seq<Byte>)
    requires name != [] && ValidName(name) && Clean(first)
    ensures var line := name + [COLON, SPACE] + first; line != [] && Clean(line) && !IsWS(line[0])
  {
  }

  lemma NameLine(names: Names, h: Header, first: seq<Byte>, st: State, out: seq<Header>)
    requires ProperKey(names, h.key, h.orig) && (first == [] || !IsWS(first[0])) && Clean(first)
    requires Finish(st) == Fine(State(out, Nothing))
    ensures var line := NameOf(h.key, h.orig) + [COLON, SPACE] + first;
      && line != [] && Clean(line)
      && TakeHeaderLine(names, st, line) == Fine(State(out, Open(h.key, h.orig, [], first)))
  {
    NameFront(NameOf(h.key, h.orig), first);
    NameTaken(names, h, first, out);
  }

  lemma FirstTaken(names: Names, h: Header, first: seq<Byte>, rest: seq<Byte>, ending: Error, st: State, out: seq<Header>)
    requires ProperKey(names, h.key, h.orig) && (first == [] || !IsWS(first[0])) && Clean(first)
    requires Finish(st) == Fine(State(out, Nothing))
    ensures ReadHeaders(names, NameOf(h.key, h.orig) + [COLON, SPACE] + first + [LF] + rest, ending, st)
      == ReadHeaders(names, rest, ending, State(out, Open(h.key, h.orig, [], first)))
  {
    NameLine(names, h, first, st, out);
    LineTaken(names, NameOf(h.key, h.orig) + [COLON, SPACE] + first, rest, ending, st,
              State(out, Open(h.key, h.orig, [], first)));
  }

  // The lines of a header that has been written.
  function Pending(h: Foldable, out: seq<Header>): State {
    State(out, Open(h.key, h.orig, FrontOf(h.value, h.splits), LastOf(h.value, h.splits)))
  }

  lemma FirstLine(name: seq<Byte>, v: seq<Byte>, s: seq<nat>, rest: seq<Byte>)
    requires s != [] && Sum(s) <= |v|
    ensures HeaderText(name, v, s) + rest
      == name + [COLON, SPACE] + v[..s[0]] + [LF] + (Folded(v[s[0]..], s[1..]) + rest)
  {
  }

  lemma OnlyLine(name: seq<Byte>, v: seq<Byte>, s: seq<nat>, rest: seq<Byte>)
    requires s == []
    ensures HeaderText(name, v, s) + rest == name + [COLON, SPACE] + v + [LF] + rest
    ensures FrontOf(v, s) == [] && LastOf(v, s) == v
  {
  }

  lemma FrontFolds(v: seq<Byte>, s: seq<nat>)
    requires s != [] && Sum(s) <= |v| && GoodLines(FrontOf(v, s), LastOf(v, s))
    ensures var (f, first) := (FrontOf(v[s[0]..], s[1..]), v[..s[0]]);
      && FrontOf(v, s) == [first] + f && first != [] && !IsWS(first[0]) && AllFolds(f)
      && LastOf(v[s[0]..], s[1..]) == LastOf(v, s) && GoodFold(LastOf(v[s[0]..], s[1..]))
  {
    var f := FrontOf(v[s[0]..], s[1..]);
    assert forall i :: 0 <= i < |f| ==> f[i] == FrontOf(v, s)[i + 1];
  }

  lemma OtherLines(names: Names, v: seq<Byte>, s: seq<nat>, rest: seq<Byte>, ending: Error, out: seq<Header>,
                   key: seq<Byte>, orig: seq<Byte>)
    requires s != [] && Sum(s) <= |v| && GoodLines(FrontOf(v, s), LastOf(v, s)) && Clean(v)
    ensures ReadHeaders(names, Folded(v[s[0]..], s[1..]) + rest, ending, State(out, Open(key, orig, [], v[..s[0]])))
      == ReadHeaders(names, rest, ending, State(out, Open(key, orig, FrontOf(v, s), LastOf(v, s))))
  {
    var (first, w, t) := (v[..s[0]], v[s[0]..], s[1..]);
    FrontFolds(v, s);
    CleanSplit(v, s[0]);
    FoldsTaken(names, w, t, rest, ending, out, Open(key, orig, [], first));
    assert [] + [first] + FrontOf(w, t) == FrontOf(v, s);
  }

  lemma FoldedTaken(names: Names, h: Foldable, rest: seq<Byte>, ending: Error, st: State, out: seq<Header>)
    requires Well(names, h) && Finish(st) == Fine(State(out, Nothing)) && h.splits != []
    ensures ReadHeaders(names, HeaderText(NameOf(h.key, h.orig), h.value, h.splits) + rest, ending, st)
      == ReadHeaders(names, rest, ending, Pending(h, out))
  {
    var (v, s) := (h.value, h.splits);
    FrontFolds(v, s);
    CleanSplit(v, s[0]);
    FirstLine(NameOf(h.key, h.orig), v, s, rest);
    FirstTaken(names, h, v[..s[0]], Folded(v[s[0]..], s[1..]) + rest, ending, st, out);
    OtherLines(names, v, s, rest, ending, out, h.key, h.orig);
  }

  lemma HeaderTaken(names: Names, h: Foldable, rest: seq<Byte>, ending: Error, st: State, out: seq<Header>)
    requires Well(names, h) && Finish(st) == Fine(State(out, Nothing))
    ensures ReadHeaders(names, HeaderText(NameOf(h.key, h.orig), h.value, h.splits) + rest, ending, st)
      == ReadHeaders(names, rest, ending, Pending(h, out))
  {
    if h.splits == [] {
      OnlyLine(NameOf(h.key, h.orig), h.value, h.splits, rest);
      FirstTaken(names, h, h.value, rest, ending, st, out);
    } else {
      FoldedTaken(names, h, rest, ending, st, out);
    }
  }

  lemma PendingFinish(names: Names, h: Foldable, out: seq<Header>)
    requires Well(names, h)
    ensures Finish(Pending(h, out)) == Fine(State(out + [h], Nothing))
  {
    CutJoin(h.value, h.splits);
    CutLengths(h.value, h.splits);
    ValueOf(FrontOf(h.value, h.splits), LastOf(h.value, h.splits));
  }

  lemma NoneTaken(names: Names, hs: seq<Foldable>, tail: seq<Byte>, body: seq<Byte>, ending: Error, st: State, out: seq<Header>)
    requires hs == [] && Finish(st) == Fine(State(out, Nothing)) && tail == [LF] + body
    ensures ReadHeaders(names, ListText(hs) + tail, ending, st) == Done(out + hs, body)
  {
    var s := ListText(hs) + tail;
    assert s == [LF] + body;
    LineEndIs(s, 0);
    assert s[..0] == [] && s[1..] == body;
    assert out + hs == out;
  }

  lemma ListFirst(hs: seq<Foldable>, tail: seq<Byte>)
    requires hs != []
    ensures ListText(hs) + tail
      == HeaderText(NameOf(hs[0].key, hs[0].orig), hs[0].value, hs[0].splits) + (ListText(hs[1..]) + tail)
  {
  }

  lemma AllWellTail(names: Names, hs: seq<Header>)
    requires AllWell(names, hs) && hs != []
    ensures AllWell(names, hs[1..])
  {
  }

  lemma OutWith(out: seq<Header>, hs: seq<Header>)
    requires hs != []
    ensures out + [hs[0]] + hs[1..] == out + hs
  {
  }

  lemma NextTaken(names: Names, hs: seq<Foldable>, tail: seq<Byte>, ending: Error, st: State, out: seq<Header>)
    requires hs != [] && AllWell(names, hs) && Finish(st) == Fine(State(out, Nothing))
    ensures ReadHeaders(names, ListText(hs) + tail, ending, st)
      == ReadHeaders(names, ListText(hs[1..]) + tail, ending, Pending(hs[0], out))
    ensures Finish(Pending(hs[0], out)) == Fine(State(out + [hs[0]], Nothing))
  {
    assert Well(names, hs[0]);
    ListFirst(hs, tail);
    HeaderTaken(names, hs[0], ListText(hs[1..]) + tail, ending, st, out);
    PendingFinish(names, hs[0], out);
  }

  lemma {:induction false} ListTaken(names: Names, hs: seq<Foldable>, tail: seq<Byte>, body: seq<Byte>, ending: Error,
                                     st: State, out: seq<Header>)
    requires AllWell(names, hs) && Finish(st) == Fine(State(out, Nothing)) && tail == [LF] + body
    ensures ReadHeaders(names, ListText(hs) + tail, ending, st) == Done(out + hs, body)
    decreases |hs|
  {
    if hs == [] {
      NoneTaken(names, hs, tail, body, ending, st, out);
    } else {
      NextTaken(names, hs, tail, ending, st, out);
      AllWellTail(names, hs);
      ListTaken(names, hs[1..], tail, body, ending, Pending(hs[0], out), out + [hs[0]]);
      OutWith(out, hs);
    }
  }

  // Headers that have been read, written and read again are the same, and so is what
  // comes behind them.
  lemma HeadersComeBack(names: Names, s: seq<Byte>, ending: Error, body: seq<Byte>, ending': Error)
    requires ReadHeaders(names, s, ending, START).Done?
    ensures var hs := ReadHeaders(names, s, ending, START).out;
      && AllWell(names, hs)
      && (forall i :: 0 <= i < |hs| ==> Sum(hs[i].splits) <= |hs[i].value|)
      && ReadHeaders(names, ListText(hs) + ([LF] + body), ending', START) == Done(hs, body)
  {
    ReadIsWell(names, s, ending, START);
    var hs := ReadHeaders(names, s, ending, START).out;
    assert forall i :: 0 <= i < |hs| ==> Well(names, hs[i]);
    ListTaken(names, hs, [LF] + body, body, ending', START, []);
    assert [] + hs == hs;
  }

  // Read, written by force, and read again in whatever pieces the stream then comes.
  method RereadHeaders(names: Names, br: BufReader.BufReader, ghost s: seq<Byte>, ghost ending: Error, ghost hs: seq<Foldable>,
                       ghost rest: seq<Byte>, ghost body: seq<Byte>)
    returns (out: seq<Header>, e: Option<Error>)
    requires br.Valid() && ReadHeaders(names, s, ending, START) == Done(hs, rest)
    requires Source.Delivered(br.Pending()) == ListText(hs) + ([LF] + body)
    modifies br, br.b, br.u
    ensures br.Valid() && e.None? && out == hs && Source.Delivered(br.Pending()) == body
  {
    HeadersComeBack(names, s, ending, body, Source.Ending(br.Pending()));
    out, e := HeaderReader.ReadHeaderIntoFunc(br, names);
  }
}
