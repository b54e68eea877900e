// Message headers on the whole input (sections 2.2 and 2.2.3 of RFC 5322).
module Headers {
  import opened Common
  import opened Multipart
  import opened MultiLines

  const COLON: Byte := 58
  const SPACE: Byte := 32

  const MISSING_COLON := Other(10)
  const EMPTY_NAME := Other(11)
  const BAD_NAME := Other(12)
  const BAD_CONTENT := Other(13)
  const BAD_CONTINUATION := Other(14)
  const EMPTY_FOLD := Other(15)

  // ------------------------------------------------------------------ names

  predicate ValidName(b: seq<Byte>) {
    forall i :: 0 <= i < |b| ==> SPACE < b[i] < 127 && b[i] != COLON
  }

  // Every word starts with a capital, and goes on in small letters.
  function CanonicalByte(c: Byte, upper: bool): Byte {
    if upper && 97 <= c <= 122 then c - 32 else if !upper && 65 <= c <= 90 then c + 32 else c
  }

  function Canonical(b: seq<Byte>, upper: bool): (r: seq<Byte>)
    ensures |r| == |b|
  {
    if b == [] then [] else [CanonicalByte(b[0], upper)] + Canonical(b[1..], b[0] == HYPHEN)
  }

  predicate Small(c: Byte) {
    97 <= c <= 122
  }

  predicate Capital(c: Byte) {
    65 <= c <= 90
  }

  // Two bytes are the same up to the case of a letter.
  predicate SameLetter(a: Byte, b: Byte) {
    a == b || (Small(a) && b == a - 32) || (Capital(a) && b == a + 32)
  }

  // A word starts here: at the start of the name, or behind a hyphen.
  predicate StartsWord(b: seq<Byte>, i: nat, upper: bool) {
    i < |b| && (if i == 0 then upper else b[i - 1] == HYPHEN)
  }

  // The same letters, with no small one at the start of a word and no capital further on.
  ghost predicate Titled(b: seq<Byte>, r: seq<Byte>, upper: bool) {
    && |r| == |b|
    && (forall i: nat | i < |b| :: SameLetter(r[i], b[i]))
    && (forall i: nat | i < |b| :: if StartsWord(b, i, upper) then !Small(r[i]) else !Capital(r[i]))
  }

  lemma TitledRest(b: seq<Byte>, r: seq<Byte>, upper: bool)
    requires b != [] && |r| == |b|
    ensures Titled(b, r, upper)
      <==> SameLetter(r[0], b[0]) && (if upper then !Small(r[0]) else !Capital(r[0])) && Titled(b[1..], r[1..], b[0] == HYPHEN)
  {
    var (b', r') := (b[1..], r[1..]);
    forall i: nat | i < |b'| ensures StartsWord(b', i, b[0] == HYPHEN) == StartsWord(b, i + 1, upper) && r'[i] == r[i + 1] && b'[i] == b[i + 1] {
    }
    if Titled(b', r', b[0] == HYPHEN) && SameLetter(r[0], b[0]) && (if upper then !Small(r[0]) else !Capital(r[0])) {
      forall i: nat | i < |b| ensures SameLetter(r[i], b[i]) && if StartsWord(b, i, upper) then !Small(r[i]) else !Capital(r[i]) {
        if i > 0 {
          assert r[i] == r'[i - 1] && b[i] == b'[i - 1];
        }
      }
    }
  }

  // The canonical form is the one way to write the letters like that.
  lemma {:induction false} CanonicalIs(b: seq<Byte>, r: seq<Byte>, upper: bool)
    ensures r == Canonical(b, upper) <==> Titled(b, r, upper)
    decreases |b|
  {
    if b != [] && |r| == |b| {
      TitledRest(b, r, upper);
      CanonicalIs(b[1..], r[1..], b[0] == HYPHEN);
      assert r == [r[0]] + r[1..];
    }
  }

  lemma {:induction false} CanonicalTwice(b: seq<Byte>, upper: bool)
    ensures Canonical(Canonical(b, upper), upper) == Canonical(b, upper)
  {
    if b != [] {
      CanonicalTwice(b[1..], b[0] == HYPHEN);
      assert Canonical(b, upper)[1..] == Canonical(b[1..], b[0] == HYPHEN);
    }
  }

  lemma {:induction false} CanonicalValid(b: seq<Byte>, upper: bool)
    requires ValidName(b)
    ensures ValidName(Canonical(b, upper))
  {
    if b != [] {
      CanonicalValid(b[1..], b[0] == HYPHEN);
    }
  }

  // The common names, and how they are written properly. A proper name stands for itself.
  type Names = m: map<seq<Byte>, seq<Byte>> | forall k <- m :: ProperIn(m, m[k])
    witness map[]

  predicate ProperIn(m: map<seq<Byte>, seq<Byte>>, k: seq<Byte>) {
    k in m && m[k] == k && k != [] && ValidName(k)
  }

  // unsafeMapCanonicalOriginalHeaders: the key, and the original name if the key does not
  // tell it.
  function KeyOf(names: Names, b: seq<Byte>): (r: (seq<Byte>, seq<Byte>)) {
    var c := Canonical(b, true);
    if b in names then (names[b], [])
    else if c in names then (names[c], [])
    else if c == b then (c, [])
    else (c, b)
  }

  // A name that is none of the common ones is its own key, with capitals where they belong;
  // the original is kept exactly if it differs from that.
  lemma KeyIsTitled(names: Names, b: seq<Byte>)
    requires b !in names && Canonical(b, true) !in names
    ensures var (k, o) := KeyOf(names, b);
      Titled(b, k, true) && (o == [] <==> k == b) && NameOf(k, o) == b
  {
    CanonicalIs(b, Canonical(b, true), true);
  }

  // The name under which a header is written.
  function NameOf(key: seq<Byte>, orig: seq<Byte>): seq<Byte> {
    if orig != [] then orig else key
  }

  predicate ProperKey(names: Names, key: seq<Byte>, orig: seq<Byte>) {
    var name := NameOf(key, orig);
    key != [] && name != [] && ValidName(name) && KeyOf(names, name) == (key, orig)
  }

  // It is read back as the same key and original name.
  lemma KeyComesBack(names: Names, b: seq<Byte>)
    requires b != [] && ValidName(b)
    ensures var (k, o) := KeyOf(names, b); ProperKey(names, k, o)
  {
    CanonicalTwice(b, true);
    CanonicalValid(b, true);
  }

  // ---------------------------------------------------------------- content

  predicate Tail(c: Byte) {
    0x80 <= c < 0xC0
  }

  // The length of the character of UTF-8 at the front of b (section 4 of RFC 3629), or 0.
  function CharLength(b: seq<Byte>): nat
    requires b != []
  {
    if b[0] < 0x80 then 1
    else if 0xC2 <= b[0] <= 0xDF && |b| >= 2 && Tail(b[1]) then 2
    else if 0xE0 <= b[0] <= 0xEF && |b| >= 3 && Tail(b[1]) && Tail(b[2])
            && (b[0] == 0xE0 ==> b[1] >= 0xA0) && (b[0] == 0xED ==> b[1] < 0xA0) then 3
    else if 0xF0 <= b[0] <= 0xF4 && |b| >= 4 && Tail(b[1]) && Tail(b[2]) && Tail(b[3])
            && (b[0] == 0xF0 ==> b[1] >= 0x90) && (b[0] == 0xF4 ==> b[1] < 0x90) then 4
    else 0
  }

  predicate ValidUtf8(b: seq<Byte>) {
    b == [] || (0 < CharLength(b) <= |b| && ValidUtf8(b[CharLength(b)..]))
  }

  predicate Clean(b: seq<Byte>) {
    forall i :: 0 <= i < |b| ==> b[i] != 0 && b[i] != CR && b[i] != LF
  }

  // validHeaderContent
  predicate ValidContent(b: seq<Byte>) {
    Clean(b) && ((forall i :: 0 <= i < |b| ==> b[i] < 0x80) || ValidUtf8(b))
  }

  function TrimRight(b: seq<Byte>): (r: seq<Byte>)
    ensures r <= b && (r == [] || !IsWS(r[|r| - 1]))
  {
    if b != [] && IsWS(b[|b| - 1]) then TrimRight(b[..|b| - 1]) else b
  }

  function TrimWS(b: seq<Byte>): seq<Byte> {
    TrimRight(SkipWS(b))
  }

  lemma {:induction false} Utf8Front(b: seq<Byte>)
    requires b != [] && ValidUtf8(b) && IsWS(b[|b| - 1])
    ensures ValidUtf8(b[..|b| - 1])
  {
    var n := CharLength(b);
    if n < |b| {
      var (rest, f) := (b[n..], b[..|b| - 1]);
      Utf8Front(rest);
      assert f[n..] == rest[..|rest| - 1];
      assert CharLength(f) == n;
    } else {
      assert b[..|b| - 1] == [];
    }
  }

  lemma {:induction false} TrimmedValid(b: seq<Byte>)
    requires ValidContent(b)
    ensures ValidContent(TrimRight(b))
    decreases |b|
  {
    if b != [] && IsWS(b[|b| - 1]) {
      if ValidUtf8(b) {
        Utf8Front(b);
      }
      TrimmedValid(b[..|b| - 1]);
    }
  }

  lemma {:induction false} TrimRightAppend(a: seq<Byte>, b: seq<Byte>)
    requires TrimRight(b) != []
    ensures TrimRight(a + b) == a + TrimRight(b)
    decreases |b|
  {
    assert b != [] && (a + b)[|a + b| - 1] == b[|b| - 1];
    if IsWS(b[|b| - 1]) {
      assert (a + b)[..|a + b| - 1] == a + b[..|b| - 1];
      TrimRightAppend(a, b[..|b| - 1]);
    }
  }

  // ------------------------------------------------------------ the lines

  datatype Header = Header(key: seq<Byte>, orig: seq<Byte>, value: seq<Byte>, splits: seq<nat>)

  // The header whose lines are being read: the last one, and those before it.
  datatype Fold = Nothing | Open(key: seq<Byte>, orig: seq<Byte>, front: seq<seq<Byte>>, last: seq<Byte>)

  datatype State = State(out: seq<Header>, cur: Fold)

  datatype Taken = Fine(st: State) | Bad(e: Error)

  datatype Outcome = Done(out: seq<Header>, rest: seq<Byte>) | Failed(e: Error)

  const START := State([], Nothing)

  function Join(frags: seq<seq<Byte>>): seq<Byte> {
    if frags == [] then [] else frags[0] + Join(frags[1..])
  }

  function Lengths(frags: seq<seq<Byte>>): (s: seq<nat>) {
    seq(|frags|, i requires 0 <= i < |frags| => |frags[i]|)
  }

  // The header is complete: its lines joined and trimmed, and where they were folded.
  function Finish(st: State): Taken {
    match st.cur
    case Nothing => Fine(st)
    case Open(key, orig, front, last) =>
      var content := Join(front) + last;
      if !ValidContent(content) then Bad(BAD_CONTENT)
      else Fine(State(st.out + [Header(key, orig, TrimWS(content), Lengths(front))], Nothing))
  }

  function IndexByte(b: seq<Byte>, c: Byte): (i: int)
    ensures -1 <= i < |b|
    ensures i >= 0 ==> b[i] == c
    ensures forall j :: 0 <= j < |b| && (i < 0 || j < i) ==> b[j] != c
  {
    if b == [] then -1 else if b[0] == c then 0
    else
      var i := IndexByte(b[1..], c);
      if i < 0 then -1 else i + 1
  }

  // A name, possibly blanks, a colon, and the beginning of the content.
  function OpenLine(names: Names, out: seq<Header>, line: seq<Byte>): Taken {
    var n := IndexByte(line, COLON);
    if n < 0 then Bad(MISSING_COLON)
    else
      var name := TrimRight(line[..n]);
      if name == [] then Bad(EMPTY_NAME)
      else if !ValidName(name) then Bad(BAD_NAME)
      else
        var (k, o) := KeyOf(names, name);
        Fine(State(out, Open(k, o, [], SkipWS(line[n + 1..]))))
  }

  function FoldLine(st: State, line: seq<Byte>): Taken {
    match st.cur
    case Nothing => Bad(BAD_CONTINUATION)
    case Open(key, orig, front, last) =>
      if last == [] || SkipWS(line) == [] then Bad(EMPTY_FOLD)
      else Fine(State(st.out, Open(key, orig, front + [last], line)))
  }

  // One line, without its newline: it starts a header or goes on with one.
  function TakeHeaderLine(names: Names, st: State, line: seq<Byte>): Taken
    requires line != []
  {
    if IsWS(line[0]) then FoldLine(st, line)
    else
      match Finish(st)
      case Bad(e) => Bad(e)
      case Fine(st') => OpenLine(names, st'.out, line)
  }

  function StripCR(line: seq<Byte>): seq<Byte> {
    if line != [] && line[|line| - 1] == CR then line[..|line| - 1] else line
  }

  // The end of the stream in the middle of the headers. A line that has started a header
  // has still finished the one before it.
  function CutOff(s: seq<Byte>, st: State, ending: Error): Outcome {
    if s != [] && !IsWS(s[0]) && Finish(st).Bad? then Failed(Finish(st).e) else Failed(ending)
  }

  function EndHeaders(st: State, rest: seq<Byte>): Outcome {
    match Finish(st)
    case Bad(e) => Failed(e)
    case Fine(st') => Done(st'.out, rest)
  }

  // All headers at the front of s, up to an empty line. Behind s comes an error.
  function ReadHeaders(names: Names, s: seq<Byte>, ending: Error, st: State): Outcome
    decreases |s|
  {
    var i := LineEnd(s);
    if i < 0 then CutOff(s, st, ending)
    else
      var line := StripCR(s[..i]);
      if line == [] then EndHeaders(st, s[i + 1..])
      else
        match TakeHeaderLine(names, st, line)
        case Bad(e) => Failed(e)
        case Fine(st') => ReadHeaders(names, s[i + 1..], ending, st')
  }
}
