// Which lines and which contents the header reader accepts, told apart from how it
// looks at them.
module HeaderGrammar {
  import opened Common
  import opened ModArith
  import opened Multipart
  import opened MultiLines
  import opened Headers

  // ---------------------------------------------------------------- the line

  ghost predicate Blanks(b: seq<Byte>) {
    forall i | 0 <= i < |b| :: IsWS(b[i])
  }

  lemma {:induction false} TrimsBlanks(name: seq<Byte>, blanks: seq<Byte>)
    requires Blanks(blanks) && (name == [] || !IsWS(name[|name| - 1]))
    ensures TrimRight(name + blanks) == name
    decreases |blanks|
  {
    if blanks == [] {
      assert name + blanks == name;
    } else {
      var n := |blanks| - 1;
      assert (name + blanks)[..|name + blanks| - 1] == name + blanks[..n];
      TrimsBlanks(name, blanks[..n]);
    }
  }

  lemma {:induction false} TrimmedBlanks(b: seq<Byte>)
    ensures TrimRight(b) <= b && Blanks(b[|TrimRight(b)|..])
    decreases |b|
  {
    if b != [] && IsWS(b[|b| - 1]) {
      TrimmedBlanks(b[..|b| - 1]);
    }
  }

  // line is a name, possibly blanks, a colon, and the rest.
  ghost predicate HeaderLine(line: seq<Byte>, name: seq<Byte>, blanks: seq<Byte>, rest: seq<Byte>) {
    && line == name + blanks + [COLON] + rest
    && name != [] && ValidName(name) && Blanks(blanks)
  }

  lemma FirstColon(line: seq<Byte>, n: nat)
    requires n < |line| && line[n] == COLON && forall i :: 0 <= i < n ==> line[i] != COLON
    ensures IndexByte(line, COLON) == n
  {
  }

  lemma OpensHeader(names: Names, out: seq<Header>, line: seq<Byte>, name: seq<Byte>, blanks: seq<Byte>, rest: seq<Byte>)
    requires HeaderLine(line, name, blanks, rest)
    ensures var (k, o) := KeyOf(names, name);
      OpenLine(names, out, line) == Fine(State(out, Open(k, o, [], SkipWS(rest))))
  {
    var b := name + blanks;
    assert forall i :: 0 <= i < |b| ==> line[i] == b[i];
    assert b[|name|..] == blanks;
    assert forall i :: |name| <= i < |b| ==> b[i] == blanks[i - |name|];
    FirstColon(line, |b|);
    assert line[..|b|] == b && line[|b| + 1..] == rest;
    TrimsBlanks(name, blanks);
  }

  lemma OpenedForm(names: Names, out: seq<Header>, line: seq<Byte>)
      returns (name: seq<Byte>, blanks: seq<Byte>, rest: seq<Byte>)
    requires OpenLine(names, out, line).Fine?
    ensures HeaderLine(line, name, blanks, rest)
  {
    var n := IndexByte(line, COLON);
    var b := line[..n];
    TrimmedBlanks(b);
    name, blanks, rest := TrimRight(b), b[|TrimRight(b)|..], line[n + 1..];
    Rejoined(line, n, name);
  }

  lemma Rejoined(line: seq<Byte>, n: nat, name: seq<Byte>)
    requires n < |line| && name <= line[..n]
    ensures line == name + line[..n][|name|..] + [line[n]] + line[n + 1..]
  {
    var b := line[..n];
    assert b == name + b[|name|..];
  }

  // A line opens a header exactly if it has that form.
  lemma OpensExactly(names: Names, out: seq<Header>, line: seq<Byte>)
    ensures OpenLine(names, out, line).Fine? <==> exists name, blanks, rest :: HeaderLine(line, name, blanks, rest)
  {
    if OpenLine(names, out, line).Fine? {
      var name, blanks, rest := OpenedForm(names, out, line);
    } else if name, blanks, rest :| HeaderLine(line, name, blanks, rest) {
      OpensHeader(names, out, line, name, blanks, rest);
    }
  }

  // ------------------------------------------------------------- the content

  // The characters of Unicode, without the surrogates (section 3 of RFC 3629).
  predicate Scalar(c: nat) {
    c < 0x110000 && !(0xD800 <= c < 0xE000)
  }

  function Encoded(c: nat): seq<Byte>
    requires Scalar(c)
  {
    if c < 0x80 then [c]
    else if c < 0x800 then [0xC0 + c / 64, 0x80 + c % 64]
    else if c < 0x10000 then [0xE0 + c / 4096, 0x80 + c / 64 % 64, 0x80 + c % 64]
    else [0xF0 + c / 262144, 0x80 + c / 4096 % 64, 0x80 + c / 64 % 64, 0x80 + c % 64]
  }

  predicate Text(cs: seq<nat>) {
    forall i | 0 <= i < |cs| :: Scalar(cs[i])
  }

  function EncodedAll(cs: seq<nat>): seq<Byte>
    requires Text(cs)
  {
    if cs == [] then [] else Encoded(cs[0]) + EncodedAll(cs[1..])
  }

  lemma EncodedLength(c: nat, rest: seq<Byte>)
    requires Scalar(c)
    ensures CharLength(Encoded(c) + rest) == |Encoded(c)| > 0
  {
    var b := Encoded(c) + rest;
    assert forall i | 0 <= i < |Encoded(c)| :: b[i] == Encoded(c)[i];
    if c < 0x80 {
    } else if c < 0x800 {
    } else if c < 0x10000 {
      ThreeBytes(c);
    } else {
      FourBytes(c);
    }
  }

  lemma ThreeBytes(c: nat)
    requires 0x800 <= c < 0x10000 && !(0xD800 <= c < 0xE000)
    ensures var (x, y) := (c / 4096, c / 64 % 64); x < 16 && (x == 0 ==> y >= 0x20) && (x == 0xD ==> y < 0x20)
  {
    assert c / 64 == c / 4096 * 64 + c / 64 % 64;
  }

  lemma FourBytes(c: nat)
    requires 0x10000 <= c < 0x110000
    ensures var (x, y) := (c / 262144, c / 4096 % 64); x <= 4 && (x == 0 ==> y >= 0x10) && (x == 4 ==> y < 0x10)
  {
    assert c / 4096 == c / 262144 * 64 + c / 4096 % 64;
  }

  lemma OneDigit(q: nat, r: nat)
    requires r < 64
    ensures (64 * q + r) / 64 == q && (64 * q + r) % 64 == r
  {
  }

  lemma TwoDigits(q: nat, r: nat, t: nat, c: nat)
    requires r < 64 && t < 64 && c == 4096 * q + 64 * r + t
    ensures c / 4096 == q && c / 64 % 64 == r && c % 64 == t
  {
    OneDigit(64 * q + r, t);
    OneDigit(q, r);
  }

  lemma ThreeDigits(p: nat, q: nat, r: nat, t: nat, c: nat)
    requires q < 64 && r < 64 && t < 64 && c == 262144 * p + 4096 * q + 64 * r + t
    ensures c / 262144 == p && c / 4096 % 64 == q && c / 64 % 64 == r && c % 64 == t
  {
    TwoDigits(64 * p + q, r, t, c);
    OneDigit(p, q);
    assert c / 262144 == c / 4096 / 64;
  }

  // The character at the front of b.
  lemma FrontChar(b: seq<Byte>) returns (c: nat)
    requires b != [] && CharLength(b) > 0
    ensures Scalar(c) && CharLength(b) <= |b| && b[..CharLength(b)] == Encoded(c)
  {
    var n := CharLength(b);
    if n == 1 {
      c := b[0];
    } else if n == 2 {
      var x: nat, y: nat := b[0] - 0xC0, b[1] - 0x80;
      c := 64 * x + y;
      OneDigit(x, y);
    } else if n == 3 {
      var x: nat, y: nat, z: nat := b[0] - 0xE0, b[1] - 0x80, b[2] - 0x80;
      c := 4096 * x + 64 * y + z;
      TwoDigits(x, y, z, c);
    } else {
      var w: nat, x: nat, y: nat, z: nat := b[0] - 0xF0, b[1] - 0x80, b[2] - 0x80, b[3] - 0x80;
      c := 262144 * w + 4096 * x + 64 * y + z;
      ThreeDigits(w, x, y, z, c);
    }
  }

  lemma {:induction false} TextIsValid(cs: seq<nat>)
    requires Text(cs)
    ensures ValidUtf8(EncodedAll(cs))
  {
    if cs != [] {
      var rest := EncodedAll(cs[1..]);
      EncodedLength(cs[0], rest);
      assert (Encoded(cs[0]) + rest)[|Encoded(cs[0])|..] == rest;
      TextIsValid(cs[1..]);
    }
  }

  lemma {:induction false} ValidIsText(b: seq<Byte>) returns (cs: seq<nat>)
    requires ValidUtf8(b)
    ensures Text(cs) && EncodedAll(cs) == b
    decreases |b|
  {
    if b == [] {
      cs := [];
    } else {
      var c := FrontChar(b);
      var more := ValidIsText(b[CharLength(b)..]);
      cs := [c] + more;
      assert cs[1..] == more;
    }
  }

  ghost predicate IsText(b: seq<Byte>, cs: seq<nat>) {
    Text(cs) && EncodedAll(cs) == b
  }

  lemma {:induction false} AsciiIsText(b: seq<Byte>)
    requires forall i :: 0 <= i < |b| ==> b[i] < 0x80
    ensures ValidUtf8(b)
    decreases |b|
  {
    if b != [] {
      AsciiIsText(b[1..]);
    }
  }

  // Content is accepted exactly if it is the UTF-8 of some characters without NUL, CR
  // and LF: no overlong form, no surrogate, nothing above U+10FFFF.
  lemma ContentIs(b: seq<Byte>)
    ensures ValidContent(b) <==> Clean(b) && exists cs :: IsText(b, cs)
  {
    if forall i :: 0 <= i < |b| ==> b[i] < 0x80 {
      AsciiIsText(b);
    }
    if ValidUtf8(b) {
      var cs := ValidIsText(b);
      assert IsText(b, cs);
    }
    if cs :| IsText(b, cs) {
      TextIsValid(cs);
    }
  }

  // ------------------------------------------------------------- the newlines

  ghost predicate Bare(line: seq<Byte>) {
    LF !in line && (line != [] ==> line[|line| - 1] != CR)
  }

  // Headers, an empty line, and the body, with the newline that the sender uses.
  function Sent(lines: seq<seq<Byte>>, nl: seq<Byte>, body: seq<Byte>): seq<Byte> {
    if lines == [] then [] + nl + body else lines[0] + nl + Sent(lines[1..], nl, body)
  }

  lemma LineSplit(line: seq<Byte>, nl: seq<Byte>, rest: seq<Byte>)
    requires Bare(line) && (nl == [LF] || nl == [CR, LF])
    ensures var (s, i) := (line + nl + rest, |line| + |nl| - 1);
      LineEnd(s) == i && StripCR(s[..i]) == line && s[i + 1..] == rest
  {
    var (s, i) := (line + nl + rest, |line| + |nl| - 1);
    assert s[i] == LF;
    forall j | 0 <= j < i ensures s[j] != LF {
      assert s[j] == if j < |line| then line[j] else CR;
    }
    LineEndIs(s, i);
    if nl == [LF] {
      assert s[..i] == line;
    } else {
      assert s[..i] == line + [CR];
      assert (line + [CR])[..|line|] == line;
    }
  }

  // Headers are read the same whether their lines end with CRLF or with LF alone.
  lemma {:induction false} EitherNewline(names: Names, lines: seq<seq<Byte>>, body: seq<Byte>, ending: Error, st: State)
    requires forall i | 0 <= i < |lines| :: Bare(lines[i]) && lines[i] != []
    ensures ReadHeaders(names, Sent(lines, [CR, LF], body), ending, st) == ReadHeaders(names, Sent(lines, [LF], body), ending, st)
    decreases |lines|
  {
    if lines == [] {
      LineSplit([], [CR, LF], body);
      LineSplit([], [LF], body);
    } else {
      LineSplit(lines[0], [CR, LF], Sent(lines[1..], [CR, LF], body));
      LineSplit(lines[0], [LF], Sent(lines[1..], [LF], body));
      var r := TakeHeaderLine(names, st, lines[0]);
      if r.Fine? {
        EitherNewline(names, lines[1..], body, ending, r.st);
      }
    }
  }
}
