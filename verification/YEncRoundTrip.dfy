// What the yEnc writer sends, the yEnc reader gives back.
module YEncRoundTrip {
  import opened Common
  import opened Source
  import opened BufReader
  import opened YEncText
  import opened YEnc

  function Flat(pieces: seq<seq<Byte>>): seq<Byte> {
    if pieces == [] then [] else pieces[0] + Flat(pieces[1..])
  }

  // The lines that hold the text, and the bytes sent for them.
  function Lines(t: seq<Byte>): seq<seq<Byte>> {
    Finish(PushAll(NOTHING, t))
  }

  function Encoding(t: seq<Byte>): seq<Byte> {
    Joined(Lines(t))
  }

  lemma NextWrite(e: Encoded, pieces: seq<seq<Byte>>)
    requires pieces != []
    ensures PushAll(PushAll(e, pieces[0]), Flat(pieces[1..])) == PushAll(e, Flat(pieces))
  {
    PushAllSplit(e, pieces[0], Flat(pieces[1..]));
  }

  // Some writes and a close.
  method Encode(pieces: seq<seq<Byte>>) returns (out: seq<Byte>)
    ensures out == Encoding(Flat(pieces))
  {
    var w := new Sink();
    var enc := new YEncoder(w);
    var rest := pieces;
    while rest != []
      invariant enc.Valid() && enc.w == w && fresh(w) && fresh(enc) && fresh(enc.buf)
      invariant PushAll(enc.Now(), Flat(rest)) == PushAll(NOTHING, Flat(pieces))
    {
      NextWrite(enc.Now(), rest);
      var _ := enc.Write(rest[0]);
      rest := rest[1..];
    }
    assert enc.Now() == PushAll(NOTHING, Flat(pieces));
    enc.Close();
    out := w.out;
  }

  // More of the text has been handed out.
  lemma MoreRead(all: seq<Byte>, got: seq<Byte>, p: seq<Byte>, rest: seq<Byte>)
    requires all == got + (p + rest)
    ensures all == (got + p) + rest
  {
  }

  // Reads until the end, asking for the given numbers of bytes in turn and then for up to
  // `piece` at a time.
  method ReadToEnd(dec: YDecoder, sizes: seq<nat>, piece: nat, ghost lines: seq<seq<Byte>>)
    returns (got: seq<Byte>, e: Option<Error>)
    requires dec.Valid() && dec.Holds(lines) && piece > 0
    modifies dec, dec.line, dec.br, dec.br.b, dec.br.u
    ensures got == old(dec.Text(lines)) && e == Some(EOF)
  {
    ghost var (left, all) := (lines, dec.Text(lines));
    var next := sizes;
    got, e := [], None;
    while e.None?
      invariant dec.Valid() && dec.Holds(left) && all == got + dec.Text(left)
      invariant e.Some? ==> e == Some(EOF) && got == all
      decreases e.None?, |next|, |dec.Text(left)|
    {
      var p;
      p, e, left := dec.Read(if next == [] then piece else next[0], left);
      next := if next == [] then [] else next[1..];
      MoreRead(all, got, p, dec.Text(left));
      got := got + p;
    }
  }

  method Decode(u: Source, size: nat, sizes: seq<nat>, piece: nat, ghost t: seq<Byte>) returns (got: seq<Byte>, e: Option<Error>)
    requires u.Rest() == Bytes(Encoding(t)) && size > 0 && piece > 0
    modifies u
    ensures got == t && e == Some(EOF)
  {
    LinesComeBack(t);
    var br := new BufReader(u, size);
    var dec := new YDecoder(br);
    assert dec.Text(Lines(t)) == [] + t == t;
    got, e := ReadToEnd(dec, sizes, piece, Lines(t));
  }

  // Any bytes, written in any pieces, come back from a connection that cuts what was sent in
  // any way, through a buffer of any size and in reads of any sizes; and then comes EOF.
  method RoundTrip(pieces: seq<seq<Byte>>, cut: seq<Byte> -> seq<Chunk>, size: nat, sizes: seq<nat>, piece: nat)
    returns (got: seq<Byte>, e: Option<Error>)
    requires forall s: seq<Byte> :: Items(cut(s)) == Bytes(s)
    requires size > 0 && piece > 0
    ensures got == Flat(pieces) && e == Some(EOF)
  {
    var out := Encode(pieces);
    var u := new Source(cut(out));
    got, e := Decode(u, size, sizes, piece, Flat(pieces));
  }
}
