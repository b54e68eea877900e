// Copying an article from a reader to a client, in a way that can be resumed.
module Copyer {
  import opened Common
  import opened Source

  // How the connection answers one call: how many bytes it takes, and its error.
  datatype Answer = Answer(taken: nat, err: Option<Error>)

  // The client's side: what went through the dot writer, and how the connection is going
  // to answer. Once the plan is used up every call succeeds.
  class Responder {
    var body: seq<Byte>
    var plan: seq<Answer>

    constructor (plan: seq<Answer>)
      ensures body == [] && this.plan == plan
    {
      body, this.plan := [], plan;
    }

    // ResArticleFollows, and closing the dot writer.
    method Control() returns (err: Option<Error>)
      modifies this`plan
      ensures old(plan) == [] ==> err.None? && plan == []
    {
      err := None;
      if plan != [] {
        err, plan := plan[0].err, plan[1..];
      }
    }

    method Write(b: seq<Byte>) returns (n: nat, err: Option<Error>)
      modifies this
      ensures n <= |b| && body == old(body) + b[..n]
      ensures old(plan) == [] ==> n == |b| && err.None? && plan == []
    {
      n, err := |b|, None;
      if plan != [] {
        n, err, plan := Min(|b|, plan[0].taken), plan[0].err, plan[1..];
      }
      body := body + b[..n];
    }
  }

  // The article a session is at.
  class GroupState {
    var bpid: nat
    var gpid: nat

    constructor ()
    {
      bpid, gpid := 0, 0;
    }
  }

  const BUFFER_SIZE: nat := 32 * 1024

  class FullNNTPCopyer {
    const w: Responder
    var dw: bool
    var gs: GroupState?

    constructor (w: Responder)
      ensures this.w == w && !dw && gs == null
    {
      this.w, dw, gs := w, false, null;
    }

    // The returned count is what the client has been given, whatever went wrong, so a copy
    // that starts again at that offset neither repeats nor skips a byte.
    method CopyFrom(src: Source, bpid: nat, gpid: nat) returns (written: nat, err: Option<Error>)
      modifies this`dw, gs, w, src
      ensures var d := Delivered(old(src.Rest())); written <= |d| && w.body == old(w.body) + d[..written]
      ensures err.None? ==> written == |Delivered(old(src.Rest()))| && Ending(old(src.Rest())) == EOF && !dw
      ensures gs != null && !old(dw) && written > 0 ==> gs.bpid == bpid && gs.gpid == gpid
      ensures gs != null && old(dw) ==> gs.bpid == old(gs.bpid) && gs.gpid == old(gs.gpid)
      ensures old(w.plan) == [] ==>
        && written == |Delivered(old(src.Rest()))|
        && (Ending(old(src.Rest())) != EOF ==> err == Some(Ending(old(src.Rest()))))
        && (Ending(old(src.Rest())) == EOF && (old(dw) || written > 0) ==> err.None?)
    {
      ghost var d := Delivered(src.Rest());
      written := 0;
      err := None;
      var buf: seq<Byte> := [];
      var er: Option<Error> := None;
      if !dw {
        buf, er := ReadMore(src);
        if buf == [] && er.Some? {
          return 0, er;
        }
        if gs != null {
          gs.bpid, gs.gpid := bpid, gpid;
        }
        err := w.Control();
        if err.Some? {
          return;
        }
        dw := true;
      }
      written, err := CopyLoop(src, buf, er, d);
      if err.None? {
        err := w.Control();
        dw := false;
      }
    }

    // The write of the loop body. body is what the client had before the loop.
    method Deliver(buf: seq<Byte>, written: nat, ghost d: seq<Byte>, ghost tail: seq<Byte>, ghost body: seq<Byte>)
      returns (written': nat, err: Option<Error>)
      requires written <= |d| && d[written..] == buf + tail && w.body == body + d[..written]
      modifies w
      ensures written' <= |d| && w.body == body + d[..written']
      ensures err.None? ==> d[written'..] == tail
      ensures old(w.plan) == [] ==> err.None? && w.plan == []
    {
      written', err := written, None;
      if |buf| > 0 {
        var nw, ew := w.Write(buf);
        Consumed(d, written, buf, nw, tail);
        written' := written + nw;
        if ew.Some? {
          err := ew;
        } else if nw != |buf| {
          err := Some(ShortWrite);
        }
      }
    }

    // Alternates writing what was read and reading more. d is all there is to deliver.
    method CopyLoop(src: Source, buf0: seq<Byte>, er0: Option<Error>, ghost d: seq<Byte>)
      returns (written: nat, err: Option<Error>)
      requires Left(d, 0, buf0, er0, src.Rest())
      modifies w, src
      ensures written <= |d| && w.body == old(w.body) + d[..written]
      ensures err.None? ==> written == |d| && Last(er0, old(src.Rest())) == EOF
      ensures old(w.plan) == [] ==> w.plan == [] && written == |d|
      ensures old(w.plan) == [] ==> err == if Last(er0, old(src.Rest())) == EOF then None else Some(Last(er0, old(src.Rest())))
    {
      var (buf, er) := (buf0, er0);
      ghost var (end, body) := (Last(er, src.Rest()), w.body);
      written, err := 0, None;
      while true
        invariant Left(d, written, buf, er, src.Rest()) && Last(er, src.Rest()) == end
        invariant w.body == body + d[..written]
        invariant old(w.plan) == [] ==> w.plan == []
        decreases er.None?, Work(src.script)
      {
        ghost var rest := Unread(er, src.Rest());
        written, err := Deliver(buf, written, d, rest, body);
        if err.Some? {
          return;
        }
        if !er.None? {
          return written, if er == Some(EOF) then None else er;
        }
        buf, er := ReadMore(src);
      }
    }

    // What is in the buffer, and then what has not been read, is what is left to deliver.
    ghost predicate Left(d: seq<Byte>, written: nat, buf: seq<Byte>, er: Option<Error>, rest: seq<Item>) {
      written <= |d| && d[written..] == buf + Unread(er, rest)
    }

    lemma Consumed(d: seq<Byte>, written: nat, buf: seq<Byte>, nw: nat, tail: seq<Byte>)
      requires written <= |d| && d[written..] == buf + tail && nw <= |buf|
      ensures written + nw <= |d| && d[..written + nw] == d[..written] + buf[..nw]
      ensures nw == |buf| ==> d[written + nw..] == tail
    {
      assert d[written..][..nw] == buf[..nw];
      assert d[written + nw..] == d[written..][nw..];
    }
  }

  // The error the copying is going to end with, when the last read had the error er.
  ghost function Last(er: Option<Error>, rest: seq<Item>): Error {
    if er.None? then Ending(rest) else er.value
  }

  ghost function Unread(er: Option<Error>, rest: seq<Item>): seq<Byte> {
    if er.None? then Delivered(rest) else []
  }

  method ReadMore(src: Source) returns (buf: seq<Byte>, er: Option<Error>)
    modifies src
    ensures |buf| <= BUFFER_SIZE
    ensures Delivered(old(src.Rest())) == buf + Unread(er, src.Rest())
    ensures Ending(old(src.Rest())) == Last(er, src.Rest())
    ensures er.None? ==> Work(src.script) < Work(old(src.script))
  {
    ghost var before := src.script;
    buf, er := src.Read(BUFFER_SIZE);
    DeliveredSplit(buf, Then(er, src.Rest()));
  }
}
