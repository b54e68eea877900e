// A file that readers follow while it is still being written.
module CachePub {
  import opened Common

  // A published file: its bytes, how many of them readers may see, and how it ended.
  datatype Pub = Pub(file: seq<Byte>, n: nat, err: Option<Error>) {
    predicate Valid() {
      n == |file|
    }
  }

  // What pread answers when asked for a number of bytes: all of them, or fewer and an error.
  datatype Pread = Full | Short(count: nat, err: Error)

  datatype ReadResult = ReadResult(data: seq<Byte>, err: Option<Error>)

  // Before this holds a reader waits.
  predicate Ready(p: Pub, offset: nat) {
    offset < p.n || p.err.Some?
  }

  class CachePub {
    var file: seq<Byte>
    var n: nat
    var err: Option<Error>

    function Get(): Pub
      reads this
    {
      Pub(file, n, err)
    }

    constructor ()
      ensures Get() == Pub([], 0, None)
    {
      file, n, err := [], 0, None;
    }

    // The file takes the first `taken` bytes of b and answers with `fault`.
    method Write(b: seq<Byte>, taken: nat, fault: Option<Error>)
      requires taken <= |b| && Get().Valid()
      modifies this
      ensures Get() == Pub(old(file) + b[..taken], old(n) + taken, if fault.Some? then fault else old(err))
      ensures Get().Valid()
    {
      file := file + b[..taken];
      n := n + taken;
      if fault.Some? {
        err := fault;
      }
    }

    method Finish()
      modifies this`err
      ensures err == Some(EOF)
    {
      err := Some(EOF);
    }

    // The source panics when asked to cancel with the mark of success.
    method Cancel(e: Error)
      requires e != EOF
      modifies this`err
      ensures err == Some(e)
    {
      err := Some(e);
    }
  }

  class Reader {
    const c: CachePub
    var n: nat

    constructor (c: CachePub)
      ensures this.c == c && n == 0
    {
      this.c, this.n := c, 0;
    }

    // The call waits until the published file is ready.
    method Read(size: nat, pread: Pread) returns (data: seq<Byte>, e: Option<Error>)
      requires c.Get().Valid() && n <= c.n && Ready(c.Get(), n)
      requires pread.Short? ==> pread.count <= Min(size, c.n - n)
      modifies this
      ensures old(n) <= n <= c.n && data == c.file[old(n)..n]
      ensures ReadResult(data, e) == ReadSpec(c.Get(), old(n), size, pread)
    {
      data := [];
      var (wn, we) := (c.n, c.err);
      if n < wn {
        var want := Min(size, wn - n);
        var got := if pread.Full? then want else pread.count;
        data := c.file[n..n + got];
        e := if pread.Full? then None else Some(pread.err);
        n := n + got;
        if e.Some? && e.value != EOF {
          return;
        }
      } else {
        e := None;
      }
      if n >= wn {
        e := we;
      } else if e == Some(EOF) {
        e := Some(UnexpectedEOF);
      }
    }
  }

  // What a read returns: the next bytes; the file's own error; or, once everything written
  // has been seen and not before, the way it ended.
  function ReadSpec(p: Pub, offset: nat, size: nat, pread: Pread): ReadResult
    requires p.Valid() && offset <= p.n
    requires pread.Short? ==> pread.count <= Min(size, p.n - offset)
  {
    if offset == p.n then ReadResult([], p.err)
    else
      var got := if pread.Full? then Min(size, p.n - offset) else pread.count;
      ReadResult(p.file[offset..offset + got],
                 if pread.Short? && pread.err != EOF then Some(pread.err)
                 else if offset + got == p.n then p.err
                 else if pread.Short? then Some(UnexpectedEOF)
                 else None)
  }

  // -------------------------------------------------- a writer and a reader

  datatype Act =
    | Write(b: seq<Byte>, taken: nat, fault: Option<Error>)
    | Finish
    | Cancel(e: Error)
    | Read(size: nat, pread: Pread)

  // What the writer has written and whether it has put its end mark; what the reader has
  // been given, and how its last read ended: with an error of the file's own, after the end
  // mark, with nothing written since.
  datatype Session = Session(
    pub: Pub, ended: bool, offset: nat, seen: seq<Byte>, last: Option<Error>, own: bool, late: bool, quiet: bool)
  {
    ghost predicate Valid() {
      pub.Valid() && offset <= pub.n
    }
  }

  const OPENED := Session(Pub([], 0, None), false, 0, [], None, false, false, true)

  // After a fault the writer may still write, and it may cancel; only behind the end mark
  // it does nothing more. A file does not answer a write with EOF. The reader calls when
  // ready.
  ghost predicate Enabled(s: Session, a: Act)
    requires s.Valid()
  {
    match a
    case Write(b, taken, fault) => taken <= |b| && !s.ended && fault != Some(EOF)
    case Finish => !s.ended
    case Cancel(e) => !s.ended && e != EOF
    case Read(size, pread) => Ready(s.pub, s.offset) && (pread.Short? ==> pread.count <= Min(size, s.pub.n - s.offset))
  }

  // The file itself answered with an error, or with the end before the reader had all that
  // is published.
  predicate OwnError(p: Pub, offset: nat, pread: Pread) {
    offset < p.n && pread.Short? && (pread.err != EOF || offset + pread.count < p.n)
  }

  ghost function Next(s: Session, a: Act): (t: Session)
    requires s.Valid() && Enabled(s, a)
    ensures t.Valid()
  {
    match a
    case Write(b, taken, fault) =>
      s.(pub := Pub(s.pub.file + b[..taken], s.pub.n + taken, if fault.Some? then fault else s.pub.err), quiet := false)
    case Finish => s.(pub := s.pub.(err := Some(EOF)), ended := true)
    case Cancel(e) => s.(pub := s.pub.(err := Some(e)), ended := true)
    case Read(size, pread) =>
      var r := ReadSpec(s.pub, s.offset, size, pread);
      s.(offset := s.offset + |r.data|, seen := s.seen + r.data, last := r.err,
         own := OwnError(s.pub, s.offset, pread), late := s.ended, quiet := true)
  }

  ghost predicate Reaches(s: Session, acts: seq<Act>, t: Session)
    requires s.Valid()
    decreases |acts|
  {
    if acts == [] then s == t
    else Enabled(s, acts[0]) && Reaches(Next(s, acts[0]), acts[1..], t)
  }

  // The reader was told how the writer ended or failed.
  predicate IsTold(s: Session) {
    s.last.Some? && !s.own
  }

  ghost predicate Follows(s: Session) {
    && s.Valid() && s.seen == s.pub.file[..s.offset]
    && (s.pub.err == Some(EOF) ==> s.ended)
    && (IsTold(s) && s.quiet ==> s.offset == s.pub.n)
    && (s.late ==> s.ended && s.quiet && (IsTold(s) ==> s.last == s.pub.err))
    && (s.last == Some(EOF) ==> s.late && !s.own)
  }

  lemma FollowsStep(s: Session, a: Act)
    requires Follows(s) && Enabled(s, a)
    ensures Follows(Next(s, a))
  {
    assert s.pub.file[..s.pub.n] == s.pub.file;
  }

  // However writes and reads interleave, a reader is given a prefix of what was written. It
  // is told of an error of the writer only after all that had been written; behind the end
  // mark that is all there ever is, and what it is told is the mark, EOF or the reason for
  // cancelling; and it is told EOF behind the end mark only.
  lemma {:induction false} ReaderSeesPrefix(s: Session, acts: seq<Act>, t: Session)
    requires Follows(s) && Reaches(s, acts, t)
    ensures Follows(t) && t.seen <= t.pub.file
    ensures IsTold(t) && t.quiet ==> t.seen == t.pub.file
    ensures IsTold(t) && t.late ==> t.seen == t.pub.file && t.last == t.pub.err
    ensures t.last == Some(EOF) ==> IsTold(t) && t.late
    decreases |acts|
  {
    if acts != [] {
      FollowsStep(s, acts[0]);
      ReaderSeesPrefix(Next(s, acts[0]), acts[1..], t);
    }
  }

  // ---------------------------------------------------- a reader gets it all

  // Reads of these sizes, which the file answers fully.
  ghost function ReadFully(s: Session, sizes: seq<nat>): Session
    requires s.Valid() && s.ended && s.pub.err.Some?
    decreases |sizes|
  {
    if sizes == [] then s else ReadFully(Next(s, Read(sizes[0], Full)), sizes[1..])
  }

  // Behind the end mark a reader that goes on reading is given everything that was written,
  // and then told the mark, after at most one read more than there are bytes left.
  lemma {:induction false} ReaderGetsAll(s: Session, sizes: seq<nat>)
    requires Follows(s) && s.ended && s.pub.err.Some?
    requires forall i :: 0 <= i < |sizes| ==> sizes[i] > 0
    ensures var t := ReadFully(s, sizes);
      && t.pub == s.pub && Follows(t)
      && (|sizes| > s.pub.n - s.offset ==> t.seen == s.pub.file && t.last == s.pub.err && !t.own)
    decreases |sizes|
  {
    if sizes != [] {
      var u := Next(s, Read(sizes[0], Full));
      FollowsStep(s, Read(sizes[0], Full));
      ReaderGetsAll(u, sizes[1..]);
      if |sizes| == 1 {
        assert u.seen == u.pub.file[..u.offset];
        assert u.pub.file[..u.pub.n] == u.pub.file;
      }
    }
  }
}
