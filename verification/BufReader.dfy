// A buffered reader. Every method is a refinement of taking items off one stream: the
// bytes in the buffer, the queued error, and what the reader below has still to say.
module BufReader {
  import opened Common
  import opened Source

  // copy(p[n:], piece), in an array of which only the front has been overwritten so far.
  method AppendTo(p: array<Byte>, n: nat, piece: seq<Byte>, ghost orig: seq<Byte>)
    requires n + |piece| <= p.Length == |orig| && p[n..] == orig[n..]
    modifies p
    ensures p[..n + |piece|] == old(p[..n]) + piece
    ensures p[n + |piece|..] == orig[n + |piece|..]
  {
    forall i | 0 <= i < |piece| {
      p[n + i] := piece[i];
    }
    assert forall i :: n + |piece| <= i < p.Length ==> p[i] == old(p[n..])[i - n];
  }

  lemma BytesMove(items: seq<Item>, before: seq<Byte>, rest: seq<Item>, piece: seq<Byte>, rest': seq<Item>)
    requires items == Bytes(before) + rest && rest == Bytes(piece) + rest'
    ensures items == Bytes(before + piece) + rest'
  {
    BytesAppend(before, piece);
  }

  lemma BytesSplit(s: seq<Byte>, n: nat, rest: seq<Item>)
    requires n <= |s|
    ensures Bytes(s) + rest == Bytes(s[..n]) + (Bytes(s[n..]) + rest)
  {
    BytesAppend(s[..n], s[n..]);
    assert s == s[..n] + s[n..];
  }

  lemma BytesNone(rest: seq<Item>)
    ensures Bytes([]) + rest == rest
  {
  }

  lemma BytesFront(c: Byte, s: seq<Byte>, rest: seq<Item>)
    ensures Bytes([c] + s) + rest == [Item.Byte(c)] + (Bytes(s) + rest)
  {
  }

  lemma DeliveredBytes(s: seq<Byte>, rest: seq<Item>)
    ensures |s| <= |Bytes(s) + rest| && Delivered((Bytes(s) + rest)[..|s|]) == s
  {
    assert (Bytes(s) + rest)[..|s|] == Bytes(s) + [];
    DeliveredSplit(s, []);
  }

  lemma DeliveredError(items: seq<Item>, s: seq<Byte>, e: Option<Error>, rest: seq<Item>)
    requires e.Some? && items == Bytes(s) + Then(e, rest)
    ensures Delivered(items) == s
  {
    DeliveredSplit(s, Then(e, rest));
  }

  class BufReader {
    const u: Source
    const b: array<Byte>
    var r: nat
    var w: nat
    var err: Option<Error>

    ghost predicate Valid()
      reads this
    {
      r <= w <= b.Length && 0 < b.Length
    }

    function Buffered(): seq<Byte>
      requires Valid()
      reads this, b
    {
      b[r..w]
    }

    // The stream behind the buffer.
    function Behind(): seq<Item>
      reads this, u
    {
      Then(err, u.Rest())
    }

    function Pending(): seq<Item>
      requires Valid()
      reads this, b, u
    {
      Bytes(Buffered()) + Behind()
    }

    // Smaller after every fill that does not end in an error.
    ghost function FillsLeft(): nat
      reads this, u
    {
      if err.Some? then 0 else 1 + Work(u.script)
    }

    constructor (u: Source, size: nat)
      requires size > 0
      ensures Valid() && fresh(b) && b.Length == size && Pending() == u.Rest() && this.u == u
    {
      this.u, r, w, err := u, 0, 0, None;
      b := new Byte[size](_ => 0);
    }

    method ReadErr() returns (e: Option<Error>)
      modifies this`err
      ensures e == old(err) && err.None?
    {
      e := err;
      err := None;
    }

    // Reading at the end of the buffer into the room that is left.
    method FillOnce() returns (x: nat)
      requires Valid() && w < b.Length && err.None?
      modifies this, b, u
      ensures Valid() && r == old(r) && w == old(w) + x && b[..old(w)] == old(b[..w])
      ensures old(u.Rest()) == Bytes(b[old(w)..w]) + Behind()
      ensures FillsLeft() < old(FillsLeft())
    {
      var data, e := u.Read(b.Length - w);
      forall i | 0 <= i < |data| {
        b[w + i] := data[i];
      }
      x := |data|;
      err := e;
      w := w + x;
      assert b[old(w)..w] == data;
    }

    // Filling an empty buffer.
    method Refill()
      requires Valid() && r == w && err.None?
      modifies this, b, u
      ensures Valid() && r == 0 && Pending() == old(Pending())
      ensures FillsLeft() < old(FillsLeft())
    {
      assert Bytes(b[r..w]) == [];
      r, w := 0, 0;
      var _ := FillOnce();
    }

    // The loop most methods start with: fill until there is a byte, or report the error
    // that comes before it.
    method Await() returns (e: Option<Error>)
      requires Valid()
      modifies this, b, u
      ensures Valid()
      ensures e.None? ==> r < w && Pending() == old(Pending())
      ensures e.Some? ==> r == w && old(Pending()) == Then(e, Pending())
      ensures old(r) < old(w) ==> e.None? && r == old(r) && w == old(w) && err == old(err)
      ensures old(r) < old(w) ==> Buffered() == old(Buffered()) && u.script == old(u.script)
    {
      while r == w
        invariant Valid() && Pending() == old(Pending())
        invariant old(r) < old(w) ==> r == old(r) && w == old(w) && err == old(err)
        invariant old(r) < old(w) ==> Buffered() == old(Buffered()) && u.script == old(u.script)
        decreases FillsLeft()
      {
        assert Bytes(Buffered()) == [];
        if err.Some? {
          e := ReadErr();
          return;
        }
        Refill();
      }
      e := None;
    }

    // Taking bytes off the buffer.
    method Take(n: nat) returns (p: seq<Byte>)
      requires Valid() && n <= w - r
      modifies this`r
      ensures Valid() && r == old(r) + n && |p| == n && p == old(b[r..r + n])
      ensures old(Pending()) == Bytes(p) + Pending()
    {
      ghost var s := Buffered();
      p := b[r..r + n];
      assert s[..n] == p && s[n..] == b[r + n..w];
      BytesSplit(s, n, Behind());
      r := r + n;
    }

    lemma NothingCached()
      requires Valid() && r == w
      ensures Pending() == Behind()
    {
      assert Bytes(Buffered()) == [];
    }

    // With nothing cached the buffer would only be in the way of a large read.
    method ReadDirect(size: nat) returns (p: seq<Byte>, e: Option<Error>)
      requires Valid() && r == w && err.None?
      modifies u
      ensures |p| <= size && old(Pending()) == Bytes(p) + Then(e, Pending())
    {
      NothingCached();
      p, e := u.Read(size);
      NothingCached();
    }

    method Read(size: nat) returns (p: seq<Byte>, e: Option<Error>)
      requires Valid()
      modifies this, b, u
      ensures Valid() && |p| <= size
      ensures old(Pending()) == Bytes(p) + Then(e, Pending())
      ensures e.None? && 0 < size < b.Length ==> p != []
      ensures old(r) < old(w) ==> e.None? && err == old(err) && p + Buffered() == old(Buffered())
      ensures old(r) < old(w) ==> |p| == Min(size, old(w - r)) && u.script == old(u.script)
    {
      if r == w && err.None? && size >= b.Length {
        p, e := ReadDirect(size);
        return;
      }
      p := [];
      e := Await();
      if e.Some? {
        BytesNone(Then(e, Pending()));
        return;
      }
      p := Take(Min(size, w - r));
    }

    method ReadByte() returns (c: Byte, e: Option<Error>)
      requires Valid()
      modifies this, b, u
      ensures Valid()
      ensures e.None? ==> old(Pending()) == [Item.Byte(c)] + Pending() && r > 0
      ensures e.Some? ==> old(Pending()) == Then(e, Pending())
    {
      c := 0;
      e := Await();
      if e.None? {
        var p := Take(1);
        c := p[0];
        assert p == [c];
      }
    }

    // Copies into p up to and including the first q, or as much as fits or comes before
    // an error.
    method ReadUntil(p: array<Byte>, q: Byte) returns (n: nat, e: Option<Error>)
      requires Valid() && p != b
      modifies this, b, u, p
      ensures Valid() && n <= p.Length && p[n..] == old(p[..])[n..]
      ensures e.None? ==> n > 0 && p[n - 1] == q && q !in p[..n - 1] && old(Pending()) == Bytes(p[..n]) + Pending()
      ensures e.Some? ==> q !in p[..n]
      ensures e.Some? ==>
        || old(Pending()) == Bytes(p[..n]) + Then(e, Pending())
        || (e == Some(DelimNotFound) && n == p.Length && old(Pending()) == Bytes(p[..n]) + Pending())
    {
      ghost var (items, orig) := (Pending(), p[..]);
      n := 0;
      while true
        invariant Valid() && n <= p.Length && p[n..] == orig[n..] && q !in p[..n]
        invariant items == Bytes(p[..n]) + Pending()
        decreases p.Length - n
      {
        e := Await();
        if e.Some? {
          return;
        }
        var m, found := ReadPiece(p, n, q, items, orig);
        n := m;
        if found {
          return;
        }
        if n >= p.Length {
          return n, Some(DelimNotFound);
        }
      }
    }

    // One turn of the loop of ReadUntil. items is the stream and orig the array before it.
    method ReadPiece(p: array<Byte>, n: nat, q: Byte, ghost items: seq<Item>, ghost orig: seq<Byte>)
      returns (m: nat, found: bool)
      requires Valid() && p != b && r < w
      requires n <= p.Length == |orig| && p[n..] == orig[n..] && q !in p[..n] && items == Bytes(p[..n]) + Pending()
      modifies this`r, p
      ensures Valid() && n <= m <= p.Length && p[m..] == orig[m..] && items == Bytes(p[..m]) + Pending()
      ensures found ==> m > n && p[m - 1] == q && q !in p[..m - 1]
      ensures !found ==> q !in p[..m] && (n < p.Length ==> n < m)
    {
      ghost var (before, rest) := (p[..n], Pending());
      var piece;
      piece, found := Scan(p.Length - n, q);
      AppendTo(p, n, piece, orig);
      m := n + |piece|;
      BytesMove(items, before, rest, piece, Pending());
      if found {
        assert p[..m - 1] == before + piece[..|piece| - 1];
        assert p[m - 1] == p[..m][m - 1];
      }
    }

    // The buffered bytes up to and including the first q, or as many as there is room for.
    method Scan(room: nat, q: Byte) returns (piece: seq<Byte>, found: bool)
      requires Valid() && r < w
      modifies this`r
      ensures Valid() && |piece| <= room && old(Pending()) == Bytes(piece) + Pending()
      ensures found ==> piece != [] && piece[|piece| - 1] == q && q !in piece[..|piece| - 1]
      ensures !found ==> q !in piece && (room > 0 ==> piece != [])
    {
      var x := Min(w - r, room);
      var i := IndexByte(r, r + x, q);
      found := i < r + x;
      piece := Take(if found then i + 1 - r else x);
    }

    // The index of the first q in b[lo..hi], or hi.
    method IndexByte(lo: nat, hi: nat, q: Byte) returns (i: nat)
      requires lo <= hi <= b.Length
      ensures lo <= i <= hi && q !in b[lo..i] && (i < hi ==> b[i] == q)
    {
      i := lo;
      while i < hi && b[i] != q
        invariant lo <= i <= hi && q !in b[lo..i]
      {
        i := i + 1;
      }
    }

    // Fails only when there is no room in front of buffered bytes.
    method UnreadByte(c: Byte) returns (ok: bool)
      requires Valid()
      modifies this`r, this`w, b
      ensures Valid() && ok == (old(r) != 0 || old(w) == 0)
      ensures Pending() == if ok then [Item.Byte(c)] + old(Pending()) else old(Pending())
    {
      ghost var before := Buffered();
      if r != 0 {
        r := r - 1;
        b[r] := c;
      } else if w == 0 {
        w := 1;
        b[0] := c;
      } else {
        return false;
      }
      assert Buffered() == [c] + before;
      BytesFront(c, before, Behind());
      return true;
    }

    method Capacity() returns (n: nat)
      requires Valid()
      modifies this`r, this`w
      ensures Valid() && Pending() == old(Pending()) && n == b.Length - w
      ensures old(r) < old(w) ==> r == old(r) && w == old(w)
      ensures old(r) == old(w) ==> n == b.Length
    {
      assert r == w ==> b[r..w] == [];
      if r == w {
        r, w := 0, 0;
      }
      assert Buffered() == old(Buffered());
      return b.Length - w;
    }

    method CompactBuffer()
      requires Valid()
      modifies this`r, this`w, b
      ensures Valid() && r == 0 && Buffered() == old(Buffered()) && Pending() == old(Pending())
    {
      ghost var before := Buffered();
      if r != 0 {
        forall i | 0 <= i < w - r {
          b[i] := b[r + i];
        }
        w := w - r;
        r := 0;
      }
      assert Buffered() == before;
    }

    // One turn of the loops that fill the buffer.
    method FillMore() returns (x: nat)
      requires Valid() && w < b.Length && err.None?
      modifies this, b, u
      ensures Valid() && r == old(r) && w == old(w) + x && Pending() == old(Pending())
      ensures old(Buffered()) <= Buffered()
      ensures FillsLeft() < old(FillsLeft())
    {
      ghost var before := Buffered();
      x := FillOnce();
      assert Buffered() == before + b[old(w)..w] by {
        assert b[..old(w)][r..] == before;
      }
      BytesMove(Bytes(before) + old(u.Rest()), before, old(u.Rest()), b[old(w)..w], Behind());
    }

    // Puts an empty window at the start of the buffer.
    method Rewind()
      requires Valid()
      modifies this`r, this`w
      ensures Valid() && Buffered() == old(Buffered()) && Pending() == old(Pending())
      ensures w <= old(w) && (r == w ==> w == 0)
    {
      if r == w {
        r, w := 0, 0;
      }
      assert Buffered() == old(Buffered());
    }

    // Adds at least `want` bytes, as long as there is room, or reports why not.
    method FillBufferAtleast(want: int) returns (n: nat, e: Option<Error>)
      requires Valid()
      modifies this, b, u
      ensures Valid() && old(Buffered()) <= Buffered() && |Buffered()| == |old(Buffered())| + n
      ensures e.None? ==> Pending() == old(Pending()) && (n >= want || w == b.Length)
      ensures e.None? && want > 0 && old(w) < b.Length ==> n > 0
      ensures e.Some? ==> n < want && err.None? && old(Pending()) == Bytes(Buffered()) + Then(e, Behind())
    {
      Rewind();
      n, e := 0, None;
      while w < b.Length && n < want
        invariant n == 0 ==> w <= old(w)
        invariant Valid() && old(Buffered()) <= Buffered() && |Buffered()| == |old(Buffered())| + n
        invariant Pending() == old(Pending())
        decreases FillsLeft()
      {
        if err.Some? {
          e := ReadErr();
          return;
        }
        var x := FillMore();
        n := n + x;
      }
    }

    // Adds bytes until `want` are there, or the buffer is full when no amount is given. An
    // error stays queued if something was added before it.
    method FillBufferUpto(want: int) returns (n: nat, e: Option<Error>)
      requires Valid()
      modifies this, b, u
      ensures Valid() && old(Buffered()) <= Buffered() && |Buffered()| == |old(Buffered())| + n
      ensures e.None? ==> Pending() == old(Pending()) && (w == b.Length || err.Some? || |Buffered()| >= want > 0)
      ensures e.Some? ==> n == 0 && want > 0 && err.None? && old(Pending()) == Bytes(Buffered()) + Then(e, Behind())
    {
      Rewind();
      n, e := 0, None;
      while w < b.Length && (want <= 0 || w - r < want)
        invariant Valid() && old(Buffered()) <= Buffered() && |Buffered()| == |old(Buffered())| + n
        invariant Pending() == old(Pending())
        decreases FillsLeft()
      {
        if err.Some? {
          if n > 0 || want <= 0 {
            break;
          }
          e := ReadErr();
          return;
        }
        var x := FillMore();
        n := n + x;
      }
    }

    // Skips n bytes, or with a negative n everything before the next error.
    method Discard(n: int) returns (s: nat, e: Option<Error>)
      requires Valid()
      modifies this, b, u
      ensures Valid()
      ensures e.None? ==> s == n && s <= |old(Pending())|
      ensures e.None? ==> old(Pending()) == Bytes(Delivered(old(Pending())[..s])) + Pending()
      ensures e.Some? ==> s == |Delivered(old(Pending()))| && (n >= 0 ==> s < n)
      ensures e.Some? ==> old(Pending()) == Bytes(Delivered(old(Pending()))) + Then(e, Pending())
    {
      ghost var (items, skipped) := (Pending(), []);
      var left := n;
      s := 0;
      while true
        invariant Valid() && s == |skipped| && items == Bytes(skipped) + Pending()
        invariant if n >= 0 then left == n - s && left >= 0 else left == n
        decreases FillsLeft()
      {
        ghost var rest := Pending();
        if left >= 0 && w - r >= left {
          var p := Take(left);
          BytesMove(items, skipped, rest, p, Pending());
          skipped := skipped + p;
          DeliveredBytes(skipped, Pending());
          return s + left, None;
        }
        if left > 0 {
          left := left - (w - r);
        }
        s := s + (w - r);
        ghost var p := Buffered();
        Drop();
        BytesMove(items, skipped, rest, p, Pending());
        skipped := skipped + p;
        if err.Some? {
          e := ReadErr();
          DeliveredError(items, skipped, e, Pending());
          return;
        }
        Refill();
      }
    }

    // All cached data is lost.
    method Drop()
      requires Valid()
      modifies this`r, this`w
      ensures Valid() && Pending() == old(Behind()) && r == w == 0
      ensures old(Pending()) == Bytes(old(Buffered())) + Pending()
    {
      r, w := 0, 0;
      assert Bytes(Buffered()) == [];
    }
  }
}
