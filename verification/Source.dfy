// Readers that answer from a script, so that a proof can range over every way of cutting
// a stream into pieces.
module Source {
  import opened Common

  // One answer of a reader: some bytes, and possibly an error with them.
  datatype Chunk = Chunk(data: seq<Byte>, err: Option<Error>)

  // What a script delivers, one item at a time. After its last item comes EOF for ever.
  datatype Item = Byte(b: Byte) | Fail(e: Error)

  function Bytes(s: seq<Byte>): (items: seq<Item>) {
    seq(|s|, i requires 0 <= i < |s| => Byte(s[i]))
  }

  // An error, if there is one, and then the rest. An EOF at the very end adds nothing to
  // the ones that follow anyway.
  function Then(err: Option<Error>, rest: seq<Item>): seq<Item> {
    if err.None? || (err == Some(EOF) && rest == []) then rest else [Fail(err.value)] + rest
  }

  function Items(script: seq<Chunk>): seq<Item> {
    if script == [] then [] else Bytes(script[0].data) + Then(script[0].err, Items(script[1..]))
  }

  class Source {
    var script: seq<Chunk>

    constructor (script: seq<Chunk>)
      ensures this.script == script
    {
      this.script := script;
    }

    function Rest(): seq<Item>
      reads this
    {
      Items(script)
    }

    // Read into a buffer of the given size.
    method Read(size: nat) returns (data: seq<Byte>, err: Option<Error>)
      modifies this
      ensures |data| <= size && old(Rest()) == Bytes(data) + Then(err, Rest())
      ensures size > 0 && err.None? ==> Work(script) < Work(old(script))
    {
      if script == [] {
        return [], Some(EOF);
      }
      var c := script[0];
      if |c.data| > size {
        data, err := c.data[..size], None;
        TakePart(script, size);
        script := [c.(data := c.data[size..])] + script[1..];
      } else {
        data, err := c.data, c.err;
        script := script[1..];
      }
    }
  }

  // Every read with room for a byte and without an error makes this smaller.
  function Work(script: seq<Chunk>): nat {
    if script == [] then 0 else 1 + |script[0].data| + Work(script[1..])
  }

  lemma BytesAppend(a: seq<Byte>, b: seq<Byte>)
    ensures Bytes(a + b) == Bytes(a) + Bytes(b)
  {
  }

  lemma TakePart(script: seq<Chunk>, k: nat)
    requires script != [] && k <= |script[0].data|
    ensures var c := script[0]; var rest := [c.(data := c.data[k..])] + script[1..];
      Items(script) == Bytes(c.data[..k]) + Items(rest) && Work(rest) == Work(script) - k
  {
    var c := script[0];
    var rest := [c.(data := c.data[k..])] + script[1..];
    var (a, b, tail) := (c.data[..k], c.data[k..], Then(c.err, Items(script[1..])));
    assert rest[1..] == script[1..];
    BytesAppend(a, b);
    assert c.data == a + b;
    assert Bytes(a) + Bytes(b) + tail == Bytes(a) + (Bytes(b) + tail);
  }

  // ------------------------------------------------- up to the first error

  function Delivered(items: seq<Item>): (s: seq<Byte>) {
    if items == [] || items[0].Fail? then [] else [items[0].b] + Delivered(items[1..])
  }

  function Ending(items: seq<Item>): Error {
    if items == [] then EOF else if items[0].Fail? then items[0].e else Ending(items[1..])
  }

  lemma {:induction false} DeliveredSplit(s: seq<Byte>, rest: seq<Item>)
    ensures Delivered(Bytes(s) + rest) == s + Delivered(rest) && Ending(Bytes(s) + rest) == Ending(rest)
  {
    if s == [] {
      assert Bytes(s) + rest == rest;
    } else {
      DeliveredSplit(s[1..], rest);
      assert (Bytes(s) + rest)[1..] == Bytes(s[1..]) + rest;
    }
  }
}
