// Writing headers, folded where they were folded when they were read.
module HeaderWriter {
  import opened Common
  import opened Multipart
  import opened Headers

  const MAX_HEADER_LEN := 1000

  function Sum(s: seq<nat>): nat {
    if s == [] then 0 else s[0] + Sum(s[1..])
  }

  // v in lines, of the given lengths and the rest.
  function Folded(v: seq<Byte>, s: seq<nat>): seq<Byte>
    requires Sum(s) <= |v|
  {
    if s == [] then v + [LF] else v[..s[0]] + [LF] + Folded(v[s[0]..], s[1..])
  }

  function HeaderText(h: seq<Byte>, v: seq<Byte>, s: seq<nat>): seq<Byte>
    requires Sum(s) <= |v|
  {
    h + [COLON, SPACE] + Folded(v, s)
  }

  type Foldable = h: Header | Sum(h.splits) <= |h.value|
    witness Header([], [], [], [])

  function ListText(hs: seq<Foldable>): seq<Byte> {
    if hs == [] then [] else HeaderText(NameOf(hs[0].key, hs[0].orig), hs[0].value, hs[0].splits) + ListText(hs[1..])
  }

  // None of the lines behind the first one is too long, up to the n-th.
  predicate FoldsShort(s: seq<nat>, n: nat)
    requires n <= |s|
  {
    forall i :: 0 < i < n ==> s[i] + 2 <= MAX_HEADER_LEN
  }

  // No line is too long, counting the newline as two bytes.
  predicate Short(h: seq<Byte>, v: seq<Byte>, s: seq<nat>)
    requires Sum(s) <= |v|
  {
    if s == [] then |h| + 2 + |v| + 2 <= MAX_HEADER_LEN
    else
      && |h| + 2 + s[0] + 2 <= MAX_HEADER_LEN
      && FoldsShort(s, |s|)
      && |v| - Sum(s) + 2 <= MAX_HEADER_LEN
  }

  // One line less to write.
  lemma FoldedStep(v: seq<Byte>, s: seq<nat>, l: nat, i: nat, out: seq<Byte>, text: seq<Byte>)
    requires i < |s| && l + Sum(s[i..]) <= |v| && out + Folded(v[l..], s[i..]) == text
    ensures Sum(s[i..]) == s[i] + Sum(s[i + 1..])
    ensures out + (v[l..l + s[i]] + [LF]) + Folded(v[l + s[i]..], s[i + 1..]) == text
  {
    assert s[i..][1..] == s[i + 1..];
    assert v[l..][s[i]..] == v[l + s[i]..];
    assert v[l..][..s[i]] == v[l..l + s[i]];
    var rest := Folded(v[l + s[i]..], s[i + 1..]);
    assert out + (v[l..l + s[i]] + [LF]) + rest == out + (v[l..l + s[i]] + [LF] + rest);
  }

  lemma StillPrefix(out: seq<Byte>, rest: seq<Byte>, text: seq<Byte>)
    requires out + rest == text
    ensures out <= text
  {
  }

  // The output below never fails.
  class HeaderWriter {
    var out: seq<Byte>

    constructor ()
      ensures out == []
    {
      out := [];
    }

    method Write(b: seq<Byte>)
      modifies this
      ensures out == old(out) + b
    {
      out := out + b;
    }

    // The lines of a folded header behind the first one, which ends at offset l0.
    method WriteFolds(v: seq<Byte>, s: seq<nat>, l0: nat, force: bool, ghost text: seq<Byte>) returns (ok: bool)
      requires s != [] && l0 + Sum(s[1..]) <= |v| && out + Folded(v[l0..], s[1..]) == text
      modifies this
      ensures old(out) <= out <= text && (ok ==> out == text)
      ensures ok == (force || (FoldsShort(s, |s|) && |v| - l0 - Sum(s[1..]) + 2 <= MAX_HEADER_LEN))
    {
      var (l, i) := (l0, 1);
      while i < |s|
        invariant 1 <= i <= |s| && l0 <= l && l + Sum(s[i..]) == l0 + Sum(s[1..])
        invariant out + Folded(v[l..], s[i..]) == text && old(out) <= out
        invariant force || FoldsShort(s, i)
      {
        var x := s[i];
        if !force && x + 2 > MAX_HEADER_LEN {
          StillPrefix(out, Folded(v[l..], s[i..]), text);
          return false;
        }
        FoldedStep(v, s, l, i, out, text);
        Write(v[l..l + x] + [LF]);
        l, i := l + x, i + 1;
      }
      if !force && |v| - l + 2 > MAX_HEADER_LEN {
        StillPrefix(out, Folded(v[l..], s[i..]), text);
        return false;
      }
      assert s[i..] == [];
      Write(v[l..] + [LF]);
      return true;
    }

    // Without force a line that is too long is not written, and none behind it.
    method WriteHeaderLine(h: seq<Byte>, v: seq<Byte>, s: seq<nat>, force: bool) returns (ok: bool)
      requires Sum(s) <= |v|
      modifies this
      ensures ok == (force || Short(h, v, s))
      ensures ok ==> out == old(out) + HeaderText(h, v, s)
      ensures old(out) <= out <= old(out) + HeaderText(h, v, s)
    {
      ghost var text := out + HeaderText(h, v, s);
      if s != [] {
        var l := s[0];
        if !force && |h| + 2 + l + 2 > MAX_HEADER_LEN {
          return false;
        }
        ghost var rest := Folded(v[l..], s[1..]);
        assert text == out + (h + [COLON, SPACE] + v[..l] + [LF]) + rest;
        Write(h + [COLON, SPACE] + v[..l] + [LF]);
        ok := WriteFolds(v, s, l, force, text);
        return;
      }
      if !force && |h| + 2 + |v| + 2 > MAX_HEADER_LEN {
        return false;
      }
      assert text == out + (h + [COLON, SPACE] + v + [LF]);
      Write(h + [COLON, SPACE] + v + [LF]);
      return true;
    }

    // Every header under its original name, if that is not told by its key.
    method WriteHeaderList(hs: seq<Foldable>, force: bool) returns (ok: bool)
      modifies this
      ensures force ==> ok
      ensures ok ==> out == old(out) + ListText(hs)
    {
      var i := 0;
      while i < |hs|
        invariant 0 <= i <= |hs| && out + ListText(hs[i..]) == old(out) + ListText(hs)
      {
        var h := hs[i];
        ghost var (before, rest) := (out, ListText(hs[i + 1..]));
        assert hs[i..][1..] == hs[i + 1..];
        ok := WriteHeaderLine(NameOf(h.key, h.orig), h.value, h.splits, force);
        if !ok {
          return;
        }
        assert before + (HeaderText(NameOf(h.key, h.orig), h.value, h.splits) + rest) == out + rest;
        i := i + 1;
      }
      return true;
    }
  }
}
