// Writing a multipart body, and reading back what was written.
module MultiWriter {
  import opened Common
  import opened Source
  import opened BufReader
  import opened Multipart
  import opened MultiLines
  import opened MultiReader

  // Behind a dash-boundary: the parts that are still to come, and the closing mark.
  function Remaining(dash: Dash, parts: seq<seq<Byte>>, post: seq<Byte>): seq<Byte> {
    if parts == [] then [HYPHEN, HYPHEN, LF] + post
    else [LF] + parts[0] + [LF] + dash + Remaining(dash, parts[1..], post)
  }

  // A preamble ends with a newline of its own.
  function Lead(pre: seq<Byte>): seq<Byte> {
    if pre == [] then [] else pre + [LF]
  }

  function Framed(dash: Dash, pre: seq<Byte>, parts: seq<seq<Byte>>, post: seq<Byte>): seq<Byte> {
    Lead(pre) + dash + Remaining(dash, parts, post)
  }

  // What has been written when the given parts have been started, and their text written.
  function Written(dash: Dash, pre: seq<Byte>, parts: seq<seq<Byte>>): seq<Byte> {
    if parts == [] then pre
    else
      var n := |parts| - 1;
      (if n == 0 then Lead(pre) else Written(dash, pre, parts[..n]) + [LF]) + dash + [LF] + parts[n]
  }

  // Whatever else is written, the whole is framed.
  lemma {:induction false} WrittenFramed(dash: Dash, pre: seq<Byte>, parts: seq<seq<Byte>>, more: seq<seq<Byte>>, post: seq<Byte>)
    ensures (if parts == [] then Lead(pre) else Written(dash, pre, parts) + [LF]) + dash + Remaining(dash, more, post)
      == Framed(dash, pre, parts + more, post)
    decreases |parts|
  {
    if parts == [] {
      assert parts + more == more;
    } else {
      var n := |parts| - 1;
      var (q, x) := (parts[..n], parts[n]);
      assert parts + more == q + ([x] + more);
      assert ([x] + more)[1..] == more;
      WrittenFramed(dash, pre, q, [x] + more, post);
      var front := if n == 0 then Lead(pre) else Written(dash, pre, q) + [LF];
      assert (front + dash + [LF] + x) + [LF] + dash + Remaining(dash, more, post)
          == front + dash + ([LF] + x + [LF] + dash + Remaining(dash, more, post));
    }
  }

  // The writer below never fails.
  class PartWriter {
    const dash: Dash
    ghost const pre: seq<Byte>
    var out: seq<Byte>
    var s: bool
    ghost var parts: seq<seq<Byte>>

    ghost predicate Valid()
      reads this
    {
      out == Written(dash, pre, parts) && s == (pre != [] || parts != [])
    }

    constructor (dash: Dash, pre: seq<Byte>)
      ensures Valid() && this.dash == dash && this.pre == pre && parts == []
    {
      this.dash, this.pre, out, parts := dash, pre, pre, [];
      s := pre != [];
    }

    // The boundary, the part's header, and the line that ends it.
    method StartNextPart(header: seq<Byte>)
      requires Valid()
      modifies this
      ensures Valid() && parts == old(parts) + [header + [LF]]
    {
      if s {
        out := out + [LF];
      }
      s := true;
      assert out + dash + [LF] + (header + [LF]) == out + dash + [LF] + header + [LF];
      parts := parts + [header + [LF]];
      assert parts[..|parts| - 1] == old(parts);
      out := out + dash + [LF] + header + [LF];
    }

    // Text of the part that was started last.
    method Write(text: seq<Byte>)
      requires Valid() && parts != []
      modifies this
      ensures Valid() && |parts| == |old(parts)|
      ensures parts == old(parts)[|parts| - 1 := old(parts)[|parts| - 1] + text]
    {
      ghost var (n, last) := (|parts| - 1, parts[|parts| - 1]);
      ghost var front := (if n == 0 then Lead(pre) else Written(dash, pre, parts[..n]) + [LF]) + dash + [LF];
      out := out + text;
      parts := parts[n := last + text];
      assert parts[..n] == old(parts)[..n];
      assert (front + last) + text == front + (last + text);
    }

    method FinishParts(post: seq<Byte>)
      requires Valid()
      modifies this
      ensures out == Framed(dash, pre, parts, if post == [] then [] else post + [LF])
    {
      ghost var (written, rest) := (out, if post == [] then [] else post + [LF]);
      if s {
        out := out + [LF];
      }
      s := true;
      WrittenFramed(dash, pre, parts, [], rest);
      assert parts + [] == parts;
      ghost var front := out;
      out := out + dash + [HYPHEN, HYPHEN] + [LF];
      if post != [] {
        out := out + post + [LF];
      }
      assert out == front + dash + ([HYPHEN, HYPHEN, LF] + rest);
    }
  }
}
