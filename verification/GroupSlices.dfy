// Asking a server for the articles of a group that are new, one slice of numbers at a time.
module GroupSlices {
  import opened Common
  import opened Puller
  import opened PullerList

  const SMALL_SLICE: nat := 800
  const LARGE_SLICE: nat := 2048
  const MAX_LIST: nat := 2048

  // A request for the numbers from lo to hi, or with a negative hi for all from lo on.
  datatype Range = Range(lo: int, hi: int)

  // What a slice comes to. The server has nothing; or it lists articles, and working off
  // the list goes in some way or other; or an error comes first.
  datatype Answer = Nothing | Lists(lines: seq<Todo>, schedule: Schedule) | Breaks(fatal: bool)

  // Lines that were not asked for are skipped.
  predicate Asked(r: Range, id: Id) {
    && id != 0 && id >= r.lo
    && (r.hi >= 0 ==> id <= r.hi)
    && (r.hi < 0 ==> id < r.lo + MAX_LIST)
  }

  // The list that is kept: the lines asked for, up to its limit.
  function Kept(r: Range, lines: seq<Todo>, room: nat): (list: seq<Todo>)
    ensures |list| <= room && forall x <- list :: Asked(r, x.id)
  {
    if lines == [] || room == 0 then []
    else if Asked(r, lines[0].id) then [lines[0]] + Kept(r, lines[1..], room - 1)
    else Kept(r, lines[1..], room)
  }

  // All the lines asked for, in their order.
  function OnlyAsked(r: Range, lines: seq<Todo>): seq<Todo> {
    if lines == [] then []
    else
      var n := |lines| - 1;
      OnlyAsked(r, lines[..n]) + if Asked(r, lines[n].id) then [lines[n]] else []
  }

  lemma {:induction false} OnlyAskedFirst(r: Range, x: Todo, lines: seq<Todo>)
    ensures OnlyAsked(r, [x] + lines) == (if Asked(r, x.id) then [x] else []) + OnlyAsked(r, lines)
    decreases |lines|
  {
    var (n, all) := (|lines|, [x] + lines);
    assert all[..n] == if lines == [] then [] else [x] + lines[..n - 1];
    if lines != [] {
      OnlyAskedFirst(r, x, lines[..n - 1]);
    }
  }

  // The list is full or has all of them.
  lemma {:induction false} KeptWhole(r: Range, lines: seq<Todo>, room: nat)
    ensures var all := OnlyAsked(r, lines); Kept(r, lines, room) == all[..Min(room, |all|)]
    decreases |lines|
  {
    if lines != [] && room > 0 {
      assert lines == [lines[0]] + lines[1..];
      OnlyAskedFirst(r, lines[0], lines[1..]);
      KeptWhole(r, lines[1..], if Asked(r, lines[0].id) then room - 1 else room);
    }
  }

  ghost predicate NoneTwice(lines: seq<Todo>) {
    forall i, j | 0 <= i < j < |lines| :: lines[i].id != lines[j].id
  }

  function Numbers(lo: int, n: nat): (s: set<int>)
    ensures |s| == n && forall x :: x in s <==> lo <= x < lo + n
  {
    if n == 0 then {} else Numbers(lo, n - 1) + {lo + n - 1}
  }

  ghost function Ids(lines: seq<Todo>): set<int> {
    set i: nat | i < |lines| :: lines[i].id as int
  }

  lemma {:induction false} AskedOnce(r: Range, lines: seq<Todo>)
    requires NoneTwice(lines)
    ensures var all := OnlyAsked(r, lines); |Ids(all)| == |all| && Ids(all) <= Ids(lines)
    ensures forall id <- Ids(OnlyAsked(r, lines)) :: 0 <= id < 2 * W63 && Asked(r, id)
    decreases |lines|
  {
    if lines != [] {
      var n := |lines| - 1;
      var (front, x) := (lines[..n], lines[n]);
      AskedOnce(r, front);
      var all := OnlyAsked(r, front);
      assert x.id !in Ids(front);
      assert Ids(all + [x]) == Ids(all) + {x.id as int} by {
        assert (all + [x])[|all|] == x && forall i: nat | i < |all| :: (all + [x])[i] == all[i];
      }
      assert Ids(front) <= Ids(lines) by {
        assert forall i: nat | i < n :: front[i] == lines[i];
      }
      assert all + [] == all;
    }
  }

  // A listing that names no number twice is kept whole: there is room for all that a range
  // asks for.
  lemma RoomForAll(r: Range, lines: seq<Todo>)
    requires NoneTwice(lines) && r.hi < r.lo + MAX_LIST
    ensures Kept(r, lines, MAX_LIST) == OnlyAsked(r, lines)
  {
    var all := OnlyAsked(r, lines);
    AskedOnce(r, lines);
    assert Ids(all) <= Numbers(r.lo, MAX_LIST);
    Fewer(Ids(all), Numbers(r.lo, MAX_LIST));
    KeptWhole(r, lines, MAX_LIST);
  }

  lemma Fewer(a: set<int>, b: set<int>)
    requires a <= b
    ensures |a| <= |b|
  {
    assert b == a + (b - a);
  }

  // A group's record of the last number taken in, with every update it has had.
  class GroupRecord {
    var updates: seq<int>

    constructor ()
      ensures updates == []
    {
      updates := [];
    }

    method UpdateGroupID(id: int)
      modifies this
      ensures updates == old(updates) + [id]
    {
      updates := updates + [id];
    }
  }

  // The list is worked off by the two goroutines, in the order the schedule puts their steps.
  method WorkOff(list: seq<Todo>, schedule: Schedule) returns (s: State)
    ensures Reachable(list, s) && s.main.Returned? && (!s.verdict.failed ==> DealtWith(list, s))
  {
    var run := schedule(list);
    s := Start(list);
    var i := 0;
    ghost var end := RunEnd(list, run);
    assert run[0..] == run;
    while i < |run|
      invariant i <= |run| && After(s, run[i..]) == Some(end)
    {
      RunGoesOn(s, run, i, end);
      s := Next(s, run[i]);
      i := i + 1;
    }
    assert run[|run|..] == [];
    if !s.verdict.failed {
      AllDealtWith(list, s);
    }
  }

  ghost function RunEnd(list: seq<Todo>, run: seq<Event>): (end: State)
    requires Finishes(list, run)
    ensures After(Start(list), run) == Some(end) && Reachable(list, end) && end.main.Returned?
  {
    After(Start(list), run).value
  }

  lemma RunGoesOn(s: State, run: seq<Event>, i: nat, end: State)
    requires i < |run| && After(s, run[i..]) == Some(end)
    ensures Enabled(s, run[i]) && After(Next(s, run[i]), run[i + 1..]) == Some(end)
  {
    StepAt(s, run, i);
  }

  // What was reached is recorded even if an error ends it.
  method ProcessList(db: GroupRecord, list: seq<Todo>, maxid: int, schedule: Schedule)
    returns (newMaxid: int, failed: bool, fatal: bool, ghost end: State)
    modifies db
    ensures Reachable(list, end) && end.main.Returned? && newMaxid == end.newMaxid
    ensures failed == end.verdict.failed && fatal == end.verdict.fatal
    ensures db.updates == old(db.updates) + if newMaxid >= 0 && newMaxid > maxid then [newMaxid] else []
  {
    var s := WorkOff(list, schedule);
    newMaxid, failed, fatal, end := s.newMaxid, s.verdict.failed, s.verdict.fatal, s;
    if newMaxid >= 0 && newMaxid > maxid {
      db.UpdateGroupID(newMaxid);
    }
  }

  // What the call that works off this list comes to.
  ghost predicate WorkedOff(list: seq<Todo>, newMaxid: int, ok: bool, fatal: bool) {
    exists end: State :: Reachable(list, end) && end.main.Returned?
      && newMaxid == end.newMaxid && ok == !end.verdict.failed && fatal == end.verdict.fatal
  }

  lemma MaxidInRange(r: Range, lines: seq<Todo>, end: State)
    requires 0 < r.lo < W63 && r.hi < W63 && Reachable(Kept(r, lines, MAX_LIST), end)
    ensures end.newMaxid == -1 || r.lo <= end.newMaxid
    ensures r.hi >= 0 ==> end.newMaxid <= r.hi
  {
    var list := Kept(r, lines, MAX_LIST);
    MaxidFromList(list, end);
    if end.newMaxid != -1 {
      var i: nat :| i < |list| && Signed(list[i].id) == end.newMaxid;
      assert Asked(r, list[i].id);
    }
  }

  method EatGroupSlice(db: GroupRecord, r: Range, maxid: int, answer: Answer)
    returns (newMaxid: int, ok: bool, fatal: bool)
    requires 0 < r.lo < W63 && r.hi < W63 && (r.hi >= 0 ==> r.lo <= r.hi)
    modifies db
    ensures answer.Nothing? ==> ok && !fatal
    ensures answer.Breaks? ==> !ok && fatal == answer.fatal
    ensures answer.Lists? ==> WorkedOff(Kept(r, answer.lines, MAX_LIST), newMaxid, ok, fatal)
    ensures fatal ==> !ok
    ensures newMaxid == -1 || newMaxid == 0 || r.lo <= newMaxid
    ensures r.hi >= 0 ==> newMaxid <= r.hi
    ensures db.updates == old(db.updates) || (db.updates == old(db.updates) + [newMaxid] && newMaxid >= r.lo && newMaxid > maxid)
    ensures answer.Lists? && newMaxid >= 0 && newMaxid > maxid ==> db.updates == old(db.updates) + [newMaxid]
  {
    if !answer.Lists? {
      return 0, answer.Nothing?, answer.Breaks? && answer.fatal;
    }
    var list := Kept(r, answer.lines, MAX_LIST);
    var failed;
    ghost var end;
    newMaxid, failed, fatal, end := ProcessList(db, list, maxid, answer.schedule);
    ok := !failed;
    WorkerErrorIsFatal(list, end);
    MaxidInRange(r, answer.lines, end);
  }

  ghost predicate Increasing(s: seq<int>, from: int) {
    && (forall i :: 0 <= i < |s| ==> s[i] > from)
    && (forall i, j :: 0 <= i < j < |s| ==> s[i] < s[j])
  }

  lemma IncreasingAppend(s: seq<int>, from: int, x: int)
    requires Increasing(s, from) && x > from && forall y <- s :: y < x
    ensures Increasing(s + [x], from)
  {
    assert forall i :: 0 <= i < |s| ==> s[i] in s;
  }

  // Consecutive ranges that take up everything from lo to before next.
  ghost predicate Tiles(asked: seq<Range>, lo: int, next: int) {
    if asked == [] then lo == next
    else asked[0].lo == lo && lo <= asked[0].hi && Tiles(asked[1..], asked[0].hi + 1, next)
  }

  lemma {:induction false} TilesAppend(asked: seq<Range>, lo: int, r: Range)
    requires Tiles(asked, lo, r.lo) && r.lo <= r.hi
    ensures Tiles(asked + [r], lo, r.hi + 1)
  {
    if asked == [] {
      assert [r][1..] == [];
    } else {
      assert (asked + [r])[1..] == asked[1..] + [r];
      TilesAppend(asked[1..], asked[0].hi + 1, r);
    }
  }

  // Every number up to the last range is in exactly one range.
  lemma {:induction false} TilesCover(asked: seq<Range>, lo: int, next: int, n: int)
    requires Tiles(asked, lo, next) && lo <= n < next
    ensures exists i :: 0 <= i < |asked| && asked[i].lo <= n <= asked[i].hi
    ensures forall i, j :: 0 <= i < j < |asked| ==> asked[i].hi < asked[j].lo
  {
    TilesApart(asked, lo, next);
    if n <= asked[0].hi {
    } else {
      TilesCover(asked[1..], asked[0].hi + 1, next, n);
      var i :| 0 <= i < |asked[1..]| && asked[1..][i].lo <= n <= asked[1..][i].hi;
      assert asked[i + 1] == asked[1..][i];
    }
  }

  lemma {:induction false} TilesApart(asked: seq<Range>, lo: int, next: int)
    requires Tiles(asked, lo, next)
    ensures forall i :: 0 <= i < |asked| ==> lo <= asked[i].lo <= asked[i].hi < next
    ensures forall i, j :: 0 <= i < j < |asked| ==> asked[i].hi < asked[j].lo
    ensures lo <= next
  {
    if asked != [] {
      TilesApart(asked[1..], asked[0].hi + 1, next);
      assert forall i :: 0 < i < |asked| ==> asked[i] == asked[1..][i - 1];
    }
  }

  // So every number is asked for in one slice and in no other.
  lemma TilesAsk(asked: seq<Range>, lo: int, next: int, id: Id)
    requires Tiles(asked, lo, next) && 0 < lo <= id < next
    ensures exists i :: 0 <= i < |asked| && Asked(asked[i], id)
    ensures forall i, j :: 0 <= i < |asked| && 0 <= j < |asked| && Asked(asked[i], id) && Asked(asked[j], id) ==> i == j
  {
    TilesApart(asked, lo, next);
    TilesCover(asked, lo, next, id);
    var i :| 0 <= i < |asked| && asked[i].lo <= id <= asked[i].hi;
    assert Asked(asked[i], id);
  }

  // The end of the slice that starts at lo, or -1 if it is the last one.
  function SliceEnd(lo: int, newId: int, size: nat): int {
    if newId > lo + size - 1 then lo + size - 1 else -1
  }

  // Asks for everything after oldId up to newId, and in the last request for whatever has
  // come since. answers are the server's; after the last of them the connection breaks.
  method EatGroup(db: GroupRecord, oldId: int, newId: int, large: bool, answers: seq<Answer>)
    returns (ok: bool, fatal: bool, asked: seq<Range>)
    requires 0 <= oldId < newId < W63
    modifies db
    // closed ranges one after the other, and at the end, if all went well, an open one
    ensures asked != [] && (fatal ==> !ok)
    ensures ok ==> asked[|asked| - 1].hi < 0
    ensures var k := |asked| - 1; Tiles(asked[..k], oldId + 1, asked[k].lo) && asked[k].lo <= newId
    // every update is higher than all before it
    ensures |old(db.updates)| <= |db.updates| && db.updates[..|old(db.updates)|] == old(db.updates)
    ensures Increasing(db.updates[|old(db.updates)|..], oldId)
  {
    ghost var before := db.updates;
    ghost var news: seq<int> := [];
    var size := if large then LARGE_SLICE else SMALL_SLICE;
    var lo := oldId + 1;
    var hi := SliceEnd(lo, newId, size);
    var maxid := oldId;
    var n := 0;
    ok, fatal, asked := true, false, [];
    while true
      invariant oldId < lo <= newId && hi == SliceEnd(lo, newId, size)
      invariant Tiles(asked, oldId + 1, lo)
      invariant db.updates == before + news && Increasing(news, oldId) && forall x <- news :: x < lo
      invariant ok
      decreases newId - lo
    {
      var answer := if n < |answers| then answers[n] else Breaks(true);
      n := n + 1;
      ghost var was := asked;
      asked := asked + [Range(lo, hi)];
      assert asked[..|asked| - 1] == was;
      ghost var updates := db.updates;
      maxid, ok, fatal := EatGroupSlice(db, Range(lo, hi), maxid, answer);
      if db.updates != updates {
        IncreasingAppend(news, oldId, maxid);
        news := news + [maxid];
        assert updates + [maxid] == before + news;
      }
      assert db.updates[|before|..] == news;
      if !ok || hi < 0 {
        return;
      }
      if maxid > hi {
        // more than was asked for: this is never the case
        assert false;
        hi := maxid;
      }
      TilesAppend(was, oldId + 1, Range(lo, hi));
      lo := hi + 1;
      if lo > newId {
        break;
      }
      hi := SliceEnd(lo, newId, size);
    }
    assert false;
  }
}
