// Fetching a list of articles: the main routine sends ARTICLE requests while a worker
// reads the responses, connected by a channel of 32 pending articles and an unbuffered
// channel on which the worker says how it ended.
module Puller {
  import opened Common

  const PENDING: nat := 32
  const W63: nat := 0x8000_0000_0000_0000

  type Id = x: int | 0 <= x < 2 * W63

  // int64(id)
  function Signed(id: Id): int {
    if id < W63 then id else id - 2 * W63
  }

  datatype Todo = Todo(id: Id, msgid: string, ref: string)

  // An article that has been asked for.
  datatype Request = Request(id: Id, msgid: string, wdata: nat)

  datatype MainPc =
    | Poll | Want | Poll2 | Refs | Poll3 | Print | Enqueue(a: Request)
    | CloseList | Await
    | CloseEarly(hard: bool) | AwaitEarly(hard: bool)
    | Returned

  datatype WorkerPc = Receive | Handle(a: Request) | Report | Gone

  // How handling a response ended: the article was taken or is gone; it was not; or the
  // connection is of no more use.
  datatype Handled = Fine | Weird | Fatal

  datatype Wanted = Yes(wdata: nat) | No | Error

  // Whether the call returns an error, and a fatal one; whether a fatal error has ended the
  // worker, and whether that error was thrown away.
  datatype Verdict = Verdict(failed: bool, fatal: bool, broken: bool, dropped: bool)

  datatype State = State(
    todo: seq<Todo>, i: nat, wdata: nat, main: MainPc, worker: WorkerPc,
    queue: seq<Request>, closed: bool, finished: bool, newMaxid: int,
    // what has gone over the connection, and what was received from the worker
    sent: seq<Request>, handled: seq<Request>, responses: nat, received: nat, surprised: bool,
    // the articles that were disposed of, and what has gone wrong
    disposed: seq<Id>, verdict: Verdict)

  datatype Event =
    | Passes | Interrupted
    | Wants(r: Wanted) | ChecksRef(ok: bool) | Sends(ok: bool) | Queues
    | LoopEnds | ClosesList | Joins
    | ClosesEarly | JoinsEarly
    | Takes | Handles(h: Handled) | Ends

  predicate Polling(pc: MainPc) {
    pc.Poll? || pc.Poll2? || pc.Poll3?
  }

  // Something can be received on the channel of the worker's end.
  predicate Ready(s: State) {
    s.worker.Report? || s.finished
  }

  predicate Enabled(s: State, ev: Event) {
    match ev
    case Passes => Polling(s.main) && s.i < |s.todo| && !Ready(s)
    case Interrupted => ((Polling(s.main) && s.i < |s.todo|) || s.main.Enqueue?) && Ready(s)
    case Wants(r) => s.main.Want? && s.i < |s.todo| && (s.todo[s.i].msgid == "" ==> r.Yes?)
    case ChecksRef(ok) => s.main.Refs? && s.i < |s.todo|
    case Sends(ok) => s.main.Print? && s.i < |s.todo|
    case Queues => s.main.Enqueue? && |s.queue| < PENDING
    case LoopEnds => s.main.Poll? && s.i >= |s.todo|
    case ClosesList => s.main.CloseList?
    case Joins => s.main.Await? && Ready(s)
    case ClosesEarly => s.main.CloseEarly?
    case JoinsEarly => s.main.AwaitEarly? && Ready(s)
    case Takes => s.worker.Receive? && s.queue != []
    case Handles(h) => s.worker.Handle?
    case Ends => s.worker.Receive? && s.queue == [] && s.closed
  }

  function Max(a: int, b: int): int {
    if a > b then a else b
  }

  // Receiving on the worker's channel: an error from the worker, or that it was closed.
  function Received(s: State, failed: bool, fatal: bool, dropped: bool): State {
    s.(main := Returned, received := s.received + 1, worker := Gone, verdict := s.verdict.(failed := failed, fatal := fatal, dropped := dropped))
  }

  function AfterPass(s: State): State
    requires s.i < |s.todo|
  {
    var t := s.todo[s.i];
    match s.main
    case Poll => s.(main := Want)
    case Poll2 => s.(main := if t.ref != "" && t.ref != t.msgid then Refs else Print)
    case _ => s.(main := Print)
  }

  // The article is not wanted, or has been taken in, or is gone.
  function Disposed(s: State, id: Id): State {
    s.(newMaxid := Max(s.newMaxid, Signed(id)), disposed := s.disposed + [id])
  }

  function AfterWants(s: State, r: Wanted): State
    requires s.i < |s.todo|
  {
    match r
    case Yes(wdata) => s.(main := Poll2, wdata := wdata)
    case No => Disposed(s.(main := Poll, i := s.i + 1), s.todo[s.i].id)
    case Error => s.(main := CloseEarly(false))
  }

  function AfterSend(s: State, ok: bool): State
    requires s.i < |s.todo|
  {
    var a := Request(s.todo[s.i].id, s.todo[s.i].msgid, s.wdata);
    if ok then s.(main := Enqueue(a), sent := s.sent + [a]) else s.(main := CloseEarly(true))
  }

  // One response is read, with the whole of its body, for each article.
  function AfterHandle(s: State, r: Handled): State
    requires s.worker.Handle?
  {
    var a := s.worker.a;
    var u := s.(handled := s.handled + [a], responses := s.responses + 1);
    match r
    case Fine => Disposed(u.(worker := Receive), a.id)
    case Weird => u.(worker := Receive)
    case Fatal => u.(worker := Report, verdict := u.verdict.(broken := true))
  }

  function Next(s: State, ev: Event): State
    requires Enabled(s, ev)
  {
    match ev
    case Passes => AfterPass(s)
    case Interrupted => Received(s, true, s.worker.Report?, false).(surprised := !s.worker.Report?)
    case Wants(r) => AfterWants(s, r)
    case ChecksRef(ok) => s.(main := if ok then Poll3 else CloseEarly(false))
    case Sends(ok) => AfterSend(s, ok)
    case Queues => s.(main := Poll, i := s.i + 1, queue := s.queue + [s.main.a])
    case LoopEnds => s.(main := CloseList)
    case ClosesList => s.(main := Await, closed := true)
    case Joins => Received(s, s.worker.Report?, s.worker.Report?, false)
    case ClosesEarly => s.(main := AwaitEarly(s.main.hard), closed := true)
    case JoinsEarly => Received(s, true, s.main.hard, s.worker.Report?)
    case Takes => s.(worker := Handle(s.queue[0]), queue := s.queue[1..])
    case Handles(h) => AfterHandle(s, h)
    case Ends => s.(worker := Gone, finished := true)
  }

  function Start(todo: seq<Todo>): State {
    State(todo, 0, 0, Poll, Receive, [], false, false, -1, [], [], 0, 0, false, [], Verdict(false, false, false, false))
  }

  // -------------------------------------------------------------- invariant

  ghost function AtWorker(s: State): seq<Request> {
    if s.worker.Handle? then [s.worker.a] else []
  }

  ghost function AtMain(s: State): seq<Request> {
    if s.main.Enqueue? then [s.main.a] else []
  }

  // The highest of the numbers, or -1.
  function Highest(ids: seq<Id>): (m: int)
    ensures m >= -1
    ensures m == -1 || exists x :: x in ids && Signed(x) == m
    ensures forall x <- ids :: Signed(x) <= m
  {
    if ids == [] then -1 else Max(Highest(ids[..|ids| - 1]), Signed(ids[|ids| - 1]))
  }

  lemma HighestAppend(ids: seq<Id>, id: Id)
    ensures Highest(ids + [id]) == Max(Highest(ids), Signed(id))
  {
    assert (ids + [id])[..|ids|] == ids;
  }

  ghost predicate FromList(todo: seq<Todo>, id: Id) {
    exists i: nat :: i < |todo| && todo[i].id == id
  }

  // What a return tells. Without a fatal error, the requests without a response are those
  // that an error of the worker left in the channel, and that error was dropped.
  ghost predicate Outcome(s: State) {
    && (s.verdict.fatal ==> s.verdict.failed)
    && (s.verdict.broken ==> s.verdict.fatal || s.verdict.dropped) && (s.verdict.dropped ==> s.verdict.broken && s.verdict.failed)
    && (!s.verdict.fatal ==> s.sent == s.handled + s.queue && (s.queue != [] ==> s.verdict.dropped))
  }

  ghost predicate Inv(s: State) {
    && |s.queue| <= PENDING
    && (if s.main.Returned? then s.handled <= s.sent else s.handled + AtWorker(s) + s.queue + AtMain(s) == s.sent)
    && s.responses == |s.handled|
    && (s.closed <==> s.main.Await? || s.main.AwaitEarly? || (s.main.Returned? && s.closed))
    && (s.finished ==> s.closed && s.worker.Gone?)
    && (s.worker.Gone? ==> s.finished || s.main.Returned?)
    && (s.main.Returned? ==> s.worker.Gone?)
    && s.received == (if s.main.Returned? then 1 else 0)
    && !s.surprised
    && (s.main.Want? || s.main.Poll2? || s.main.Refs? || s.main.Poll3? || s.main.Print? ==> s.i < |s.todo|)
    && (forall a <- s.sent :: FromList(s.todo, a.id))
    && (forall id <- s.disposed :: FromList(s.todo, id))
    && s.newMaxid == Highest(s.disposed)
    && (if s.main.Returned? then Outcome(s) else !s.verdict.dropped && (s.verdict.broken <==> s.worker.Report?))
    && (s.finished ==> s.queue == [])
  }

  lemma QueuesKeeps(s: State)
    requires Inv(s) && Enabled(s, Queues)
    ensures Inv(Next(s, Queues))
  {
    var u := Next(s, Queues);
    assert s.handled + AtWorker(s) + s.queue + AtMain(s) == u.handled + AtWorker(u) + u.queue + AtMain(u);
  }

  lemma TakesKeeps(s: State)
    requires Inv(s) && Enabled(s, Takes)
    ensures Inv(Next(s, Takes))
  {
    var u := Next(s, Takes);
    assert s.handled + AtWorker(s) + s.queue + AtMain(s) == u.handled + AtWorker(u) + u.queue + AtMain(u);
  }

  // The article the worker has in hand was asked for.
  lemma InHand(s: State)
    requires Inv(s) && s.worker.Handle?
    ensures !s.main.Returned? && s.worker.a in s.sent && FromList(s.todo, s.worker.a.id)
  {
    assert (s.handled + AtWorker(s) + s.queue + AtMain(s))[|s.handled|] == s.worker.a;
  }

  lemma MovesOn(handled: seq<Request>, a: Request, queue: seq<Request>, last: seq<Request>)
    ensures handled + [a] + queue + last == (handled + [a]) + [] + queue + last
  {
  }

  lemma HandlesKeeps(s: State, h: Handled)
    requires Inv(s) && Enabled(s, Handles(h))
    ensures Inv(Next(s, Handles(h)))
  {
    var a := s.worker.a;
    InHand(s);
    MovesOn(s.handled, a, s.queue, AtMain(s));
    HighestAppend(s.disposed, a.id);
  }

  lemma SendsKeeps(s: State, ok: bool)
    requires Inv(s) && Enabled(s, Sends(ok))
    ensures Inv(Next(s, Sends(ok)))
  {
    var u := Next(s, Sends(ok));
    assert FromList(s.todo, s.todo[s.i].id);
  }

  lemma ReturnsKeeps(s: State, ev: Event)
    requires Inv(s) && Enabled(s, ev) && Returns(ev)
    ensures Inv(Next(s, ev))
  {
    assert s.handled <= s.handled + AtWorker(s) + s.queue + AtMain(s);
  }

  lemma WantsKeeps(s: State, r: Wanted)
    requires Inv(s) && Enabled(s, Wants(r))
    ensures Inv(Next(s, Wants(r)))
  {
    assert FromList(s.todo, s.todo[s.i].id);
    HighestAppend(s.disposed, s.todo[s.i].id);
  }

  lemma MainKeeps(s: State, ev: Event)
    requires Inv(s) && Enabled(s, ev)
    requires ev.Passes? || ev.ChecksRef? || ev.LoopEnds? || ev.ClosesList? || ev.ClosesEarly? || ev.Ends?
    ensures Inv(Next(s, ev))
  {
  }

  lemma StepKeeps(s: State, ev: Event)
    requires Inv(s) && Enabled(s, ev)
    ensures Inv(Next(s, ev))
  {
    match ev
    case Interrupted => ReturnsKeeps(s, ev);
    case Joins => ReturnsKeeps(s, ev);
    case JoinsEarly => ReturnsKeeps(s, ev);
    case Wants(r) => WantsKeeps(s, r);
    case Sends(ok) => SendsKeeps(s, ok);
    case Queues => QueuesKeeps(s);
    case Takes => TakesKeeps(s);
    case Handles(h) => HandlesKeeps(s, h);
    case _ => MainKeeps(s, ev);
  }

  // --------------------------------------------------------------- all runs

  // Where the events lead, if each can happen in its turn.
  function After(s: State, events: seq<Event>): Option<State>
    decreases |events|
  {
    if events == [] then Some(s)
    else if Enabled(s, events[0]) then After(Next(s, events[0]), events[1..])
    else None
  }

  lemma {:induction false} RunKeeps(s: State, events: seq<Event>, t: State)
    requires Inv(s) && After(s, events) == Some(t)
    ensures Inv(t)
    decreases |events|
  {
    if events != [] {
      StepKeeps(s, events[0]);
      RunKeeps(Next(s, events[0]), events[1..], t);
    }
  }

  predicate ByWorker(ev: Event) {
    ev.Takes? || ev.Handles? || ev.Ends?
  }

  predicate Returns(ev: Event) {
    ev.Interrupted? || ev.Joins? || ev.JoinsEarly?
  }

  lemma ListStays(s: State, ev: Event)
    requires Enabled(s, ev)
    ensures Next(s, ev).todo == s.todo
  {
    if Returns(ev) {
      ListStaysOnReturn(s, ev);
    } else if ByWorker(ev) {
      ListStaysAtWorker(s, ev);
    } else {
      ListStaysAtMain(s, ev);
    }
  }

  lemma ListStaysOnReturn(s: State, ev: Event)
    requires Enabled(s, ev) && Returns(ev)
    ensures Next(s, ev).todo == s.todo
  {
  }

  lemma ListStaysAtWorker(s: State, ev: Event)
    requires Enabled(s, ev) && ByWorker(ev)
    ensures Next(s, ev).todo == s.todo
  {
  }

  lemma ListStaysAtMain(s: State, ev: Event)
    requires Enabled(s, ev) && !Returns(ev) && !ByWorker(ev)
    ensures Next(s, ev).todo == s.todo
  {
  }

  lemma {:induction false} ListKept(s: State, events: seq<Event>, t: State)
    requires After(s, events) == Some(t)
    ensures t.todo == s.todo
    decreases |events|
  {
    if events != [] {
      ListStays(s, events[0]);
      ListKept(Next(s, events[0]), events[1..], t);
    }
  }

  ghost predicate Reachable(todo: seq<Todo>, s: State) {
    exists events: seq<Event> :: After(Start(todo), events) == Some(s)
  }

  lemma AlwaysInv(todo: seq<Todo>, s: State)
    requires Reachable(todo, s)
    ensures Inv(s) && s.todo == todo
  {
    var events: seq<Event> :| After(Start(todo), events) == Some(s);
    RunKeeps(Start(todo), events, s);
    ListKept(Start(todo), events, s);
  }

  // The response read next is the one to the article the worker has in hand, and so it was
  // with every response before.
  lemma ResponsesMatch(todo: seq<Todo>, s: State)
    requires Reachable(todo, s)
    ensures s.handled <= s.sent && s.responses == |s.handled|
    ensures s.worker.Handle? && !s.main.Returned? ==> s.responses < |s.sent| && s.sent[s.responses] == s.worker.a
  {
    AlwaysInv(todo, s);
    assert s.handled <= s.handled + AtWorker(s) + s.queue + AtMain(s);
    if s.worker.Handle? && !s.main.Returned? {
      assert (s.handled + AtWorker(s) + s.queue + AtMain(s))[|s.handled|] == s.worker.a;
    }
  }

  // When the call returns, the worker is gone and its end was received exactly once. That
  // it ended without having been told to is never seen.
  lemma WorkerNeverLeaks(todo: seq<Todo>, s: State)
    requires Reachable(todo, s)
    ensures s.main.Returned? ==> s.worker.Gone? && s.received == 1
    ensures !s.main.Returned? ==> s.received == 0
    ensures !s.surprised && |s.queue| <= PENDING
  {
    AlwaysInv(todo, s);
  }

  // Until it returns there is always a step to take.
  lemma NoDeadlock(todo: seq<Todo>, s: State)
    requires Reachable(todo, s) && !s.main.Returned?
    ensures exists ev: Event :: Enabled(s, ev)
  {
    AlwaysInv(todo, s);
    match s.worker {
      case Handle(a) => assert Enabled(s, Handles(Fine));
      case Receive =>
        if s.queue != [] {
          assert Enabled(s, Takes);
        } else if s.closed {
          assert Enabled(s, Ends);
        } else {
          MainMoves(s);
        }
      case _ => MainMoves(s);
    }
  }

  lemma MainMoves(s: State)
    requires Inv(s) && !s.main.Returned?
    requires s.worker.Receive? ==> s.queue == [] && !s.closed
    requires !s.worker.Handle?
    ensures exists ev: Event :: Enabled(s, ev)
  {
    match s.main
    case Want => assert Enabled(s, Wants(Yes(0)));
    case Refs => assert Enabled(s, ChecksRef(true));
    case Print => assert Enabled(s, Sends(true));
    case Enqueue(a) => assert Enabled(s, Queues) || Enabled(s, Interrupted);
    case CloseList => assert Enabled(s, ClosesList);
    case CloseEarly(_) => assert Enabled(s, ClosesEarly);
    case Await => assert Enabled(s, Joins);
    case AwaitEarly(_) => assert Enabled(s, JoinsEarly);
    case Poll => assert Enabled(s, Passes) || Enabled(s, Interrupted) || Enabled(s, LoopEnds);
    case Poll2 => assert Enabled(s, Passes) || Enabled(s, Interrupted);
    case Poll3 => assert Enabled(s, Passes) || Enabled(s, Interrupted);
  }

  // The number the call reports is the highest of those it disposed of, which come from
  // the list it was given; or it is -1.
  lemma MaxidFromList(todo: seq<Todo>, s: State)
    requires Reachable(todo, s)
    ensures s.newMaxid == Highest(s.disposed)
    ensures forall id <- s.disposed :: FromList(todo, id)
    ensures s.newMaxid == -1 || exists i: nat :: i < |todo| && Signed(todo[i].id) == s.newMaxid
  {
    AlwaysInv(todo, s);
    if s.newMaxid != -1 {
      var id: Id :| id in s.disposed && Signed(id) == s.newMaxid;
      var i: nat :| i < |todo| && todo[i].id == id;
      assert Signed(todo[i].id) == s.newMaxid;
    }
  }

  // ------------------------------------------------ the connection afterwards

  // After a return without a fatal error the connection is in step, with a response read for
  // every request, unless the database failed, the worker had ended with an error, and there
  // was still something in the channel: exactly then the worker's error is thrown away
  // together with responses that are still to come.
  lemma InStepUnlessDropped(todo: seq<Todo>, s: State)
    requires Reachable(todo, s) && s.main.Returned? && !s.verdict.fatal
    ensures s.handled == s.sent <==> !(s.verdict.dropped && s.queue != [])
    ensures s.sent == s.handled + s.queue
    ensures (s.verdict.dropped <==> s.verdict.broken) && (s.verdict.dropped ==> s.verdict.failed)
  {
    AlwaysInv(todo, s);
    assert s.queue != [] ==> |s.sent| > |s.handled|;
    assert s.handled + [] == s.handled;
  }

  // An error of the worker is reported as fatal unless it was dropped, which takes an error
  // of the database.
  lemma WorkerErrorIsFatal(todo: seq<Todo>, s: State)
    requires Reachable(todo, s) && s.main.Returned?
    ensures s.verdict.broken ==> s.verdict.fatal || (s.verdict.dropped && s.verdict.failed)
    ensures s.verdict.fatal ==> s.verdict.failed
  {
    AlwaysInv(todo, s);
  }

  const ASKING := [Passes, Wants(Yes(0)), Passes, Sends(true), Queues]
  const FAILING := [Passes, Wants(Error), Takes, Handles(Fatal), ClosesEarly, JoinsEarly]

  // The requests are queued while the worker does not get to run.
  ghost predicate Idling(s: State) {
    && s.main.Poll? && s.worker.Receive? && !s.closed && !s.finished && |s.queue| < PENDING
    && s.i < |s.todo| && s.todo[s.i].msgid != "" && s.todo[s.i].ref == ""
  }

  lemma AsksOne(s: State)
    requires Idling(s)
    ensures var a := Request(s.todo[s.i].id, s.todo[s.i].msgid, 0);
      After(s, ASKING) == Some(s.(i := s.i + 1, wdata := 0, queue := s.queue + [a], sent := s.sent + [a]))
  {
    var run: seq<Event> := ASKING;
    assert run[0..] == run && run[5..] == [];
    var s1 := Next(s, run[0]);
    var s2 := Next(s1, run[1]);
    var s3 := Next(s2, run[2]);
    var s4 := Next(s3, run[3]);
    StepAt(s, run, 0);
    StepAt(s1, run, 1);
    StepAt(s2, run, 2);
    StepAt(s3, run, 3);
    StepAt(s4, run, 4);
  }

  lemma FailsTwice(s: State)
    requires Idling(s) && s.queue != []
    ensures var t := After(s, FAILING);
      && t.Some? && t.value.main.Returned? && !t.value.verdict.fatal && t.value.queue == s.queue[1..]
      && t.value.sent == s.sent && t.value.handled == s.handled + [s.queue[0]]
  {
    var run: seq<Event> := FAILING;
    assert run[0..] == run;
    var s1 := Next(s, run[0]);
    var s2 := Next(s1, run[1]);
    var s3 := Next(s2, run[2]);
    StepAt(s, run, 0);
    StepAt(s1, run, 1);
    StepAt(s2, run, 2);
    StepAt(s3, run, 3);
    DropsIt(Next(s3, run[3]), run);
  }

  lemma DropsIt(s: State, run: seq<Event>)
    requires run == FAILING && s.main == CloseEarly(false) && s.worker.Report?
    ensures var t := After(s, run[4..]);
      && t.Some? && t.value.main.Returned? && !t.value.verdict.fatal
      && t.value.queue == s.queue && t.value.sent == s.sent && t.value.handled == s.handled
  {
    StepAt(s, run, 4);
    StepAt(Next(s, run[4]), run, 5);
    assert run[6..] == [];
  }

  lemma {:induction false} AfterBoth(s: State, a: seq<Event>, b: seq<Event>)
    requires After(s, a).Some?
    ensures After(s, a + b) == After(After(s, a).value, b)
    decreases |a|
  {
    if a == [] {
      assert a + b == b;
    } else {
      assert (a + b)[1..] == a[1..] + b;
      AfterBoth(Next(s, a[0]), a[1..], b);
    }
  }

  // Two articles are asked for. The database fails on the third one, and the worker ends
  // with an error on the response to the first: the call returns an error that is not
  // fatal, and the response to the second is never read.
  lemma DroppedError() returns (todo: seq<Todo>, s: State)
    ensures Reachable(todo, s) && s.main.Returned? && !s.verdict.fatal && |s.sent| == 2 && |s.handled| == 1
  {
    todo := [Todo(1, "a", ""), Todo(2, "b", ""), Todo(3, "c", "")];
    var s0 := Start(todo);
    AsksOne(s0);
    var s1 := After(s0, ASKING).value;
    AsksOne(s1);
    var s2 := After(s1, ASKING).value;
    FailsTwice(s2);
    s := After(s2, FAILING).value;
    AfterBoth(s1, ASKING, FAILING);
    AfterBoth(s0, ASKING, ASKING + FAILING);
  }

  // ------------------------------------------------------- runs that return

  predicate Finishes(todo: seq<Todo>, run: seq<Event>) {
    After(Start(todo), run).Some? && After(Start(todo), run).value.main.Returned?
  }

  // How the two goroutines, the server and the database get through any list.
  type Schedule = f: seq<Todo> -> seq<Event> | forall todo: seq<Todo> :: Finishes(todo, f(todo))
    ghost witness (GiveUpWorks(); GiveUp)

  // One that gives up at the first article.
  function GiveUp(todo: seq<Todo>): seq<Event> {
    if todo == [] then [LoopEnds, ClosesList, Ends, Joins]
    else if todo[0].ref != "" && todo[0].ref != todo[0].msgid then [Passes, Wants(Yes(0)), Passes, ChecksRef(false), ClosesEarly, Ends, JoinsEarly]
    else [Passes, Wants(Yes(0)), Passes, Sends(false), ClosesEarly, Ends, JoinsEarly]
  }

  lemma StepAt(s: State, run: seq<Event>, i: nat)
    requires i < |run| && Enabled(s, run[i])
    ensures After(s, run[i..]) == After(Next(s, run[i]), run[i + 1..])
  {
    assert run[i..][1..] == run[i + 1..];
  }

  // Closing the list early, from event i on.
  lemma ClosesWell(s: State, run: seq<Event>, i: nat)
    requires i + 3 == |run| && run[i..] == [ClosesEarly, Ends, JoinsEarly]
    requires s.main.CloseEarly? && s.worker.Receive? && s.queue == []
    ensures After(s, run[i..]).Some? && After(s, run[i..]).value.main.Returned?
  {
    assert run[i] == run[i..][0] && run[i + 1] == run[i..][1] && run[i + 2] == run[i..][2];
    var s1 := Next(s, run[i]);
    var s2 := Next(s1, run[i + 1]);
    StepAt(s, run, i);
    StepAt(s1, run, i + 1);
    StepAt(s2, run, i + 2);
    assert run[i + 3..] == [];
  }

  lemma GiveUpAtOnce(run: seq<Event>)
    requires run == GiveUp([])
    ensures Finishes([], run)
  {
    var s := Start([]);
    assert run[0..] == run && run[4..] == [];
    var s1 := Next(s, run[0]);
    var s2 := Next(s1, run[1]);
    var s3 := Next(s2, run[2]);
    StepAt(s, run, 0);
    StepAt(s1, run, 1);
    StepAt(s2, run, 2);
    StepAt(s3, run, 3);
  }

  lemma GiveUpFirst(todo: seq<Todo>, run: seq<Event>)
    requires todo != [] && run == GiveUp(todo)
    ensures Finishes(todo, run)
  {
    var s := Start(todo);
    assert run[0..] == run;
    var s1 := Next(s, run[0]);
    var s2 := Next(s1, run[1]);
    var s3 := Next(s2, run[2]);
    StepAt(s, run, 0);
    StepAt(s1, run, 1);
    StepAt(s2, run, 2);
    StepAt(s3, run, 3);
    ClosesWell(Next(s3, run[3]), run, 4);
  }

  lemma GiveUpWorks()
    ensures forall todo: seq<Todo> :: Finishes(todo, GiveUp(todo))
  {
    forall todo: seq<Todo> ensures Finishes(todo, GiveUp(todo)) {
      if todo == [] {
        GiveUpAtOnce(GiveUp([]));
      } else {
        GiveUpFirst(todo, GiveUp(todo));
      }
    }
  }
}
