// A call that returns without an error has dealt with its whole list.
module PullerList {
  import opened Common
  import opened Puller

  // What the database answered in a run, one article after the other.
  function Answers(events: seq<Event>): seq<Wanted> {
    if events == [] then [] else AnswerIn(events[0]) + Answers(events[1..])
  }

  function AnswerIn(ev: Event): seq<Wanted> {
    if ev.Wants? then [ev.r] else []
  }

  // The requests that follow from the answers: one for each article that is wanted, in the
  // order of the list, with its own id and message-id.
  function Asked(todo: seq<Todo>, answers: seq<Wanted>): seq<Request>
    requires |answers| <= |todo|
  {
    if answers == [] then []
    else
      var n := |answers| - 1;
      Asked(todo, answers[..n])
      + if answers[n].Yes? then [Request(todo[n].id, todo[n].msgid, answers[n].wdata)] else []
  }

  // An article that is not wanted has been disposed of; the database is only asked about
  // one with a message-id.
  ghost predicate Answered(todo: seq<Todo>, answers: seq<Wanted>, disposed: seq<Id>) {
    && |answers| <= |todo|
    && forall k: nat | k < |answers| :: answers[k].Yes? || (answers[k].No? && todo[k].id in disposed && todo[k].msgid != "")
  }

  lemma AskedMore(todo: seq<Todo>, answers: seq<Wanted>, r: Wanted)
    requires |answers| < |todo|
    ensures var t := todo[|answers|];
      Asked(todo, answers + [r]) == Asked(todo, answers) + if r.Yes? then [Request(t.id, t.msgid, r.wdata)] else []
  {
    assert (answers + [r])[..|answers|] == answers;
  }

  // --------------------------------------------------------------- invariant

  // In the middle of an article that is wanted.
  ghost predicate Wanting(pc: MainPc) {
    pc.Poll2? || pc.Refs? || pc.Poll3? || pc.Print? || pc.Enqueue?
  }

  ghost predicate GoingOn(pc: MainPc) {
    pc.Poll? || pc.Want? || pc.CloseList? || pc.Await?
  }

  // The answers so far are those to the first i articles, and they have been acted on.
  ghost predicate UpTo(s: State, answers: seq<Wanted>) {
    |answers| == s.i && Answered(s.todo, answers, s.disposed) && s.sent == Asked(s.todo, answers)
  }

  // The last answer is to article i, which is wanted.
  ghost predicate Asking(s: State, answers: seq<Wanted>) {
    && |answers| == s.i + 1 && Answered(s.todo, answers, s.disposed)
    && answers[s.i].Yes? && (s.main.Enqueue? || answers[s.i].wdata == s.wdata)
    && s.sent == Asked(s.todo, if s.main.Enqueue? then answers else answers[..s.i])
  }

  ghost predicate ListInv(s: State, answers: seq<Wanted>) {
    && (GoingOn(s.main) || (s.main.Returned? && !s.verdict.failed) ==> UpTo(s, answers))
    && (Wanting(s.main) ==> Asking(s, answers))
    && (s.main.CloseList? || s.main.Await? || (s.main.Returned? && !s.verdict.failed) ==> s.i == |s.todo|)
  }

  lemma AnsweredMore(todo: seq<Todo>, answers: seq<Wanted>, r: Wanted, disposed: seq<Id>, id: Id)
    requires Answered(todo, answers, disposed) && |answers| < |todo| && id == todo[|answers|].id
    requires todo[|answers|].msgid == "" ==> r.Yes?
    ensures r.Yes? ==> Answered(todo, answers + [r], disposed)
    ensures r.No? ==> Answered(todo, answers + [r], disposed + [id])
  {
  }

  lemma WantsKeepsList(s: State, answers: seq<Wanted>, r: Wanted)
    requires ListInv(s, answers) && Enabled(s, Wants(r))
    ensures ListInv(Next(s, Wants(r)), answers + [r])
  {
    AskedMore(s.todo, answers, r);
    AnsweredMore(s.todo, answers, r, s.disposed, s.todo[s.i].id);
    assert (answers + [r])[..s.i] == answers;
  }

  lemma SendsKeepsList(s: State, answers: seq<Wanted>, ok: bool)
    requires ListInv(s, answers) && Enabled(s, Sends(ok))
    ensures ListInv(Next(s, Sends(ok)), answers)
  {
    AskedMore(s.todo, answers[..s.i], answers[s.i]);
    assert answers[..s.i] + [answers[s.i]] == answers;
  }

  // The worker takes no step any more when the call has returned.
  lemma WorkerGone(s: State, ev: Event)
    requires Inv(s) && Enabled(s, ev) && ByWorker(ev)
    ensures !s.main.Returned?
  {
  }

  lemma TakesKeepsList(s: State, answers: seq<Wanted>, ev: Event)
    requires !s.main.Returned? && ListInv(s, answers) && Enabled(s, ev) && (ev.Takes? || ev.Ends?)
    ensures ListInv(Next(s, ev), answers)
  {
  }

  lemma HandlesKeepsList(s: State, answers: seq<Wanted>, h: Handled)
    requires !s.main.Returned? && ListInv(s, answers) && Enabled(s, Handles(h))
    ensures ListInv(Next(s, Handles(h)), answers)
  {
  }

  lemma MainKeepsList(s: State, answers: seq<Wanted>, ev: Event)
    requires ListInv(s, answers) && Enabled(s, ev) && (ev.Passes? || ev.ChecksRef?)
    ensures ListInv(Next(s, ev), answers)
  {
  }

  lemma QueuesKeepsList(s: State, answers: seq<Wanted>)
    requires ListInv(s, answers) && Enabled(s, Queues)
    ensures ListInv(Next(s, Queues), answers)
  {
  }

  lemma EndKeepsList(s: State, answers: seq<Wanted>, ev: Event)
    requires ListInv(s, answers) && Enabled(s, ev) && (Returns(ev) || ev.LoopEnds? || ev.ClosesList? || ev.ClosesEarly?)
    ensures ListInv(Next(s, ev), answers)
  {
  }

  lemma StepKeepsList(s: State, answers: seq<Wanted>, ev: Event)
    requires Inv(s) && ListInv(s, answers) && Enabled(s, ev)
    ensures ListInv(Next(s, ev), answers + AnswerIn(ev))
  {
    if ByWorker(ev) {
      WorkerGone(s, ev);
    }
    assert answers + [] == answers;
    match ev
    case Wants(r) => WantsKeepsList(s, answers, r);
    case Sends(ok) => SendsKeepsList(s, answers, ok);
    case Handles(h) => HandlesKeepsList(s, answers, h);
    case Takes => TakesKeepsList(s, answers, ev);
    case Ends => TakesKeepsList(s, answers, ev);
    case Passes => MainKeepsList(s, answers, ev);
    case ChecksRef(ok) => MainKeepsList(s, answers, ev);
    case Queues => QueuesKeepsList(s, answers);
    case _ => EndKeepsList(s, answers, ev);
  }

  lemma {:induction false} RunKeepsList(s: State, answers: seq<Wanted>, events: seq<Event>, t: State)
    requires Inv(s) && ListInv(s, answers) && After(s, events) == Some(t)
    ensures ListInv(t, answers + Answers(events))
    decreases |events|
  {
    if events == [] {
      assert answers + [] == answers;
    } else {
      StepKeeps(s, events[0]);
      StepKeepsList(s, answers, events[0]);
      RunKeepsList(Next(s, events[0]), answers + AnswerIn(events[0]), events[1..], t);
      AnswersJoin(answers, AnswerIn(events[0]), Answers(events[1..]));
    }
  }

  lemma AnswersJoin(a: seq<Wanted>, b: seq<Wanted>, c: seq<Wanted>)
    ensures (a + b) + c == a + (b + c)
  {
  }

  // ------------------------------------------------------------- all of it

  lemma StartsEmpty(todo: seq<Todo>)
    ensures Inv(Start(todo)) && ListInv(Start(todo), [])
  {
  }

  lemma AllHandled(s: State)
    requires Inv(s) && s.main.Returned? && !s.verdict.failed
    ensures s.handled == s.sent
  {
    assert s.handled + [] == s.handled;
  }

  // On a return without an error the database has been asked about every article, in order;
  // exactly those that it wanted have been requested, in that order; a response to each of
  // them has been read; and the others have been disposed of.
  lemma ListUsedUp(todo: seq<Todo>, events: seq<Event>, s: State)
    requires After(Start(todo), events) == Some(s) && s.main.Returned? && !s.verdict.failed
    ensures |Answers(events)| == |todo| && s.sent == Asked(todo, Answers(events)) && s.handled == s.sent
    ensures Answered(todo, Answers(events), s.disposed)
  {
    StartsEmpty(todo);
    RunKeeps(Start(todo), events, s);
    RunKeepsList(Start(todo), [], events, s);
    ListKept(Start(todo), events, s);
    AllHandled(s);
    AnswersJoin([], [], Answers(events));
    assert [] + Answers(events) == Answers(events);
  }

  ghost predicate DealtWith(todo: seq<Todo>, s: State) {
    exists answers: seq<Wanted> ::
      Answered(todo, answers, s.disposed) && |answers| == |todo| && s.sent == Asked(todo, answers) && s.handled == s.sent
  }

  lemma AllDealtWith(todo: seq<Todo>, s: State)
    requires Reachable(todo, s) && s.main.Returned? && !s.verdict.failed
    ensures DealtWith(todo, s)
  {
    var events: seq<Event> :| After(Start(todo), events) == Some(s);
    ListUsedUp(todo, events, s);
  }

  // --------------------------------------------------- it can be dealt with

  // Between two articles, with nothing in flight and nothing gone wrong.
  ghost predicate Even(s: State) {
    && s.main.Poll? && s.worker.Receive? && s.queue == [] && !s.closed && !s.finished
    && s.verdict == Verdict(false, false, false, false)
  }

  lemma OneMore(s: State, ev: Event, more: seq<Event>, t: State)
    requires Enabled(s, ev) && After(Next(s, ev), more) == Some(t)
    ensures After(s, [ev] + more) == Some(t)
    ensures Answers([ev] + more) == AnswerIn(ev) + Answers(more)
  {
    assert ([ev] + more)[1..] == more;
  }

  lemma {:induction false} AnswersAppend(a: seq<Event>, b: seq<Event>)
    ensures Answers(a + b) == Answers(a) + Answers(b)
  {
    if a == [] {
      assert a + b == b && [] + Answers(b) == Answers(b);
    } else {
      assert (a + b)[1..] == a[1..] + b;
      AnswersAppend(a[1..], b);
      AnswersJoin(AnswerIn(a[0]), Answers(a[1..]), Answers(b));
    }
  }

  lemma {:induction false} AfterAppend(s: State, a: seq<Event>, b: seq<Event>, t: State)
    requires After(s, a) == Some(t)
    ensures After(s, a + b) == After(t, b)
    decreases |a|
  {
    if a == [] {
      assert a + b == b;
    } else {
      assert (a + b)[1..] == a[1..] + b;
      AfterAppend(Next(s, a[0]), a[1..], b, t);
    }
  }

  // What is left to do for an article once its data is there to be asked for.
  lemma Fetches(s: State) returns (events: seq<Event>, t: State)
    requires s.main.Print? && Even(s.(main := Poll)) && s.i < |s.todo|
    ensures After(s, events) == Some(t) && Even(t) && t.todo == s.todo && t.i == s.i + 1 && Answers(events) == []
  {
    var s1 := Next(s, Sends(true));
    var s2 := Next(s1, Queues);
    var s3 := Next(s2, Takes);
    t := Next(s3, Handles(Fine));
    OneMore(s3, Handles(Fine), [], t);
    OneMore(s2, Takes, [Handles(Fine)], t);
    OneMore(s1, Queues, [Takes] + [Handles(Fine)], t);
    events := [Sends(true)] + ([Queues] + ([Takes] + [Handles(Fine)]));
    OneMore(s, Sends(true), [Queues] + ([Takes] + [Handles(Fine)]), t);
  }

  lemma Prints(s: State) returns (events: seq<Event>, t: State)
    requires s.main.Poll2? && Even(s.(main := Poll)) && s.i < |s.todo|
    ensures After(s, events) == Some(t) && Even(t) && t.todo == s.todo && t.i == s.i + 1 && Answers(events) == []
  {
    var s1 := Next(s, Passes);
    if s1.main.Refs? {
      var s2 := Next(s1, ChecksRef(true));
      var more;
      more, t := Fetches(Next(s2, Passes));
      OneMore(s2, Passes, more, t);
      OneMore(s1, ChecksRef(true), [Passes] + more, t);
      events := [Passes] + ([ChecksRef(true)] + ([Passes] + more));
      OneMore(s, Passes, [ChecksRef(true)] + ([Passes] + more), t);
    } else {
      var more;
      more, t := Fetches(s1);
      events := [Passes] + more;
      OneMore(s, Passes, more, t);
    }
  }

  // An answer that the database may give about an article.
  predicate Possible(t: Todo, r: Wanted) {
    !r.Error? && (t.msgid == "" ==> r.Yes?)
  }

  lemma OneArticle(s: State, r: Wanted) returns (events: seq<Event>, t: State)
    requires Even(s) && s.i < |s.todo| && Possible(s.todo[s.i], r)
    ensures After(s, events) == Some(t) && Even(t) && t.todo == s.todo && t.i == s.i + 1 && Answers(events) == [r]
  {
    var s1 := Next(s, Passes);
    var s2 := Next(s1, Wants(r));
    var more := [];
    t := s2;
    if r.Yes? {
      more, t := Prints(s2);
    }
    OneMore(s1, Wants(r), more, t);
    events := [Passes] + ([Wants(r)] + more);
    OneMore(s, Passes, [Wants(r)] + more, t);
  }

  lemma Returning(s: State) returns (events: seq<Event>, t: State)
    requires Even(s) && s.i == |s.todo|
    ensures After(s, events) == Some(t) && t.main.Returned? && !t.verdict.failed && Answers(events) == []
  {
    var s1 := Next(s, LoopEnds);
    var s2 := Next(s1, ClosesList);
    var s3 := Next(s2, Ends);
    t := Next(s3, Joins);
    OneMore(s3, Joins, [], t);
    OneMore(s2, Ends, [Joins], t);
    OneMore(s1, ClosesList, [Ends] + [Joins], t);
    events := [LoopEnds] + ([ClosesList] + ([Ends] + [Joins]));
    OneMore(s, LoopEnds, [ClosesList] + ([Ends] + [Joins]), t);
  }

  lemma {:induction false} Onwards(s: State, answers: seq<Wanted>) returns (events: seq<Event>, t: State)
    requires Even(s) && s.i + |answers| == |s.todo|
    requires forall k: nat | k < |answers| :: Possible(s.todo[s.i + k], answers[k])
    ensures After(s, events) == Some(t) && t.main.Returned? && !t.verdict.failed && Answers(events) == answers
    decreases |answers|
  {
    if answers == [] {
      events, t := Returning(s);
    } else {
      var first, u := OneArticle(s, answers[0]);
      var more;
      more, t := Onwards(u, answers[1..]);
      events := first + more;
      AfterAppend(s, first, more, u);
      AnswersAppend(first, more);
      assert [answers[0]] + answers[1..] == answers;
    }
  }

  // Whatever the database answers about the articles of a list, if it does not fail, there
  // is a run with these answers that returns without an error.
  lemma CanBeWorkedOff(todo: seq<Todo>, answers: seq<Wanted>)
    requires |answers| == |todo| && forall k: nat | k < |todo| :: Possible(todo[k], answers[k])
    ensures exists events: seq<Event>, s: State ::
      After(Start(todo), events) == Some(s) && s.main.Returned? && !s.verdict.failed && Answers(events) == answers
  {
    var events, s := Onwards(Start(todo), answers);
  }
}
