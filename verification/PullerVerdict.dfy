// What a call that works off a list reports, told from what happened in its run.
module PullerVerdict {
  import opened Common
  import opened Puller
  import opened PullerList

  // The failures of a run: sending a request, asking the database, handling a response.
  datatype Failures = Failures(send: bool, ask: bool, handle: bool)

  const NO_FAILURE := Failures(false, false, false)

  function Add(f: Failures, ev: Event): Failures {
    Failures(f.send || ev == Sends(false), f.ask || ev == Wants(Error) || ev == ChecksRef(false), f.handle || ev == Handles(Fatal))
  }

  function AddAll(f: Failures, events: seq<Event>): Failures
    decreases |events|
  {
    if events == [] then f else AddAll(Add(f, events[0]), events[1..])
  }

  lemma {:induction false} AddedAre(f: Failures, events: seq<Event>)
    ensures AddAll(f, events) == Failures(
      f.send || Sends(false) in events,
      f.ask || Wants(Error) in events || ChecksRef(false) in events,
      f.handle || Handles(Fatal) in events)
    decreases |events|
  {
    if events != [] {
      assert events == [events[0]] + events[1..];
      AddedAre(Add(f, events[0]), events[1..]);
    }
  }

  ghost predicate VerdictInv(s: State, f: Failures) {
    && s.verdict.broken == f.handle
    && (if s.main.CloseEarly? || s.main.AwaitEarly? then s.main.hard == f.send && f.send != f.ask
        else if s.main.Returned? then
          && (s.verdict.fatal <==> f.send || (f.handle && !f.ask))
          && (s.verdict.failed <==> f.send || f.ask || f.handle)
          && (s.verdict.dropped <==> f.handle && (f.send || f.ask))
        else !f.send && !f.ask)
  }

  lemma ReturnKeepsVerdict(s: State, f: Failures, ev: Event)
    requires Inv(s) && VerdictInv(s, f) && Enabled(s, ev) && Returns(ev)
    ensures VerdictInv(Next(s, ev), Add(f, ev))
  {
  }

  lemma WorkerKeepsVerdict(s: State, f: Failures, ev: Event)
    requires Inv(s) && VerdictInv(s, f) && Enabled(s, ev) && ByWorker(ev)
    ensures VerdictInv(Next(s, ev), Add(f, ev))
  {
    WorkerGone(s, ev);
  }

  lemma MainKeepsVerdict(s: State, f: Failures, ev: Event)
    requires VerdictInv(s, f) && Enabled(s, ev) && !Returns(ev) && !ByWorker(ev)
    ensures VerdictInv(Next(s, ev), Add(f, ev))
  {
  }

  lemma {:induction false} RunKeepsVerdict(s: State, f: Failures, events: seq<Event>, t: State)
    requires Inv(s) && VerdictInv(s, f) && After(s, events) == Some(t)
    ensures VerdictInv(t, AddAll(f, events))
    decreases |events|
  {
    if events != [] {
      var ev := events[0];
      StepKeeps(s, ev);
      if Returns(ev) {
        ReturnKeepsVerdict(s, f, ev);
      } else if ByWorker(ev) {
        WorkerKeepsVerdict(s, f, ev);
      } else {
        MainKeepsVerdict(s, f, ev);
      }
      RunKeepsVerdict(Next(s, ev), Add(f, ev), events[1..], t);
    }
  }

  // The call fails exactly if something failed. The failure is fatal exactly if sending a
  // request failed, or handling a response did and the database did not; the worker's error
  // is thrown away exactly if something else failed too.
  lemma VerdictIs(todo: seq<Todo>, events: seq<Event>, s: State)
    requires After(Start(todo), events) == Some(s) && s.main.Returned?
    ensures var (send, ask, handle) := (Sends(false) in events, Wants(Error) in events || ChecksRef(false) in events, Handles(Fatal) in events);
      && (s.verdict.failed <==> send || ask || handle)
      && (s.verdict.fatal <==> send || (handle && !ask))
      && (s.verdict.dropped <==> handle && (send || ask))
  {
    StartsEmpty(todo);
    RunKeepsVerdict(Start(todo), NO_FAILURE, events, s);
    AddedAre(NO_FAILURE, events);
  }

  // ---------------------------------------------------------- what is disposed of

  function HandleIn(ev: Event): nat {
    if ev.Handles? then 1 else 0
  }

  // The article an event disposes of, after some answers and n responses: the one the
  // database does not want, or the one whose response was fine.
  function DisposedIn(todo: seq<Todo>, answers: seq<Wanted>, n: nat, ev: Event): seq<Id> {
    if ev == Wants(No) && |answers| < |todo| then [todo[|answers|].id]
    else if ev == Handles(Fine) && |answers| <= |todo| && n < |Asked(todo, answers)| then [Asked(todo, answers)[n].id]
    else []
  }

  function DisposedBy(todo: seq<Todo>, answers: seq<Wanted>, n: nat, events: seq<Event>): seq<Id>
    decreases |events|
  {
    if events == [] then []
    else
      DisposedIn(todo, answers, n, events[0])
      + DisposedBy(todo, answers + AnswerIn(events[0]), n + HandleIn(events[0]), events[1..])
  }

  // What has been sent was asked for, in order.
  ghost predicate SentInv(s: State, answers: seq<Wanted>) {
    |answers| <= |s.todo| && s.sent <= Asked(s.todo, answers)
  }

  lemma SendsNothing(s: State, ev: Event)
    requires Enabled(s, ev) && !ev.Sends?
    ensures Next(s, ev).sent == s.sent
  {
  }

  lemma SentMore(s: State, answers: seq<Wanted>, ev: Event)
    requires ListInv(s, answers) && SentInv(s, answers) && Enabled(s, ev)
    ensures SentInv(Next(s, ev), answers + AnswerIn(ev))
  {
    ListStays(s, ev);
    if ev.Wants? {
      AskedMore(s.todo, answers, ev.r);
      SendsNothing(s, ev);
    } else {
      assert answers + AnswerIn(ev) == answers;
      if ev.Sends? {
        AskedMore(s.todo, answers[..s.i], answers[s.i]);
        assert answers[..s.i] + [answers[s.i]] == answers;
      } else {
        SendsNothing(s, ev);
      }
    }
  }

  // The response that is handled is to the next request.
  lemma HandlesNext(s: State, answers: seq<Wanted>)
    requires Inv(s) && SentInv(s, answers) && s.worker.Handle?
    ensures s.responses < |Asked(s.todo, answers)| && s.worker.a == Asked(s.todo, answers)[s.responses]
  {
    assert !s.main.Returned?;
    assert s.sent[|s.handled|] == (s.handled + AtWorker(s) + s.queue + AtMain(s))[|s.handled|] == s.worker.a;
  }

  lemma OtherDisposesNone(s: State, ev: Event)
    requires Enabled(s, ev) && ev != Wants(No) && ev != Handles(Fine)
    ensures Next(s, ev).disposed == s.disposed && Next(s, ev).responses == s.responses + HandleIn(ev)
  {
  }

  lemma StepDisposes(s: State, answers: seq<Wanted>, ev: Event)
    requires Inv(s) && ListInv(s, answers) && SentInv(s, answers) && Enabled(s, ev)
    ensures Next(s, ev).disposed == s.disposed + DisposedIn(s.todo, answers, s.responses, ev)
    ensures Next(s, ev).responses == s.responses + HandleIn(ev)
  {
    if ev == Handles(Fine) {
      HandlesNext(s, answers);
    } else if ev != Wants(No) {
      OtherDisposesNone(s, ev);
      assert s.disposed + [] == s.disposed;
    }
  }

  lemma Joined(a: seq<Id>, b: seq<Id>, c: seq<Id>)
    ensures a + b + c == a + (b + c)
  {
  }

  lemma {:induction false} RunDisposes(s: State, answers: seq<Wanted>, events: seq<Event>, t: State)
    requires Inv(s) && ListInv(s, answers) && SentInv(s, answers) && After(s, events) == Some(t)
    ensures t.disposed == s.disposed + DisposedBy(s.todo, answers, s.responses, events)
    decreases |events|
  {
    if events == [] {
      assert s.disposed + [] == s.disposed;
    } else {
      var ev := events[0];
      var u := Next(s, ev);
      StepKeeps(s, ev);
      ListStays(s, ev);
      StepKeepsList(s, answers, ev);
      SentMore(s, answers, ev);
      StepDisposes(s, answers, ev);
      RunDisposes(u, answers + AnswerIn(ev), events[1..], t);
      Joined(s.disposed, DisposedIn(s.todo, answers, s.responses, ev), DisposedBy(u.todo, answers + AnswerIn(ev), u.responses, events[1..]));
    }
  }

  // In every run the articles disposed of are, one after the other, those that the database
  // did not want and those whose response, the n-th to the n-th request, was fine.
  lemma DisposedAre(todo: seq<Todo>, events: seq<Event>, s: State)
    requires After(Start(todo), events) == Some(s)
    ensures s.disposed == DisposedBy(todo, [], 0, events)
  {
    StartsEmpty(todo);
    RunDisposes(Start(todo), [], events, s);
  }
}
