// When the generator of the article cache asks its last user to start again.
module CacheRestart {
  import opened Common
  import opened CachePub
  import opened CacheEngine
  import opened CacheEffects
  import opened CacheInvariant
  import opened CacheGenSteps
  import opened CacheSafety

  // A step in which the call that started the generator of o gives up reading from it.
  ghost predicate GivesUp(s: State, ev: Event, o: nat) {
    && o < |s.objs| && ev.ByCall? && ev.call.MarksRead?
    && ev.t == s.objs[o].init && ev.t < |s.calls| && s.calls[ev.t].o == o
  }

  // The mark of an object changes in such a step only.
  ghost predicate Marked(s: State, ev: Event, u: State, o: nat) {
    && o < |s.objs| <= |u.objs| && u.objs[o].init == s.objs[o].init
    && (u.objs[o].readDone <==> s.objs[o].readDone || GivesUp(s, ev, o))
  }

  ghost predicate SameMark(ob: Obj, ob': Obj) {
    ob'.init == ob.init && ob'.readDone == ob.readDone
  }

  lemma LookMarks(s: State, t: nat, call: CallStep, u: State, o: nat)
    requires CallTakes(s, t, call, u) && Looks(call) && o < |s.objs|
    ensures Marked(s, ByCall(t, call), u, o)
  {
  }

  // The steps in which a call writes to its object.
  predicate Writes(call: CallStep) {
    || call.PublishesPub? || call.PublishesFile? || call.MarksBroken?
    || call.Unregisters? || call.Removes? || call.Clears?
  }

  lemma WriteMarks(s: State, t: nat, call: CallStep, u: State)
    requires CallTakes(s, t, call, u) && Writes(call)
    ensures s.calls[t].o < |s.objs| == |u.objs| && SameMark(ObjOf(s, t), u.objs[s.calls[t].o])
  {
  }

  lemma OtherMarks(s: State, t: nat, call: CallStep, u: State)
    requires CallTakes(s, t, call, u) && !Looks(call) && !Writes(call) && !call.MarksRead?
    ensures s.calls[t].o < |s.objs| && u.objs == s.objs
  {
  }

  lemma ObjectMarks(s: State, t: nat, call: CallStep, u: State)
    requires CallTakes(s, t, call, u) && !Looks(call)
    ensures s.calls[t].o < |s.objs| == |u.objs|
    ensures call.MarksRead? || SameMark(ObjOf(s, t), u.objs[s.calls[t].o])
  {
    if call.MarksRead? {
    } else if Writes(call) {
      WriteMarks(s, t, call, u);
    } else {
      OtherMarks(s, t, call, u);
    }
  }

  lemma ReadMarks(s: State, t: nat, u: State)
    requires CallTakes(s, t, MarksRead, u)
    ensures var (ob, ob') := (ObjOf(s, t), u.objs[s.calls[t].o]);
      ob'.init == ob.init && (ob'.readDone <==> ob.readDone || ob.init == t)
  {
  }

  lemma CallMarks(s: State, t: nat, call: CallStep, u: State, o: nat)
    requires CallTakes(s, t, call, u) && o < |s.objs|
    ensures Marked(s, ByCall(t, call), u, o)
  {
    if Looks(call) {
      LookMarks(s, t, call, u, o);
    } else {
      CallEffect(s, t, call, u);
      ObjectMarks(s, t, call, u);
      if call.MarksRead? {
        ReadMarks(s, t, u);
      }
    }
  }

  lemma GeneratorMarks(s: State, o': nat, gen: GenStep, u: State, o: nat)
    requires GenTakesStep(s, o', gen, u) && o < |s.objs|
    ensures o < |u.objs| && SameMark(s.objs[o], u.objs[o])
  {
  }

  lemma StepMarks(s: State, ev: Event, u: State, o: nat)
    requires Takes(s, ev, u) && o < |s.objs|
    ensures Marked(s, ev, u, o)
  {
    match ev
    case Spawn(key) =>
    case ByCall(t, call) => CallMarks(s, t, call, u, o);
    case ByGenerator(o', gen) => GeneratorMarks(s, o', gen, u, o);
  }

  lemma SecondLookUnmarked(s: State, t: nat, o: nat)
    requires At(s, t, SecondCheck) && |s.objs| <= o < |AfterSecondCheck(s, t).objs|
    ensures !AfterSecondCheck(s, t).objs[o].readDone
  {
  }

  lemma FirstLookAddsNone(s: State, t: nat)
    requires At(s, t, Begin)
    ensures |AfterFirstCheck(s, t).objs| == |s.objs|
  {
  }

  lemma NewIsUnmarked(s: State, ev: Event, u: State, o: nat)
    requires Takes(s, ev, u) && |s.objs| <= o < |u.objs|
    ensures !u.objs[o].readDone
  {
    match ev
    case Spawn(key) =>
    case ByCall(t, call) =>
      if call.SecondChecks? {
        SecondLookUnmarked(s, t, o);
      } else if call.FirstChecks? {
        FirstLookAddsNone(s, t);
      } else {
        CallEffect(s, t, call, u);
      }
    case ByGenerator(o', gen) => GeneratorEffect(s, o', gen, u);
  }

  ghost predicate HasGivenUp(run: seq<State>, events: seq<Event>, o: nat)
    requires |run| > |events|
  {
    exists i: nat | i < |events| :: GivesUp(run[i], events[i], o)
  }

  lemma EarlierOrLast(run: seq<State>, events: seq<Event>, o: nat)
    requires |run| == |events| + 1 && events != []
    ensures var n := |events| - 1;
      HasGivenUp(run, events, o) <==> HasGivenUp(run[..n + 1], events[..n], o) || GivesUp(run[n], events[n], o)
  {
    var n := |events| - 1;
    var (r, e) := (run[..n + 1], events[..n]);
    assert forall i: nat | i < n :: GivesUp(run[i], events[i], o) == GivesUp(r[i], e[i], o);
  }

  lemma {:induction false} MarkedOnce(run: seq<State>, events: seq<Event>, o: nat)
    requires IsRun(run, events) && o < |run[|events|].objs|
    ensures run[|events|].objs[o].readDone <==> HasGivenUp(run, events, o)
  {
    if events != [] {
      var n := |events| - 1;
      EarlierOrLast(run, events, o);
      if o < |run[n].objs| {
        MarkedOnce(run[..n + 1], events[..n], o);
        StepMarks(run[n], events[n], run[n + 1], o);
      } else {
        NewIsUnmarked(run[n], events[n], run[n + 1], o);
        NeverThere(run[..n + 1], events[..n], o);
      }
    }
  }

  lemma {:induction false} NeverThere(run: seq<State>, events: seq<Event>, o: nat)
    requires IsRun(run, events) && |run[|events|].objs| <= o
    ensures !HasGivenUp(run, events, o)
  {
    if events != [] {
      var n := |events| - 1;
      ObjectsStay(run[n], events[n], run[n + 1]);
      NeverThere(run[..n + 1], events[..n], o);
      EarlierOrLast(run, events, o);
    }
  }

  lemma ObjectsStay(s: State, ev: Event, u: State)
    requires Takes(s, ev, u)
    ensures |s.objs| <= |u.objs|
  {
    if |s.objs| > 0 {
      StepMarks(s, ev, u, |s.objs| - 1);
    }
  }

  // The finished article is not opened for its last user, who is asked to start again, in
  // exactly one case: that user is the one who started the generator, and it has given up
  // reading what was being written.
  lemma RestartsExactly(run: seq<State>, events: seq<Event>, o: nat, u: State)
    requires IsRun(run, events)
    requires var s := run[|events|]; Takes(s, ByGenerator(o, GenChecks), u)
    ensures var s := run[|events|];
      o < |s.objs| == |u.objs|
      && (u.objs[o].e == Some(Restart) <==> s.objs[o].holders == {s.objs[o].init} && HasGivenUp(run, events, o))
      && (u.objs[o].gen.Opening? <==> u.objs[o].e.None?)
  {
    var s := run[|events|];
    RunKeeps(run, events);
    MarkedOnce(run, events, o);
    CheckedAlone(s, o);
  }

  lemma CheckedAlone(s: State, o: nat)
    requires Inv(s) && GenAt(s, o, Checking)
    ensures var ob := s.objs[o];
      ob.e.None? && ob.f.None? && ob.init in ob.holders && (ob.n == 1 <==> ob.holders == {ob.init})
  {
    ObjHas(s, o);
    var ob := s.objs[o];
    if |ob.holders| == 1 {
      SingletonIs(ob.holders, ob.init);
    }
  }

  lemma SingletonIs(h: set<nat>, t: nat)
    requires |h| == 1 && t in h
    ensures h == {t}
  {
    assert |h - {t}| == 0;
  }
}
