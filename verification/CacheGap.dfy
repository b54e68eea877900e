// What the second check of the map does not look at.
module CacheGap {
  import opened Common
  import opened CachePub
  import opened CacheEngine
  import opened CacheInvariant
  import opened CacheGenSteps
  import opened CacheSafety
  import opened CacheProgress

  // The first check of the map turns away from an object whose count is zero, the second
  // one does not. In this run two calls find nothing in the map, one of them serves the
  // empty article from disk and starts to collect its object, and then the other one gets
  // past the second check.
  function Empty(key: Key): seq<Byte> {
    []
  }

  const FIRST := Call("a", Begin, 0, None, false, None, false, false, [])
  const SECOND := FIRST.(pc := SecondCheck)
  const INSERTED := FIRST.(pc := OpenPassive, reg := true)
  const READING := INSERTED.(pc := CopyFile, fx := Some(0))
  const COLLECTING := READING.(pc := GcMap, reg := false)
  const NEW := Obj("a", 1, None, false, None, Pub([], 0, None), 0, Idle, None, 0, false, {0}, None, false)
  const SERVED := NEW.(f := Some(0))
  const UNUSED := SERVED.(n := 0, holders := {}, collector := Some(0))
  const FILE := Handle(0, false, [], 0)

  ghost function At2(c0: Call, c1: Call, objs: seq<Obj>, handles: seq<Handle>, cache: map<Key, nat>): State {
    State(Empty, [c0, c1], objs, handles, cache, map["a" := []])
  }

  ghost function Run(): seq<State> {
    var m := map["a" := 0];
    var none: map<Key, nat> := map[];
    [State(Empty, [], [], [], none, map["a" := []]),
     State(Empty, [FIRST], [], [], none, map["a" := []]),
     At2(FIRST, FIRST, [], [], none),
     At2(FIRST, SECOND, [], [], none),
     At2(SECOND, SECOND, [], [], none),
     At2(INSERTED, SECOND, [NEW], [], m),
     At2(INSERTED.(pc := PublishFile, fx := Some(0)), SECOND, [NEW], [FILE], m),
     At2(READING, SECOND, [SERVED], [FILE], m),
     At2(READING.(pc := Unregister), SECOND, [SERVED], [FILE], m),
     At2(COLLECTING, SECOND, [UNUSED], [FILE], m),
     At2(COLLECTING, READING.(reg := false), [UNUSED], [FILE], m),
     At2(COLLECTING.(pc := GcClose), READING.(reg := false), [UNUSED.(retired := true)], [FILE], none),
     At2(COLLECTING.(pc := GcNil), READING.(reg := false), [UNUSED.(retired := true)], [FILE.(closes := 1)], none)]
  }

  ghost function Events(): seq<Event> {
    [Spawn("a"), Spawn("a"), ByCall(1, FirstChecks),
     ByCall(0, FirstChecks), ByCall(0, SecondChecks), ByCall(0, OpensPassive(Ok)), ByCall(0, PublishesFile),
     ByCall(0, EndsFile(0, None)), ByCall(0, Unregisters),
     ByCall(1, SecondChecks),
     ByCall(0, Removes), ByCall(0, Closes)]
  }

  lemma Arrives()
    ensures Takes(Run()[0], Events()[0], Run()[1]) && Takes(Run()[1], Events()[1], Run()[2]) && Takes(Run()[2], Events()[2], Run()[3])
  {
  }

  lemma Inserts()
    ensures Takes(Run()[3], Events()[3], Run()[4]) && Takes(Run()[4], Events()[4], Run()[5])
  {
  }

  lemma Opens()
    ensures Takes(Run()[5], Events()[5], Run()[6])
  {
  }

  lemma Publishes()
    ensures Takes(Run()[6], Events()[6], Run()[7])
  {
  }

  lemma Ends()
    ensures Takes(Run()[7], Events()[7], Run()[8])
  {
    assert AfterReadFile(Run()[7], 0, 0).calls[0].got == [];
    assert AfterEndFile(Run()[7], 0, 0, None).calls == Run()[8].calls;
  }

  lemma Leaves()
    ensures Takes(Run()[8], Events()[8], Run()[9])
  {
    assert {0} - {0} == {};
  }

  lemma SlipsPast()
    ensures Takes(Run()[9], Events()[9], Run()[10])
  {
  }

  lemma TakesOff()
    ensures Takes(Run()[10], Events()[10], Run()[11])
  {
    assert map["a" := 0] - {"a"} == map[];
  }

  lemma ClosesIt()
    ensures Takes(Run()[11], Events()[11], Run()[12])
  {
  }

  // So a call can be left reading a closed file; by FilesAreSafe, only one whose
  // registration did not count.
  lemma SecondCheckGap() returns (s: State, t: nat)
    ensures Reachable(s) && At(s, t, CopyFile) && !s.calls[t].reg
    ensures s.calls[t].fx.Some? && !IsOpen(s, s.calls[t].fx.value)
  {
    Arrives();
    Inserts();
    Opens();
    Publishes();
    Ends();
    Leaves();
    SlipsPast();
    TakesOff();
    ClosesIt();
    assert IsRun(Run(), Events());
    s, t := Run()[12], 1;
  }

  // ------------------------------------------------- when a reader is safe, exactly

  // A run from any state in which call t takes no step.
  ghost predicate Onward(run: seq<State>, events: seq<Event>, t: nat) {
    && |run| == |events| + 1
    && forall i: nat | i < |events| :: Takes(run[i], events[i], run[i + 1]) && Without(events[i], t)
  }

  ghost predicate Without(ev: Event, t: nat) {
    !ev.ByCall? || ev.t != t
  }

  ghost predicate FileOpen(s: State, t: nat) {
    t < |s.calls| && s.calls[t].fx.Some? && IsOpen(s, s.calls[t].fx.value)
  }

  // However the others go on while call t reads, the file it reads stays open.
  ghost predicate StaysOpen(s: State, t: nat) {
    forall run: seq<State>, events: seq<Event> | Onward(run, events, t) && run[0] == s :: FileOpen(run[|events|], t)
  }

  lemma StandsStill(s: State, ev: Event, u: State, t: nat)
    requires Inv(s) && Takes(s, ev, u) && Without(ev, t) && At(s, t, CopyFile)
    ensures At(u, t, CopyFile) && u.calls[t] == s.calls[t]
  {
    match ev
    case Spawn(key) =>
    case ByCall(t', call) => CallStandsStill(s, t', call, u, t);
    case ByGenerator(o, gen) =>
      if o < |s.objs| && Generating(s.objs[o].gen) {
        InitiatorStays(s, o);
      }
      GenStandsStill(s, o, gen, u, t);
  }

  lemma CallStandsStill(s: State, t': nat, call: CallStep, u: State, t: nat)
    requires CallTakes(s, t', call, u) && t' != t && At(s, t, CopyFile)
    ensures At(u, t, CopyFile) && u.calls[t] == s.calls[t]
  {
    if Visits(call) {
      VisitStandsStill(s, t', call, u, t);
    } else {
      MoveStandsStill(s, t', call, u, t);
    }
  }

  lemma VisitStandsStill(s: State, t': nat, call: CallStep, u: State, t: nat)
    requires CallTakes(s, t', call, u) && t' != t && At(s, t, CopyFile) && Visits(call)
    ensures At(u, t, CopyFile) && u.calls[t] == s.calls[t]
  {
  }

  lemma MoveStandsStill(s: State, t': nat, call: CallStep, u: State, t: nat)
    requires CallTakes(s, t', call, u) && t' != t && At(s, t, CopyFile) && !Visits(call)
    ensures At(u, t, CopyFile) && u.calls[t] == s.calls[t]
  {
  }

  lemma GenStandsStill(s: State, o: nat, gen: GenStep, u: State, t: nat)
    requires GenTakesStep(s, o, gen, u) && s.objs[o].init != t && At(s, t, CopyFile)
    ensures At(u, t, CopyFile) && u.calls[t] == s.calls[t]
  {
  }

  lemma {:induction false} OnwardKeeps(run: seq<State>, events: seq<Event>, t: nat)
    requires Onward(run, events, t) && Inv(run[0]) && At(run[0], t, CopyFile)
    ensures Inv(run[|events|]) && At(run[|events|], t, CopyFile) && run[|events|].calls[t] == run[0].calls[t]
  {
    if events != [] {
      var n := |events| - 1;
      OnwardKeeps(run[..n + 1], events[..n], t);
      StepKeeps(run[n], events[n], run[n + 1]);
      StandsStill(run[n], events[n], run[n + 1], t);
    }
  }

  lemma RegisteredReads(s: State, t: nat)
    requires Inv(s) && At(s, t, CopyFile) && s.calls[t].reg
    ensures FileOpen(s, t)
  {
    CallHas(s, t);
    ObjHas(s, s.calls[t].o);
  }

  lemma RegisteredStaysOpen(s: State, t: nat)
    requires Inv(s) && At(s, t, CopyFile) && s.calls[t].reg
    ensures StaysOpen(s, t)
  {
    forall run: seq<State>, events: seq<Event> | Onward(run, events, t) && run[0] == s ensures FileOpen(run[|events|], t) {
      OnwardKeeps(run, events, t);
      RegisteredReads(run[|events|], t);
    }
  }

  // The call that collects the object of an unregistered reader closes the reader's file.
  lemma UnregisteredIsCollected(s: State, t: nat)
    requires Inv(s) && At(s, t, CopyFile) && !s.calls[t].reg && FileOpen(s, t)
    ensures var v := ObjOf(s, t).collector;
      && v.Some? && v.value < |s.calls| && v.value != t && s.calls[v.value].fx == s.calls[t].fx
      && (At(s, v.value, GcMap) || At(s, v.value, GcClose))
  {
    CallHas(s, t);
    ObjHas(s, s.calls[t].o);
    CallHas(s, ObjOf(s, t).collector.value);
  }

  lemma CloseShuts(s: State, v: nat, t: nat)
    requires v != t && FileOpen(s, t) && At(s, v, GcClose) && s.calls[v].fx == s.calls[t].fx
    ensures Takes(s, ByCall(v, Closes), AfterClose(s, v)) && !FileOpen(AfterClose(s, v), t)
  {
  }

  lemma RemoveLeads(s: State, v: nat, t: nat)
    requires v != t && FileOpen(s, t) && At(s, v, GcMap) && s.calls[v].fx == s.calls[t].fx
    ensures var u := AfterRemove(s, v);
      && Takes(s, ByCall(v, Removes), u) && FileOpen(u, t) && At(u, v, GcClose) && u.calls[v].fx == u.calls[t].fx
  {
  }

  lemma CollectorCloses(s: State, v: nat, t: nat) returns (run: seq<State>, events: seq<Event>)
    requires v != t && FileOpen(s, t) && (At(s, v, GcMap) || At(s, v, GcClose)) && s.calls[v].fx == s.calls[t].fx
    ensures Onward(run, events, t) && run[0] == s && !FileOpen(run[|events|], t)
  {
    if At(s, v, GcClose) {
      CloseShuts(s, v, t);
      return [s, AfterClose(s, v)], [ByCall(v, Closes)];
    }
    var u := AfterRemove(s, v);
    RemoveLeads(s, v, t);
    CloseShuts(u, v, t);
    return [s, u, AfterClose(u, v)], [ByCall(v, Removes), ByCall(v, Closes)];
  }

  lemma UnregisteredIsClosed(s: State, t: nat)
    requires Inv(s) && At(s, t, CopyFile) && !s.calls[t].reg
    ensures !StaysOpen(s, t)
  {
    if FileOpen(s, t) {
      UnregisteredIsCollected(s, t);
      var run, events := CollectorCloses(s, ObjOf(s, t).collector.value, t);
    } else {
      assert Onward([s], [], t);
    }
  }

  // A reader of the shared file is safe from the others exactly if its registration
  // counted, that is, if it found the count of the object above zero.
  lemma SafeIfRegistered(s: State, t: nat)
    requires Reachable(s) && At(s, t, CopyFile)
    ensures StaysOpen(s, t) <==> s.calls[t].reg
  {
    AlwaysInv(s);
    if s.calls[t].reg {
      RegisteredStaysOpen(s, t);
    } else {
      UnregisteredIsClosed(s, t);
    }
  }
}
