// Steps at which nothing fails of its own accord can lead every call to its return.
module CacheReturn {
  import opened Common
  import opened CachePub
  import opened CacheEngine
  import opened CacheEffects
  import opened CacheInvariant
  import opened CacheGenSteps
  import opened CacheSafety
  import opened CacheProgress
  import opened CacheWork

  // ---------------------------------------------------- what else is kept

  // The object has been taken off the map, or replaced there.
  ghost predicate TakenOff(s: State, o: nat)
    requires o < |s.objs|
  {
    s.objs[o].key in s.cache ==> s.cache[s.objs[o].key] != o
  }

  // An error has been posted, or is about to be.
  ghost predicate Dead(s: State, o: nat)
    requires o < |s.objs|
  {
    var ob := s.objs[o];
    Broken(ob) || ob.gen.Marking? || (ob.init < |s.calls| && s.calls[ob.init].pc.BrokenMark? && s.calls[ob.init].o == o)
  }

  // The collector has not come to the map yet.
  ghost predicate Removing(o: nat, ob: Obj, calls: seq<Call>) {
    && ob.collector.Some? && ob.collector.value < |calls|
    && calls[ob.collector.value].pc.GcMap? && calls[ob.collector.value].o == o
  }

  ghost predicate MapObj(s: State, o: nat)
    requires o < |s.objs|
  {
    && (Dead(s, o) ==> TakenOff(s, o))
    && (s.objs[o].collector.Some? && !s.objs[o].retired ==> Removing(o, s.objs[o], s.calls))
  }

  ghost predicate MapInv(s: State) {
    forall o: nat | o < |s.objs| :: MapObj(s, o)
  }

  lemma MapHas(s: State, o: nat)
    requires MapInv(s) && o < |s.objs|
    ensures MapObj(s, o)
  {
  }

  // ---- calls that look at the map

  // A look leaves everything of an object but who uses it.
  ghost predicate LookEffect(s: State, u: State, t: nat, o: nat) {
    && o < |s.objs| <= |u.objs| && t < |s.calls| && !Active(s.calls[t].pc)
    && |u.calls| == |s.calls| && u.calls == s.calls[t := u.calls[t]] && !u.calls[t].pc.BrokenMark?
    && u.objs[o] == s.objs[o].(n := u.objs[o].n, holders := u.objs[o].holders)
    && (s.objs[o].key in u.cache && u.cache[s.objs[o].key] == o ==> s.objs[o].key in s.cache && s.cache[s.objs[o].key] == o)
  }

  lemma FirstLook(s: State, t: nat, o: nat)
    requires At(s, t, Begin) && o < |s.objs|
    ensures LookEffect(s, AfterFirstCheck(s, t), t, o)
  {
  }

  lemma SecondLook(s: State, t: nat, o: nat)
    requires At(s, t, SecondCheck) && o < |s.objs|
    ensures LookEffect(s, AfterSecondCheck(s, t), t, o)
  {
  }

  lemma LookKeepsMap(s: State, u: State, t: nat, o: nat)
    requires LookEffect(s, u, t, o) && MapObj(s, o)
    ensures MapObj(u, o)
  {
  }

  // A new object is on the map, and used by the call that made it.
  lemma NewHas(s: State, t: nat)
    requires At(s, t, SecondCheck)
    ensures var u := AfterSecondCheck(s, t);
      |u.objs| > |s.objs| ==> |u.objs| == |s.objs| + 1 && MapObj(u, |s.objs|)
  {
  }

  lemma LooksKeepMap(s: State, t: nat, call: CallStep, u: State)
    requires MapInv(s) && CallTakes(s, t, call, u) && Looks(call)
    ensures MapInv(u)
  {
    forall o: nat | o < |u.objs| ensures MapObj(u, o) {
      if o < |s.objs| {
        MapHas(s, o);
        if call.FirstChecks? {
          FirstLook(s, t, o);
        } else {
          SecondLook(s, t, o);
        }
        LookKeepsMap(s, u, t, o);
      } else {
        NewHas(s, t);
      }
    }
  }

  // ---- all other steps

  lemma EffectKeepsMap(s: State, u: State, t: nat, call: CallStep, o: nat)
    requires Effect(s, u, t, call) && Advances(s.calls[t], u.calls[t], call) && o < |s.objs| && MapObj(s, o)
    requires s.calls[t].key == s.objs[s.calls[t].o].key && (call.MarksBroken? ==> s.objs[s.calls[t].o].init == t && s.calls[t].pc.BrokenMark?)
    ensures MapObj(u, o)
  {
  }

  lemma CallKeepsMap(s: State, t: nat, call: CallStep, u: State)
    requires Inv(s) && MapInv(s) && CallTakes(s, t, call, u)
    ensures MapInv(u)
  {
    if Looks(call) {
      LooksKeepMap(s, t, call, u);
    } else {
      CallEffect(s, t, call, u);
      CallAdvances(s, t, call, u);
      CallHas(s, t);
      forall o: nat | o < |u.objs| ensures MapObj(u, o) {
        MapHas(s, o);
        EffectKeepsMap(s, u, t, call, o);
      }
    }
  }

  lemma GenEffectKeepsMap(s: State, u: State, o': nat, gen: GenStep, o: nat)
    requires GenEffect(s, u, o', gen) && o < |s.objs| && MapObj(s, o)
    ensures MapObj(u, o)
  {
  }

  lemma GenKeepsMap(s: State, o': nat, gen: GenStep, u: State)
    requires MapInv(s) && GenTakesStep(s, o', gen, u)
    ensures MapInv(u)
  {
    GeneratorEffect(s, o', gen, u);
    forall o: nat | o < |u.objs| ensures MapObj(u, o) {
      MapHas(s, o);
      GenEffectKeepsMap(s, u, o', gen, o);
    }
  }

  lemma SpawnKeepsMap(s: State, key: Key, u: State)
    requires Inv(s) && MapInv(s) && Takes(s, Spawn(key), u)
    ensures MapInv(u)
  {
    forall o: nat | o < |u.objs| ensures MapObj(u, o) {
      MapHas(s, o);
    }
  }

  lemma StepKeepsMap(s: State, ev: Event, u: State)
    requires Inv(s) && MapInv(s) && Takes(s, ev, u)
    ensures MapInv(u)
  {
    match ev
    case Spawn(key) => SpawnKeepsMap(s, key, u);
    case ByCall(t, call) => CallKeepsMap(s, t, call, u);
    case ByGenerator(o, gen) => GenKeepsMap(s, o, gen, u);
  }

  lemma {:induction false} RunKeepsMap(run: seq<State>, events: seq<Event>)
    requires IsRun(run, events)
    ensures MapInv(run[|events|])
  {
    if events != [] {
      var n := |events| - 1;
      RunKeepsMap(run[..n + 1], events[..n]);
      RunKeeps(run[..n + 1], events[..n]);
      StepKeepsMap(run[n], events[n], run[n + 1]);
    }
  }

  lemma AlwaysMapInv(s: State)
    requires Reachable(s)
    ensures MapInv(s)
  {
    var run: seq<State>, events: seq<Event> :| IsRun(run, events) && run[|events|] == s;
    RunKeepsMap(run, events);
  }

  // ------------------------------------------------------------- honest runs

  // A step at which nothing fails of its own accord; no call arrives.
  ghost predicate Honestly(s: State, ev: Event, u: State) {
    match ev
    case Spawn(key) => false
    case ByCall(t, call) =>
      CallTakes(s, t, call, u) && t < |s.calls| && (Active(s.calls[t].pc) ==> s.calls[t].o < |s.objs|) && Honest(s, t, call)
    case ByGenerator(o, gen) => GenTakesStep(s, o, gen, u) && o < |s.objs| && GenHonest(s, o, gen)
  }

  // What proceeds without a look at the map.
  ghost predicate Proceeds(s: State, ev: Event, u: State) {
    Honestly(s, ev, u) && (ev.ByCall? ==> !Looks(ev.call))
  }

  // The events lead from one state to another, one step after the other.
  ghost predicate Chain(step: (State, Event, State) -> bool, s: State, events: seq<Event>, u: State)
    decreases |events|
  {
    if events == [] then s == u
    else exists v: State :: step(s, events[0], v) && Chain(step, v, events[1..], u)
  }

  lemma {:induction false} ChainOn(step: (State, Event, State) -> bool, s: State, e1: seq<Event>, u: State, e2: seq<Event>, v: State)
    requires Chain(step, s, e1, u) && Chain(step, u, e2, v)
    ensures Chain(step, s, e1 + e2, v)
    decreases |e1|
  {
    if e1 == [] {
      assert e1 + e2 == e2;
    } else {
      var w: State :| step(s, e1[0], w) && Chain(step, w, e1[1..], u);
      ChainOn(step, w, e1[1..], u, e2, v);
      assert (e1 + e2)[1..] == e1[1..] + e2;
    }
  }

  lemma ChainFirst(step: (State, Event, State) -> bool, s: State, ev: Event, v: State, events: seq<Event>, u: State)
    requires step(s, ev, v) && Chain(step, v, events, u)
    ensures Chain(step, s, [ev] + events, u)
  {
    assert ([ev] + events)[1..] == events;
  }

  ghost predicate Leads(s: State, u: State) {
    exists events: seq<Event> :: Chain(Honestly, s, events, u)
  }

  lemma LeadsOn(s: State, u: State, v: State)
    requires Leads(s, u) && Leads(u, v)
    ensures Leads(s, v)
  {
    var e1: seq<Event> :| Chain(Honestly, s, e1, u);
    var e2: seq<Event> :| Chain(Honestly, u, e2, v);
    ChainOn(Honestly, s, e1, u, e2, v);
  }

  lemma LeadsToItself(s: State)
    ensures Leads(s, s)
  {
    assert Chain(Honestly, s, [], s);
  }

  lemma LeadsOneStep(s: State, ev: Event, u: State)
    requires Honestly(s, ev, u)
    ensures Leads(s, u)
  {
    assert Chain(Honestly, u, [], u);
    ChainFirst(Honestly, s, ev, u, [], u);
  }

  lemma HonestTakes(s: State, ev: Event, u: State)
    requires Honestly(s, ev, u)
    ensures Takes(s, ev, u)
  {
  }

  // A run of steps that proceed.
  ghost predicate ProceedsTo(s: State, events: seq<Event>, u: State) {
    Chain(Proceeds, s, events, u)
  }

  lemma {:induction false} ProceedLeads(s: State, events: seq<Event>, u: State)
    requires ProceedsTo(s, events, u)
    ensures Leads(s, u)
    decreases |events|
  {
    if events == [] {
      LeadsToItself(s);
    } else {
      var v: State :| Proceeds(s, events[0], v) && Chain(Proceeds, v, events[1..], u);
      ProceedLeads(v, events[1..], u);
      LeadsOneStep(s, events[0], v);
      LeadsOn(s, v, u);
    }
  }

  lemma ProceedWorkFalls(s: State, ev: Event, u: State)
    requires Inv(s) && Proceeds(s, ev, u)
    ensures Work(u) < Work(s)
  {
    match ev
    case ByCall(t, call) => CallWorkFalls(s, t, call, u);
    case ByGenerator(o, gen) => GenWorkFalls(s, o, gen, u);
  }

  lemma ProceedKeeps(s: State, ev: Event, u: State)
    requires Inv(s) && Proceeds(s, ev, u)
    ensures Inv(u)
  {
    HonestTakes(s, ev, u);
    StepKeeps(s, ev, u);
  }

  // Whatever the schedule, there are no more such steps than there is work.
  lemma {:induction false} ProceedIsBounded(s: State, events: seq<Event>, u: State)
    requires ProceedsTo(s, events, u) && Inv(s)
    ensures |events| + Work(u) <= Work(s)
    decreases |events|
  {
    if events != [] {
      var v: State :| Proceeds(s, events[0], v) && Chain(Proceeds, v, events[1..], u);
      ProceedKeeps(s, events[0], v);
      ProceedWorkFalls(s, events[0], v);
      ProceedIsBounded(v, events[1..], u);
    }
  }

  // ----------------------------------------------------- until nobody is active

  lemma CallProceeds(s: State, t: nat) returns (ev: Event, u: State)
    requires CallMoves(s, t) && t < |s.calls| && Active(s.calls[t].pc)
    ensures Proceeds(s, ev, u)
  {
    var call: CallStep, v: State :| CallTakes(s, t, call, v) && Honest(s, t, call);
    ev, u := ByCall(t, call), v;
    LooksIdle(s, t, call, u);
  }

  lemma LooksIdle(s: State, t: nat, call: CallStep, u: State)
    requires CallTakes(s, t, call, u)
    ensures Looks(call) ==> !Active(s.calls[t].pc)
  {
  }

  lemma GenProceeds(s: State, o: nat) returns (ev: Event, u: State)
    requires GenMoves(s, o)
    ensures Proceeds(s, ev, u)
  {
    var gen: GenStep, v: State :| GenTakesStep(s, o, gen, v) && GenHonest(s, o, gen);
    ev, u := ByGenerator(o, gen), v;
  }

  // As long as a call works on an object, somebody proceeds.
  lemma ActiveProceeds(s: State, t: nat) returns (ev: Event, u: State)
    requires Inv(s) && t < |s.calls| && Active(s.calls[t].pc)
    ensures Proceeds(s, ev, u)
  {
    if Waiting(s, t) {
      WaiterIsServed(s, t);
      if CallMoves(s, t) {
        ev, u := CallProceeds(s, t);
      } else if GenMoves(s, s.calls[t].o) {
        ev, u := GenProceeds(s, s.calls[t].o);
      } else {
        ev, u := CallProceeds(s, ObjOf(s, t).init);
      }
    } else {
      WorkingCallMoves(s, t);
      ev, u := CallProceeds(s, t);
    }
  }

  ghost predicate NoneActive(s: State) {
    forall t: nat | t < |s.calls| :: !Active(s.calls[t].pc)
  }

  lemma {:induction false} Settles(s: State) returns (events: seq<Event>, u: State)
    requires Inv(s)
    ensures ProceedsTo(s, events, u) && NoneActive(u)
    decreases Work(s)
  {
    if NoneActive(s) {
      return [], s;
    }
    var t: nat :| t < |s.calls| && Active(s.calls[t].pc);
    var ev, v := ActiveProceeds(s, t);
    ProceedWorkFalls(s, ev, v);
    ProceedKeeps(s, ev, v);
    var more;
    more, u := Settles(v);
    events := [ev] + more;
    ChainFirst(Proceeds, s, ev, v, more, u);
  }
}
