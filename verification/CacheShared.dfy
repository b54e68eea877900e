// The calls for an article share one object: there is never a second one in use.
module CacheShared {
  import opened Common
  import opened CachePub
  import opened CacheEngine
  import opened CacheEffects
  import opened CacheInvariant
  import opened CacheGenSteps
  import opened CacheSafety
  import opened CacheReturn

  // An object somebody uses, and that no error has been posted for, is the one on the map.
  ghost predicate OnMap(s: State, o: nat)
    requires o < |s.objs|
  {
    s.objs[o].holders != {} && !Dead(s, o) ==> !TakenOff(s, o)
  }

  ghost predicate SharedInv(s: State) {
    forall o: nat | o < |s.objs| :: OnMap(s, o)
  }

  lemma SharedHas(s: State, o: nat)
    requires SharedInv(s) && o < |s.objs|
    ensures OnMap(s, o)
  {
  }

  // A look takes a user only to an object that is on the map, and nothing off it.
  ghost predicate LookShares(s: State, u: State, o: nat) {
    && o < |s.objs| <= |u.objs| && u.objs[o].key == s.objs[o].key
    && (!TakenOff(s, o) ==> !TakenOff(u, o)) && (u.objs[o].holders == s.objs[o].holders || !TakenOff(s, o))
  }

  lemma FirstLookShares(s: State, t: nat, o: nat)
    requires At(s, t, Begin) && o < |s.objs| && MapsOk(s)
    ensures LookShares(s, AfterFirstCheck(s, t), o)
  {
  }

  lemma SecondLookShares(s: State, t: nat, o: nat)
    requires At(s, t, SecondCheck) && o < |s.objs| && MapsOk(s)
    ensures LookShares(s, AfterSecondCheck(s, t), o)
  {
  }

  lemma NewIsOnMap(s: State, t: nat)
    requires At(s, t, SecondCheck)
    ensures var u := AfterSecondCheck(s, t);
      |u.objs| > |s.objs| ==> |u.objs| == |s.objs| + 1 && OnMap(u, |s.objs|)
  {
  }

  lemma LooksKeepShared(s: State, t: nat, call: CallStep, u: State)
    requires MapsOk(s) && SharedInv(s) && CallTakes(s, t, call, u) && Looks(call)
    ensures SharedInv(u)
  {
    forall o: nat | o < |u.objs| ensures OnMap(u, o) {
      if o < |s.objs| {
        SharedHas(s, o);
        if call.FirstChecks? {
          FirstLook(s, t, o);
          FirstLookShares(s, t, o);
        } else {
          SecondLook(s, t, o);
          SecondLookShares(s, t, o);
        }
        LookKeepsDeath(s, u, t, o);
      } else {
        NewIsOnMap(s, t);
      }
    }
  }

  lemma LookKeepsDeath(s: State, u: State, t: nat, o: nat)
    requires LookEffect(s, u, t, o)
    ensures Dead(s, o) <==> Dead(u, o)
  {
  }

  lemma EffectKeepsShared(s: State, u: State, t: nat, call: CallStep, o: nat)
    requires Effect(s, u, t, call) && o < |s.objs| && OnMap(s, o) && s.calls[t].key == s.objs[s.calls[t].o].key
    requires call.TakesBroken? ==> u.calls[t].pc.BrokenMark? && s.objs[s.calls[t].o].init == t
    requires call.Removes? ==> s.objs[s.calls[t].o].holders == {}
    requires s.calls[t].pc.BrokenMark? ==> call.MarksBroken? && Broken(u.objs[s.calls[t].o])
    requires call.MarksBroken? ==> Broken(u.objs[s.calls[t].o])
    requires call.PublishesPub? ==> s.objs[s.calls[t].o].gen.Idle?
    ensures OnMap(u, o)
  {
  }

  lemma BreakingHas(s: State, t: nat, call: CallStep, u: State)
    requires Inv(s) && CallTakes(s, t, call, u) && !Looks(call)
    ensures s.calls[t].o < |s.objs| && s.calls[t].key == s.objs[s.calls[t].o].key
    ensures call.Removes? ==> s.objs[s.calls[t].o].holders == {}
    ensures call.TakesBroken? ==> s.objs[s.calls[t].o].init == t
    ensures call.PublishesPub? ==> s.objs[s.calls[t].o].gen.Idle?
    ensures s.calls[t].pc.BrokenMark? ==> s.calls[t].ex.Some? && s.calls[t].ex != Some(Restart)
  {
    CallHas(s, t);
    ObjHas(s, s.calls[t].o);
  }

  lemma MarksDeath(s: State, t: nat, call: CallStep, u: State)
    requires CallTakes(s, t, call, u) && !Looks(call)
    ensures s.calls[t].pc.BrokenMark? <==> call.MarksBroken?
    ensures call.TakesBroken? ==> t < |u.calls| && u.calls[t].pc.BrokenMark?
    ensures call.MarksBroken? ==> s.calls[t].o < |u.objs| && u.objs[s.calls[t].o].e == s.calls[t].ex
  {
  }

  lemma CallKeepsShared(s: State, t: nat, call: CallStep, u: State)
    requires Inv(s) && SharedInv(s) && CallTakes(s, t, call, u)
    ensures SharedInv(u)
  {
    if Looks(call) {
      LooksKeepShared(s, t, call, u);
    } else {
      CallEffect(s, t, call, u);
      BreakingHas(s, t, call, u);
      MarksDeath(s, t, call, u);
      forall o: nat | o < |u.objs| ensures OnMap(u, o) {
        SharedHas(s, o);
        EffectKeepsShared(s, u, t, call, o);
      }
    }
  }

  lemma GenEffectKeepsShared(s: State, u: State, o': nat, gen: GenStep, o: nat)
    requires GenEffect(s, u, o', gen) && o < |s.objs| && OnMap(s, o)
    requires (s.objs[o'].gen.Marking? ==> Broken(u.objs[o'])) && s.objs[o'].e.None?
    ensures OnMap(u, o)
  {
  }

  lemma GenMarksDeath(s: State, o: nat, gen: GenStep, u: State)
    requires Inv(s) && GenTakesStep(s, o, gen, u) && s.objs[o].gen.Marking?
    ensures o < |u.objs| && Broken(u.objs[o])
  {
    ObjHas(s, o);
  }

  lemma GenKeepsShared(s: State, o': nat, gen: GenStep, u: State)
    requires Inv(s) && SharedInv(s) && GenTakesStep(s, o', gen, u)
    ensures SharedInv(u)
  {
    GeneratorEffect(s, o', gen, u);
    ObjHas(s, o');
    if s.objs[o'].gen.Marking? {
      GenMarksDeath(s, o', gen, u);
    }
    forall o: nat | o < |u.objs| ensures OnMap(u, o) {
      SharedHas(s, o);
      GenEffectKeepsShared(s, u, o', gen, o);
    }
  }

  lemma SpawnKeepsShared(s: State, key: Key, u: State)
    requires SharedInv(s) && Takes(s, Spawn(key), u)
    ensures SharedInv(u)
  {
    forall o: nat | o < |u.objs| ensures OnMap(u, o) {
      SharedHas(s, o);
    }
  }

  lemma StepKeepsShared(s: State, ev: Event, u: State)
    requires Inv(s) && SharedInv(s) && Takes(s, ev, u)
    ensures SharedInv(u)
  {
    match ev
    case Spawn(key) => SpawnKeepsShared(s, key, u);
    case ByCall(t, call) => CallKeepsShared(s, t, call, u);
    case ByGenerator(o, gen) => GenKeepsShared(s, o, gen, u);
  }

  lemma {:induction false} RunKeepsShared(run: seq<State>, events: seq<Event>)
    requires IsRun(run, events)
    ensures SharedInv(run[|events|])
  {
    if events != [] {
      var n := |events| - 1;
      RunKeepsShared(run[..n + 1], events[..n]);
      RunKeeps(run[..n + 1], events[..n]);
      StepKeepsShared(run[n], events[n], run[n + 1]);
    }
  }

  // Two objects for the same article that are both in use, with no error posted for them,
  // are the same. So no article is generated twice at a time.
  lemma OneObjectInUse(s: State, o: nat, o': nat)
    requires Reachable(s) && o < |s.objs| && o' < |s.objs| && s.objs[o].key == s.objs[o'].key
    requires s.objs[o].n > 0 && s.objs[o'].n > 0 && !Dead(s, o) && !Dead(s, o')
    ensures o == o'
  {
    var run: seq<State>, events: seq<Event> :| IsRun(run, events) && run[|events|] == s;
    RunKeeps(run, events);
    RunKeepsShared(run, events);
    ObjHas(s, o);
    ObjHas(s, o');
    SharedHas(s, o);
    SharedHas(s, o');
  }

  // Whoever writes an article is the only one to do so.
  lemma OneWriter(s: State, o: nat, o': nat)
    requires Reachable(s) && o < |s.objs| && o' < |s.objs| && s.objs[o].key == s.objs[o'].key
    requires s.objs[o].gen.Writing? && s.objs[o'].gen.Writing?
    ensures o == o'
  {
    AlwaysInv(s);
    InitiatorStays(s, o);
    InitiatorStays(s, o');
    ObjHas(s, o);
    ObjHas(s, o');
    OneObjectInUse(s, o, o');
  }
}
