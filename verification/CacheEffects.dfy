// What a step of the shared article cache can change at most.
module CacheEffects {
  import opened Common
  import opened CachePub
  import opened CacheEngine

  predicate Looks(call: CallStep) {
    call.FirstChecks? || call.SecondChecks?
  }

  // A call changes itself and its object, and takes nothing into the map.
  ghost predicate Effect(s: State, u: State, t: nat, call: CallStep) {
    && t < |s.calls| && s.calls[t].o < |s.objs|
    && |u.calls| == |s.calls| && u.calls == s.calls[t := u.calls[t]]
    && |u.objs| == |s.objs| && u.objs == s.objs[s.calls[t].o := u.objs[s.calls[t].o]]
    && u.content == s.content && u.stable == s.stable
    && u.calls[t].key == s.calls[t].key && u.calls[t].o == s.calls[t].o
    && ObjEffect(s.objs[s.calls[t].o], u.objs[s.calls[t].o], t, u.calls[t], call)
    && MapEffect(s, u, s.calls[t].key, s.calls[t].o, call.TakesBroken? || call.Removes?)
  }

  ghost predicate ObjEffect(ob: Obj, ob': Obj, t: nat, c': Call, call: CallStep) {
    && ob'.key == ob.key && ob'.init == ob.init && ob'.holders <= ob.holders && ob'.pub == ob.pub
    && (ob'.gen == ob.gen || call.PublishesPub?) && (ob'.e == ob.e || call.MarksBroken?)
    && (ob'.collector == ob.collector || (call.Unregisters? && ob'.collector == Some(t) && c'.pc.GcMap?))
    && ob'.retired == (ob.retired || call.Removes?)
    && (call.PublishesPub? ==> ob'.gen.Writing?)
  }

  ghost predicate MapEffect(s: State, u: State, key: Key, o: nat, off: bool) {
    u.cache == if off && key in s.cache && s.cache[key] == o then s.cache - {key} else s.cache
  }

  lemma MoveEffect(s: State, t: nat, c: Call, call: CallStep)
    requires t < |s.calls| && s.calls[t].o < |s.objs| && c.key == s.calls[t].key && c.o == s.calls[t].o
    requires !call.TakesBroken? && !call.Removes? && !call.PublishesPub?
    ensures Effect(s, SetCall(s, t, c), t, call)
  {
    assert s.objs[c.o := s.objs[c.o]] == s.objs;
  }

  lemma OpenEffect(s: State, t: nat, c: Call, call: CallStep, temp: bool, data: seq<Byte>)
    requires t < |s.calls| && s.calls[t].o < |s.objs| && c.key == s.calls[t].key && c.o == s.calls[t].o
    requires !call.TakesBroken? && !call.Removes? && !call.PublishesPub?
    ensures Effect(s, Open(SetCall(s, t, c), c.o, temp, data), t, call)
  {
    assert s.objs[c.o := s.objs[c.o]] == s.objs;
  }

  lemma CloseEffect(s: State, t: nat, c: Call, call: CallStep, h: nat)
    requires t < |s.calls| && s.calls[t].o < |s.objs| && c.key == s.calls[t].key && c.o == s.calls[t].o && h < |s.handles|
    requires !call.TakesBroken? && !call.Removes? && !call.PublishesPub?
    ensures Effect(s, Close(SetCall(s, t, c), h), t, call)
  {
    assert s.objs[c.o := s.objs[c.o]] == s.objs;
  }

  lemma TakeOffEffect(s: State, t: nat, c: Call)
    requires t < |s.calls| && s.calls[t].o < |s.objs| && c.key == s.calls[t].key && c.o == s.calls[t].o
    ensures Effect(s, TakeOff(SetCall(s, t, c), c.key, c.o), t, TakesBroken)
  {
    assert s.objs[c.o := s.objs[c.o]] == s.objs;
  }

  lemma BothEffect(s: State, t: nat, c: Call, ob: Obj, call: CallStep)
    requires t < |s.calls| && s.calls[t].o < |s.objs| && c.key == s.calls[t].key && c.o == s.calls[t].o
    requires ObjEffect(s.objs[c.o], ob, t, c, call) && !call.TakesBroken? && !call.Removes?
    ensures Effect(s, SetObj(SetCall(s, t, c), c.o, ob), t, call)
  {
  }

  lemma RemoveEffect(s: State, t: nat)
    requires At(s, t, GcMap)
    ensures Effect(s, AfterRemove(s, t), t, Removes)
  {
  }

  lemma ReadEffect(s: State, t: nat, call: CallStep, u: State)
    requires CallTakes(s, t, call, u) && (call.ReadsPub? || call.EndsPub? || call.ReadsFile? || call.EndsFile?)
    ensures Effect(s, u, t, call)
  {
    assert u == SetCall(s, t, u.calls[t]);
    MoveEffect(s, t, u.calls[t], call);
  }

  lemma OpensEffect(s: State, t: nat, call: CallStep, u: State)
    requires CallTakes(s, t, call, u) && (call.OpensPassive? || call.MakesTemp?)
    ensures Effect(s, u, t, call)
  {
    if |u.handles| == |s.handles| {
      MoveEffect(s, t, u.calls[t], call);
    } else {
      OpenEffect(s, t, u.calls[t], call, call.MakesTemp?, if call.MakesTemp? then [] else s.stable[s.calls[t].key]);
    }
  }

  lemma PlainEffect(s: State, t: nat, call: CallStep, u: State)
    requires CallTakes(s, t, call, u) && (call.Wakes? || call.ChecksErr? || call.WakesStable? || call.JoinsGenerator?)
    ensures Effect(s, u, t, call)
  {
    MoveEffect(s, t, u.calls[t], call);
  }

  lemma ObjectEffect(s: State, t: nat, call: CallStep, u: State)
    requires CallTakes(s, t, call, u)
    requires call.PublishesPub? || call.PublishesFile? || call.MarksBroken? || call.MarksRead? || call.Unregisters? || call.Clears?
    ensures Effect(s, u, t, call)
  {
    BothEffect(s, t, u.calls[t], u.objs[s.calls[t].o], call);
  }

  lemma CallEffect(s: State, t: nat, call: CallStep, u: State)
    requires CallTakes(s, t, call, u) && !Looks(call)
    ensures Effect(s, u, t, call)
  {
    if call.OpensPassive? || call.MakesTemp? {
      OpensEffect(s, t, call, u);
    } else if call.ReadsPub? || call.EndsPub? || call.ReadsFile? || call.EndsFile? {
      ReadEffect(s, t, call, u);
    } else if call.Wakes? || call.ChecksErr? || call.WakesStable? || call.JoinsGenerator? {
      PlainEffect(s, t, call, u);
    } else if call.TakesBroken? {
      TakeOffEffect(s, t, s.calls[t].(pc := BrokenMark));
    } else if call.Removes? {
      RemoveEffect(s, t);
    } else if call.Closes? {
      CloseEffect(s, t, s.calls[t].(pc := GcNil), call, s.calls[t].fx.value);
    } else {
      ObjectEffect(s, t, call, u);
    }
  }

  // How a call goes on: it is only asked to start over when it wakes up, and returns
  // otherwise.
  ghost predicate Advances(c: Call, c': Call, call: CallStep) {
    && Active(c.pc) && (c.pc.GcMap? ==> call.Removes?) && (c.pc.Wait? <==> call.Wakes?)
    && (c'.pc.BrokenMark? ==> call.TakesBroken?)
    && (c'.restart ==> c.restart || call.Wakes?) && (c'.pc.Begin? ==> c.restart)
    && !c'.pc.Wait? && !c'.pc.SecondCheck?
  }

  lemma EarlyAdvances(s: State, t: nat, call: CallStep, u: State)
    requires CallTakes(s, t, call, u)
    requires call.OpensPassive? || call.MakesTemp? || call.PublishesPub? || call.PublishesFile? || call.TakesBroken? || call.MarksBroken?
    ensures t < |u.calls| && Advances(s.calls[t], u.calls[t], call)
  {
  }

  lemma WakesAdvances(s: State, t: nat, u: State)
    requires CallTakes(s, t, Wakes, u) && Told(ObjOf(s, t))
    ensures t < |u.calls| && Advances(s.calls[t], u.calls[t], Wakes)
  {
  }

  lemma ReadsAdvances(s: State, t: nat, call: CallStep, u: State)
    requires CallTakes(s, t, call, u) && (call.ReadsPub? || call.EndsPub? || call.ReadsFile? || call.EndsFile?)
    ensures t < |u.calls| && Advances(s.calls[t], u.calls[t], call)
  {
  }

  lemma ChecksAdvances(s: State, t: nat, call: CallStep, u: State)
    requires CallTakes(s, t, call, u) && (call.ChecksErr? || call.WakesStable? || call.JoinsGenerator? || call.MarksRead?)
    ensures t < |u.calls| && Advances(s.calls[t], u.calls[t], call)
  {
  }

  lemma LeavesAdvances(s: State, t: nat, call: CallStep, u: State)
    requires CallTakes(s, t, call, u) && (call.Unregisters? || call.Removes? || call.Closes? || call.Clears?)
    ensures t < |u.calls| && Advances(s.calls[t], u.calls[t], call)
  {
  }

  lemma CallAdvances(s: State, t: nat, call: CallStep, u: State)
    requires CallTakes(s, t, call, u) && !Looks(call)
    ensures t < |u.calls| && Advances(s.calls[t], u.calls[t], call)
  {
    match call {
      case Wakes => WakesAdvances(s, t, u);
      case ReadsPub(k) => ReadsAdvances(s, t, call, u);
      case EndsPub(k, end) => ReadsAdvances(s, t, call, u);
      case ReadsFile(k) => ReadsAdvances(s, t, call, u);
      case EndsFile(k, end) => ReadsAdvances(s, t, call, u);
      case ChecksErr => ChecksAdvances(s, t, call, u);
      case WakesStable => ChecksAdvances(s, t, call, u);
      case JoinsGenerator => ChecksAdvances(s, t, call, u);
      case MarksRead => ChecksAdvances(s, t, call, u);
      case Unregisters => LeavesAdvances(s, t, call, u);
      case Removes => LeavesAdvances(s, t, call, u);
      case Closes => LeavesAdvances(s, t, call, u);
      case Clears => LeavesAdvances(s, t, call, u);
      case FirstChecks =>
      case SecondChecks =>
      case _ => EarlyAdvances(s, t, call, u);
    }
  }

  // ------------------------------------------------------------- generators

  // A generator changes its object, and the file of the call that started it.
  ghost predicate GenEffect(s: State, u: State, o: nat, gen: GenStep) {
    && o < |s.objs| && s.objs[o].init < |s.calls|
    && |u.objs| == |s.objs| && u.objs == s.objs[o := u.objs[o]]
    && |u.calls| == |s.calls| && u.calls == s.calls[s.objs[o].init := u.calls[s.objs[o].init]]
    && (u.calls == s.calls || gen.GenOpens?)
    && u.calls[s.objs[o].init] == s.calls[s.objs[o].init].(fx := u.calls[s.objs[o].init].fx)
    && u.content == s.content && (forall k <- s.stable :: k in u.stable)
    && GenObjEffect(s.objs[o], u.objs[o], gen)
    && MapEffect(s, u, s.objs[o].key, o, gen.GenTakes?)
  }

  ghost predicate GenObjEffect(ob: Obj, ob': Obj, gen: GenStep) {
    && ob'.key == ob.key && ob'.init == ob.init && ob'.holders == ob.holders
    && ob'.collector == ob.collector && ob'.retired == ob.retired && ob'.temp == ob.temp
    && !ob.gen.Idle? && !ob.gen.Ended?
    && (ob'.gen.Marking? <==> gen.GenTakes?)
    && (ob'.e == ob.e || (gen.GenChecks? && ob'.e == Some(Restart)) || (gen.GenMarks? && ob.gen.Marking?))
  }

  lemma GenObjMoves(s: State, o: nat, ob: Obj, gen: GenStep)
    requires o < |s.objs| && s.objs[o].init < |s.calls| && GenObjEffect(s.objs[o], ob, gen) && !gen.GenTakes?
    ensures GenEffect(s, SetObj(s, o, ob), o, gen)
  {
    assert s.calls[s.objs[o].init := s.calls[s.objs[o].init]] == s.calls;
  }

  lemma GenCloseEffect(s: State, o: nat, r: Outcome)
    requires GenAt(s, o, Closing) && s.calls[s.objs[o].init].fx.Some? && s.calls[s.objs[o].init].fx.value < |s.handles|
    ensures GenEffect(s, AfterGenClose(s, o, r), o, GenCloses(r))
  {
    assert s.calls[s.objs[o].init := s.calls[s.objs[o].init]] == s.calls;
  }

  lemma GenRenameEffect(s: State, o: nat, r: Outcome)
    requires GenAt(s, o, Renaming)
    ensures GenEffect(s, AfterGenRename(s, o, r), o, GenRenames(r))
  {
    assert s.calls[s.objs[o].init := s.calls[s.objs[o].init]] == s.calls;
  }

  lemma GenOpenEffect(s: State, o: nat, r: Outcome)
    requires GenAt(s, o, Opening) && (r.Ok? ==> s.objs[o].key in s.stable)
    ensures GenEffect(s, AfterGenOpen(s, o, r), o, GenOpens(r))
  {
  }

  lemma GenTakeEffect(s: State, o: nat)
    requires GenAt(s, o, Taking)
    ensures GenEffect(s, AfterGenTake(s, o), o, GenTakes)
  {
    assert s.calls[s.objs[o].init := s.calls[s.objs[o].init]] == s.calls;
  }

  lemma GeneratorEffect(s: State, o: nat, gen: GenStep, u: State)
    requires GenTakesStep(s, o, gen, u)
    ensures GenEffect(s, u, o, gen)
  {
    match gen
    case GenCloses(r) => GenCloseEffect(s, o, r);
    case GenRenames(r) => GenRenameEffect(s, o, r);
    case GenOpens(r) => GenOpenEffect(s, o, r);
    case GenTakes => GenTakeEffect(s, o);
    case _ => GenObjMoves(s, o, u.objs[o], gen);
  }
}
