// A call that has an object to itself is served, if nothing fails of its own accord.
module CacheServed {
  import opened Common
  import opened CachePub
  import opened CacheEngine
  import opened CacheEffects
  import opened CacheInvariant
  import opened CacheGenSteps
  import opened CacheSafety
  import opened CacheProgress
  import opened CacheWork
  import opened CacheReturn
  import opened CacheService

  ghost predicate GoingAway(pc: Pc) {
    pc.Unregister? || Collecting(pc)
  }

  ghost predicate Stored(gen: GenPc) {
    gen.Checking? || gen.Opening? || gen.Publishing? || gen.Ended?
  }

  // The only call on an object, on its way to success; `there` says whether the article is
  // on disk.
  ghost predicate OnItsWay(t: nat, c: Call, there: bool) {
    && Straight(c) && !c.pc.BrokenTake? && !c.pc.BrokenMark?
    && (PastPub(c.pc) || GoingAway(c.pc) ==> c.ex.None?)
    && (c.pc.PublishFile? || c.pc.CopyFile? || GoingAway(c.pc) ==> there)
    && (c.pc.CopyFile? ==> c.reg)
  }

  // Its object has not been harmed.
  ghost predicate Sound(t: nat, c: Call, ob: Obj, there: bool) {
    && ob.init == t && ob.key == c.key
    && (ob.e.None? || ob.e == Some(Restart)) && ob.genErr.None? && (ob.pub.err.None? || ob.pub.err == Some(EOF))
    && !ob.gen.Taking? && !ob.gen.Marking?
    && (Stored(ob.gen) ==> there)
    && (ob.gen.Writing? || ob.gen.Closing? ==> c.fx == Some(ob.temp))
    && (c.pc.CheckErr? ==> ob.pub.err == Some(EOF))
  }

  ghost predicate Fine(s: State, t: nat)
    requires t < |s.calls|
  {
    var c := s.calls[t];
    var there := c.key in s.stable;
    if Active(c.pc) then c.o < |s.objs| && OnItsWay(t, c, there) && Sound(t, c, s.objs[c.o], there)
    else c.pc.Done? && c.ex.None? && there
  }

  ghost predicate Alone(s: State, t: nat) {
    t < |s.calls| && forall t': nat | t' < |s.calls| && t' != t :: !Active(s.calls[t'].pc)
  }

  // ------------------------------------------------------------ its own steps

  lemma FineOpens(s: State, t: nat, call: CallStep, u: State)
    requires t < |s.calls| && Fine(s, t) && CallTakes(s, t, call, u) && Honest(s, t, call) && Opens(call) && ObjOf(s, t).gen.Idle?
    ensures t < |u.calls| && Fine(u, t)
  {
  }

  lemma FinePublishes(s: State, t: nat, call: CallStep, u: State)
    requires t < |s.calls| && Fine(s, t) && CallTakes(s, t, call, u) && Publishes(call)
    requires s.calls[t].reg && ObjOf(s, t).gen.Idle?
    ensures t < |u.calls| && Fine(u, t)
  {
  }

  lemma FineReads(s: State, t: nat, call: CallStep, u: State)
    requires t < |s.calls| && Fine(s, t) && CallTakes(s, t, call, u) && ReadsPart(call)
    ensures t < |u.calls| && Fine(u, t)
  {
  }

  lemma FineEndsPub(s: State, t: nat, k: nat, end: Option<Error>, u: State)
    requires t < |s.calls| && Fine(s, t) && CallTakes(s, t, EndsPub(k, end), u) && Honest(s, t, EndsPub(k, end))
    requires !IsOpen(s, ObjOf(s, t).temp) ==> ObjOf(s, t).pub.err.Some?
    ensures t < |u.calls| && Fine(u, t)
  {
  }

  lemma FineEndsFile(s: State, t: nat, k: nat, end: Option<Error>, u: State)
    requires t < |s.calls| && Fine(s, t) && CallTakes(s, t, EndsFile(k, end), u) && Honest(s, t, EndsFile(k, end))
    requires s.calls[t].fx.Some? && IsOpen(s, s.calls[t].fx.value)
    ensures t < |u.calls| && Fine(u, t)
  {
  }

  lemma FineChecks(s: State, t: nat, call: CallStep, u: State)
    requires t < |s.calls| && Fine(s, t) && CallTakes(s, t, call, u) && (call.ChecksErr? || call.JoinsGenerator? || call.MarksRead?)
    ensures t < |u.calls| && Fine(u, t)
  {
  }

  lemma FineWakes(s: State, t: nat, u: State)
    requires t < |s.calls| && Fine(s, t) && CallTakes(s, t, WakesStable, u) && s.calls[t].reg
    requires ObjOf(s, t).e != Some(Restart) && (ObjOf(s, t).f.Some? ==> ObjOf(s, t).gen.Ended?)
    ensures t < |u.calls| && Fine(u, t)
  {
  }

  lemma FineUnregisters(s: State, t: nat, u: State)
    requires t < |s.calls| && Fine(s, t) && CallTakes(s, t, Unregisters, u) && !Generating(ObjOf(s, t).gen)
    ensures t < |u.calls| && Fine(u, t)
  {
  }

  lemma FineCollects(s: State, t: nat, call: CallStep, u: State)
    requires t < |s.calls| && Fine(s, t) && CallTakes(s, t, call, u) && (call.Removes? || call.Closes? || call.Clears?)
    ensures t < |u.calls| && Fine(u, t)
  {
  }

  // What the invariant says of such a call and its object.
  lemma AtHand(s: State, t: nat)
    requires Inv(s) && t < |s.calls| && Active(s.calls[t].pc) && Fine(s, t)
    ensures var (c, ob) := (s.calls[t], ObjOf(s, t));
      && (Initiating(c.pc) ==> c.reg && ob.gen.Idle?)
      && (c.pc.CopyPub? && !IsOpen(s, ob.temp) ==> ob.pub.err.Some?)
      && (c.pc.CopyFile? ==> c.fx.Some? && IsOpen(s, c.fx.value))
      && (c.pc.WaitStable? ==> c.reg && ob.e != Some(Restart) && (ob.f.Some? ==> ob.gen.Ended?))
      && (c.pc.Unregister? ==> !Generating(ob.gen))
  {
    CallHas(s, t);
    ObjHas(s, s.calls[t].o);
  }

  lemma CallStaysFine(s: State, t: nat, call: CallStep, u: State)
    requires Inv(s) && t < |s.calls| && Active(s.calls[t].pc) && Fine(s, t)
    requires CallTakes(s, t, call, u) && Honest(s, t, call) && !Looks(call)
    ensures t < |u.calls| && Fine(u, t)
  {
    AtHand(s, t);
    match call {
      case OpensPassive(r) => FineOpens(s, t, call, u);
      case MakesTemp(r) => FineOpens(s, t, call, u);
      case PublishesPub => FinePublishes(s, t, call, u);
      case PublishesFile => FinePublishes(s, t, call, u);
      case ReadsPub(k) => FineReads(s, t, call, u);
      case ReadsFile(k) => FineReads(s, t, call, u);
      case EndsPub(k, end) => FineEndsPub(s, t, k, end, u);
      case EndsFile(k, end) => FineEndsFile(s, t, k, end, u);
      case WakesStable => FineWakes(s, t, u);
      case Unregisters => FineUnregisters(s, t, u);
      case Removes => FineCollects(s, t, call, u);
      case Closes => FineCollects(s, t, call, u);
      case Clears => FineCollects(s, t, call, u);
      case ChecksErr => FineChecks(s, t, call, u);
      case JoinsGenerator => FineChecks(s, t, call, u);
      case MarksRead => FineChecks(s, t, call, u);
      case _ =>
    }
  }

  // -------------------------------------------------- its generator's steps

  lemma FineWrites(s: State, o: nat, gen: GenStep, u: State, t: nat)
    requires t < |s.calls| && Fine(s, t) && Active(s.calls[t].pc) && s.calls[t].o == o
    requires GenTakesStep(s, o, gen, u) && GenHonest(s, o, gen) && (gen.GenWrites? || gen.GenFinishes? || gen.GenClears? || gen.GenPublishes?)
    ensures t < |u.calls| && Fine(u, t)
  {
  }

  lemma FineCloses(s: State, o: nat, r: Outcome, u: State, t: nat)
    requires t < |s.calls| && Fine(s, t) && Active(s.calls[t].pc) && s.calls[t].o == o
    requires GenTakesStep(s, o, GenCloses(r), u) && r.Ok?
    ensures t < |u.calls| && Fine(u, t)
  {
  }

  lemma FineRenames(s: State, o: nat, r: Outcome, u: State, t: nat)
    requires t < |s.calls| && Fine(s, t) && Active(s.calls[t].pc) && s.calls[t].o == o
    requires GenTakesStep(s, o, GenRenames(r), u) && r.Ok?
    ensures t < |u.calls| && Fine(u, t)
  {
  }

  lemma FineGenChecks(s: State, o: nat, u: State, t: nat)
    requires t < |s.calls| && Fine(s, t) && Active(s.calls[t].pc) && s.calls[t].o == o
    requires GenTakesStep(s, o, GenChecks, u)
    ensures t < |u.calls| && Fine(u, t)
  {
  }

  lemma FineGenOpens(s: State, o: nat, r: Outcome, u: State, t: nat)
    requires t < |s.calls| && Fine(s, t) && Active(s.calls[t].pc) && s.calls[t].o == o
    requires GenTakesStep(s, o, GenOpens(r), u) && GenHonest(s, o, GenOpens(r))
    ensures t < |u.calls| && Fine(u, t)
  {
  }

  lemma GenStaysFine(s: State, o: nat, gen: GenStep, u: State, t: nat)
    requires t < |s.calls| && Fine(s, t) && Active(s.calls[t].pc) && s.calls[t].o == o
    requires GenTakesStep(s, o, gen, u) && GenHonest(s, o, gen)
    ensures t < |u.calls| && Fine(u, t)
  {
    match gen {
      case GenCloses(r) => FineCloses(s, o, r, u, t);
      case GenRenames(r) => FineRenames(s, o, r, u, t);
      case GenChecks => FineGenChecks(s, o, u, t);
      case GenOpens(r) => FineGenOpens(s, o, r, u, t);
      case GenWrites(k) => FineWrites(s, o, gen, u, t);
      case GenFinishes => FineWrites(s, o, gen, u, t);
      case GenClears => FineWrites(s, o, gen, u, t);
      case GenPublishes => FineWrites(s, o, gen, u, t);
      case _ =>
    }
  }

  // ------------------------------------------------------- the whole way

  lemma OnlyItMoves(s: State, ev: Event, u: State, t: nat)
    requires Inv(s) && Proceeds(s, ev, u) && Alone(s, t)
    ensures Active(s.calls[t].pc)
    ensures ev.ByCall? ==> ev.t == t
    ensures ev.ByGenerator? ==> s.calls[t].o == ev.o
  {
    match ev
    case ByCall(t', call) =>
      CallAdvances(s, t', call, u);
    case ByGenerator(o, gen) =>
      GeneratorEffect(s, o, gen, u);
      InitiatorStays(s, o);
  }

  lemma ProceedsFine(s: State, ev: Event, u: State, t: nat)
    requires Inv(s) && Proceeds(s, ev, u) && Alone(s, t) && Fine(s, t)
    ensures Alone(u, t) && Fine(u, t)
  {
    OnlyItMoves(s, ev, u, t);
    ProceedKept(s, ev, u);
    forall t': nat | t' < |u.calls| && t' != t ensures !Active(u.calls[t'].pc) {
      assert CallKept(s.calls[t'], u.calls[t']);
    }
    match ev
    case ByCall(_, call) => CallStaysFine(s, t, call, u);
    case ByGenerator(o, gen) => GenStaysFine(s, o, gen, u, t);
  }

  lemma {:induction false} StaysFine(s: State, events: seq<Event>, u: State, t: nat)
    requires Inv(s) && ProceedsTo(s, events, u) && Alone(s, t) && Fine(s, t)
    ensures Alone(u, t) && Fine(u, t) && Inv(u)
    decreases |events|
  {
    if events != [] {
      var v: State :| Proceeds(s, events[0], v) && Chain(Proceeds, v, events[1..], u);
      ProceedKeeps(s, events[0], v);
      ProceedsFine(s, events[0], v, t);
      StaysFine(v, events[1..], u, t);
    }
  }

  lemma FreshIsFine(s: State, u: State, t: nat)
    requires Fresh(s, u, t) && NoneActive(s)
    ensures Alone(u, t) && Fine(u, t)
  {
  }

  // The call has been served: it returned without an error, its destination has the whole
  // content, and the article is on disk.
  ghost predicate IsServed(s: State, t: nat) {
    && t < |s.calls| && s.calls[t].pc.Done? && s.calls[t].ex.None?
    && s.calls[t].got == s.content(s.calls[t].key) && s.calls[t].key in s.stable
  }

  // A call that has just made its object, while no other call works on one, is served
  // whatever the schedule: nothing but finitely many steps can happen before it returns, it
  // does not wait for ever, and it returns with success.
  lemma LoneIsServed(s: State, u: State, t: nat)
    requires Inv(u) && Fresh(s, u, t) && NoneActive(s)
    ensures forall events: seq<Event>, v: State | ProceedsTo(u, events, v) ::
      && |events| <= Work(u)
      && (IsServed(v, t) || exists ev: Event, w: State :: Proceeds(v, ev, w))
  {
    FreshIsFine(s, u, t);
    forall events: seq<Event>, v: State | ProceedsTo(u, events, v)
      ensures |events| <= Work(u) && (IsServed(v, t) || exists ev: Event, w: State :: Proceeds(v, ev, w))
    {
      ProceedIsBounded(u, events, v);
      StaysFine(u, events, v, t);
      if Active(v.calls[t].pc) {
        var ev, w := ActiveProceeds(v, t);
      } else {
        CallHas(v, t);
      }
    }
  }

  // Every call that is about to look at the map, in every state the cache can get into, can
  // be served: steps at which nothing fails of its own accord lead it to success and all
  // other calls to their return, whatever has failed before.
  lemma EveryCallCanBeServed(s: State, t: nat)
    requires Reachable(s) && t < |s.calls| && s.calls[t].pc.Begin?
    ensures exists u: State :: Leads(s, u) && IsServed(u, t) && |u.calls| == |s.calls| && DoneBelow(u, |u.calls|)
  {
    AlwaysInv(s);
    AlwaysMapInv(s);
    var before, v := Settles(s);
    ProceedsKept(s, before, v);
    ProceedLeads(s, before, v);
    assert CallKept(s.calls[t], v.calls[t]);
    var w, x, events := OneReturns(v, t);
    FreshIsFine(v, x, t);
    StaysFine(x, events, w, t);
    CallHas(w, t);
    assert IsServed(w, t);
    var u := RestReturn(w, 0);
    LeadsOn(s, v, w);
    LeadsOn(s, w, u);
  }

  lemma ReachableOn(s: State, ev: Event, u: State)
    requires Reachable(s) && Takes(s, ev, u)
    ensures Reachable(u)
  {
    var run: seq<State>, events: seq<Event> :| IsRun(run, events) && run[|events|] == s;
    var (run', events') := (run + [u], events + [ev]);
    forall i: nat | i < |events'| ensures Takes(run'[i], events'[i], run'[i + 1]) {
      if i < |events| {
        assert run'[i] == run[i] && run'[i + 1] == run[i + 1];
      }
    }
    assert IsRun(run', events') && run'[|events'|] == u;
  }

  // So can a call for any article that comes in in any such state, on disk or not.
  lemma AnyArticleCanBeServed(s: State, key: Key)
    requires Reachable(s)
    ensures exists v: State, u: State :: Takes(s, Spawn(key), v) && Leads(v, u) && IsServed(u, |s.calls|) && u.calls[|s.calls|].key == key
  {
    var v := s.(calls := s.calls + [Call(key, Begin, 0, None, false, None, false, false, [])]);
    var t := |s.calls|;
    assert Takes(s, Spawn(key), v);
    ReachableOn(s, Spawn(key), v);
    EveryCallCanBeServed(v, t);
    var u: State :| Leads(v, u) && IsServed(u, t);
    LeadsKeepsKey(v, u, t);
  }

  lemma HonestKeepsKey(s: State, ev: Event, u: State, t: nat)
    requires Honestly(s, ev, u) && t < |s.calls|
    ensures t < |u.calls| && u.calls[t].key == s.calls[t].key
  {
    match ev
    case ByCall(t', call) =>
      if !Looks(call) {
        CallEffect(s, t', call, u);
      }
    case ByGenerator(o, gen) => GeneratorEffect(s, o, gen, u);
  }

  lemma {:induction false} ChainKeepsKey(s: State, events: seq<Event>, u: State, t: nat)
    requires Chain(Honestly, s, events, u) && t < |s.calls|
    ensures t < |u.calls| && u.calls[t].key == s.calls[t].key
    decreases |events|
  {
    if events != [] {
      var v: State :| Honestly(s, events[0], v) && Chain(Honestly, v, events[1..], u);
      HonestKeepsKey(s, events[0], v, t);
      ChainKeepsKey(v, events[1..], u, t);
    }
  }

  lemma LeadsKeepsKey(s: State, u: State, t: nat)
    requires Leads(s, u) && t < |s.calls|
    ensures t < |u.calls| && u.calls[t].key == s.calls[t].key
  {
    var events: seq<Event> :| Chain(Honestly, s, events, u);
    ChainKeepsKey(s, events, u, t);
  }
}
