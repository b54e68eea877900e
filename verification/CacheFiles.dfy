// No file is forgotten: whatever the article cache opens is closed once all calls have
// returned.
module CacheFiles {
  import opened Common
  import opened CachePub
  import opened CacheEngine
  import opened CacheEffects
  import opened CacheInvariant
  import opened CacheGenSteps
  import opened CacheSafety
  import opened CacheReturn

  // Who is going to close an open file: the generator that writes it, or whoever collects
  // its object; c is the call that has made the object.
  ghost predicate HeldBy(temp: bool, ob: Obj, c: Call, o: nat, h: nat) {
    if temp then c.fx == Some(h) && ((c.pc.PublishPub? && c.o == o) || ob.gen.Writing? || ob.gen.Closing?)
    else ob.f == Some(h) || (c.fx == Some(h) && ((c.pc.PublishFile? && c.o == o) || ob.gen.Publishing?))
  }

  ghost predicate Held(s: State, h: nat)
    requires h < |s.handles|
  {
    var o := s.handles[h].owner;
    o < |s.objs| && s.objs[o].init < |s.calls| && HeldBy(s.handles[h].temp, s.objs[o], s.calls[s.objs[o].init], o, h)
  }

  ghost predicate FilesInv(s: State) {
    forall h: nat | h < |s.handles| && s.handles[h].closes == 0 :: Held(s, h)
  }

  // Files are neither replaced nor opened again.
  ghost predicate FilesStay(s: State, u: State) {
    && |s.handles| <= |u.handles|
    && forall h: nat | h < |s.handles| ::
      u.handles[h].owner == s.handles[h].owner && u.handles[h].temp == s.handles[h].temp
      && (u.handles[h].closes == 0 ==> s.handles[h].closes == 0)
  }

  // ------------------------------------------------------------ steps of calls

  // What a step of a call does to the files, the object and the call.
  ghost predicate FileEffect(ob: Obj, ob': Obj, c: Call, c': Call, call: CallStep) {
    && ob'.init == ob.init && c'.o == c.o
    && (ob'.gen == ob.gen || (call.PublishesPub? && ob'.gen.Writing?))
    && (ob'.f == ob.f || (call.PublishesFile? && ob'.f == c.fx) || c.pc.GcNil?)
    && (c.pc.PublishPub? ==> c'.fx == c.fx && ob'.gen.Writing?)
    && (c.pc.PublishFile? ==> ob'.f == c.fx)
    && (call.PublishesPub? ==> c.pc.PublishPub?) && (call.PublishesFile? ==> c.pc.PublishFile?)
    && (FromPub(c.pc) || PastPub(c.pc) ==> c'.fx == c.fx || ob.f.Some? || ob.e.Some?)
  }

  // What it opens is its own to publish, and nothing else is lost or added.
  ghost predicate Filed(s: State, u: State, t: nat, call: CallStep) {
    && t < |s.calls| && t < |u.calls| && s.calls[t].o < |s.objs| && s.calls[t].o < |u.objs|
    && FilesStay(s, u) && |u.handles| <= |s.handles| + 1
    && FileEffect(s.objs[s.calls[t].o], u.objs[s.calls[t].o], s.calls[t], u.calls[t], call)
    && (|u.handles| > |s.handles| ==>
      var (h, c) := (u.handles[|s.handles|], u.calls[t]);
      h.owner == c.o && c.fx == Some(|s.handles|) && if h.temp then c.pc.PublishPub? else c.pc.PublishFile?)
  }

  lemma PublishFiles(s: State, t: nat, call: CallStep, u: State)
    requires CallTakes(s, t, call, u) && (call.PublishesPub? || call.PublishesFile? || call.Clears?)
    ensures Filed(s, u, t, call)
  {
  }

  lemma OpensFiles(s: State, t: nat, call: CallStep, u: State)
    requires CallTakes(s, t, call, u) && (call.OpensPassive? || call.MakesTemp?)
    ensures Filed(s, u, t, call)
  {
  }

  lemma ClosesFiles(s: State, t: nat, u: State)
    requires CallTakes(s, t, Closes, u)
    ensures Filed(s, u, t, Closes)
  {
  }

  lemma ReadsFiles(s: State, t: nat, call: CallStep, u: State)
    requires CallTakes(s, t, call, u)
    requires call.ReadsPub? || call.EndsPub? || call.ReadsFile? || call.EndsFile? || call.ChecksErr?
    ensures Filed(s, u, t, call)
  {
  }

  lemma WaitsFiles(s: State, t: nat, call: CallStep, u: State)
    requires CallTakes(s, t, call, u)
    requires call.Wakes? || call.WakesStable? || call.MarksRead? || call.JoinsGenerator? || call.TakesBroken? || call.MarksBroken?
    ensures Filed(s, u, t, call)
  {
  }

  lemma LeavesFiles(s: State, t: nat, call: CallStep, u: State)
    requires CallTakes(s, t, call, u) && (call.Unregisters? || call.Removes?)
    ensures Filed(s, u, t, call)
  {
  }

  lemma CallFiles(s: State, t: nat, call: CallStep, u: State)
    requires CallTakes(s, t, call, u) && !Looks(call)
    ensures Filed(s, u, t, call)
  {
    if call.PublishesPub? || call.PublishesFile? || call.Clears? {
      PublishFiles(s, t, call, u);
    } else if call.OpensPassive? || call.MakesTemp? {
      OpensFiles(s, t, call, u);
    } else if call.Closes? {
      ClosesFiles(s, t, u);
    } else if call.Unregisters? || call.Removes? {
      LeavesFiles(s, t, call, u);
    } else if call.ReadsPub? || call.EndsPub? || call.ReadsFile? || call.EndsFile? || call.ChecksErr? {
      ReadsFiles(s, t, call, u);
    } else {
      WaitsFiles(s, t, call, u);
    }
  }

  // The call that has made the object of the file is the one that moves, or another one.
  lemma StillHeld(temp: bool, ob: Obj, ob': Obj, c: Call, c': Call, d: Call, d': Call, o: nat, h: nat, call: CallStep)
    requires HeldBy(temp, ob, c, o, h) && FileEffect(ob, ob', d, d', call) && d.o == o
    requires (c == d && c' == d') || (c == c' && !d.pc.PublishPub? && !d.pc.PublishFile?)
    requires (d.pc.GcNil? ==> ob.f != Some(h)) && (d.pc.PublishFile? ==> ob.f.None?)
    requires Generating(ob.gen) ==> (FromPub(c.pc) || PastPub(c.pc)) && ob.f.None? && ob.e.None?
    ensures HeldBy(temp, ob', c', o, h)
  {
  }

  lemma CallKeepsHeld(s: State, t: nat, call: CallStep, u: State, h: nat)
    requires Inv(s) && CallTakes(s, t, call, u) && !Looks(call)
    requires h < |s.handles| && h < |u.handles| && u.handles[h].closes == 0 && s.handles[h].closes == 0 && Held(s, h)
    ensures Held(u, h)
  {
    CallEffect(s, t, call, u);
    CallFiles(s, t, call, u);
    var o := s.handles[h].owner;
    var (i, d) := (s.objs[o].init, s.calls[t]);
    CallHas(s, t);
    ObjHas(s, o);
    if d.o == o {
      StillHeld(s.handles[h].temp, s.objs[o], u.objs[o], s.calls[i], u.calls[i], d, u.calls[t], o, h, call);
    }
  }

  lemma CallKeepsFiles(s: State, t: nat, call: CallStep, u: State)
    requires Inv(s) && FilesInv(s) && CallTakes(s, t, call, u) && !Looks(call)
    ensures FilesInv(u)
  {
    CallFiles(s, t, call, u);
    CallEffect(s, t, call, u);
    CallHas(s, t);
    forall h: nat | h < |u.handles| && u.handles[h].closes == 0 ensures Held(u, h) {
      if h < |s.handles| {
        CallKeepsHeld(s, t, call, u, h);
      } else {
        NewIsHeld(s, t, call, u);
      }
    }
  }

  lemma NewIsHeld(s: State, t: nat, call: CallStep, u: State)
    requires Inv(s) && CallTakes(s, t, call, u) && !Looks(call) && |u.handles| > |s.handles|
    ensures Held(u, |s.handles|)
  {
    CallFiles(s, t, call, u);
    CallEffect(s, t, call, u);
    OpeningInitiates(s, t, call, u);
  }

  lemma OpeningInitiates(s: State, t: nat, call: CallStep, u: State)
    requires Inv(s) && CallTakes(s, t, call, u) && !Looks(call) && |u.handles| > |s.handles|
    ensures ObjOf(s, t).init == t
  {
    CallHas(s, t);
    OnlyOpensAdd(s, t, call, u);
  }

  lemma OnlyOpensAdd(s: State, t: nat, call: CallStep, u: State)
    requires CallTakes(s, t, call, u) && !Looks(call) && |u.handles| > |s.handles|
    ensures Initiating(s.calls[t].pc)
  {
  }

  lemma LookChangesNone(s: State, t: nat, call: CallStep, u: State, o: nat)
    requires CallTakes(s, t, call, u) && Looks(call) && o < |s.objs|
    ensures u.handles == s.handles && |u.calls| == |s.calls| && o < |u.objs|
    ensures u.objs[o].init == s.objs[o].init && u.objs[o].gen == s.objs[o].gen && u.objs[o].f == s.objs[o].f
    ensures !Active(s.calls[t].pc) && forall t': nat | t' < |s.calls| && t' != t :: u.calls[t'] == s.calls[t']
  {
  }

  lemma LookKeepsFiles(s: State, t: nat, call: CallStep, u: State)
    requires Inv(s) && FilesInv(s) && CallTakes(s, t, call, u) && Looks(call)
    ensures FilesInv(u)
  {
    LookAddsNone(s, t, call, u);
    forall h: nat | h < |u.handles| && u.handles[h].closes == 0 ensures Held(u, h) {
      assert Held(s, h);
      var o := s.handles[h].owner;
      LookChangesNone(s, t, call, u, o);
      ObjHas(s, o);
    }
  }

  lemma LookAddsNone(s: State, t: nat, call: CallStep, u: State)
    requires CallTakes(s, t, call, u) && Looks(call)
    ensures u.handles == s.handles
  {
  }

  // ------------------------------------------------------- steps of generators

  ghost predicate GenFileEffect(s: State, u: State, o: nat)
    requires o < |s.objs| && o < |u.objs| && s.objs[o].init < |s.calls| && s.objs[o].init < |u.calls|
  {
    var (ob, ob') := (s.objs[o], u.objs[o]);
    var (c, c') := (s.calls[ob.init], u.calls[ob.init]);
    && FilesStay(s, u) && |u.handles| <= |s.handles| + 1
    && (ob'.f == ob.f || (ob.gen.Publishing? && ob'.f == c.fx))
    && (ob.gen.Writing? ==> (ob'.gen.Writing? || ob'.gen.Closing?) && c'.fx == c.fx)
    && (ob.gen.Closing? ==> forall h: nat | c.fx == Some(h) && h < |u.handles| :: u.handles[h].closes > 0)
    && (ob.gen.Publishing? ==> ob'.f == c.fx)
    && (|u.handles| > |s.handles| ==> u.handles[|s.handles|].owner == o && !u.handles[|s.handles|].temp && ob'.gen.Publishing? && c'.fx == Some(|s.handles|))
  }

  lemma WriterFiles(s: State, o: nat, gen: GenStep, u: State)
    requires GenTakesStep(s, o, gen, u) && (gen.GenWrites? || gen.GenFinishes? || gen.GenCancels? || gen.GenCloses?)
    ensures |u.objs| == |s.objs| && |u.calls| == |s.calls| && u.objs[o].init == s.objs[o].init
    ensures GenFileEffect(s, u, o)
  {
  }

  lemma FinisherFiles(s: State, o: nat, gen: GenStep, u: State)
    requires GenTakesStep(s, o, gen, u) && (gen.GenClears? || gen.GenRenames? || gen.GenChecks? || gen.GenTakes? || gen.GenMarks?)
    ensures |u.objs| == |s.objs| && |u.calls| == |s.calls| && u.objs[o].init == s.objs[o].init
    ensures GenFileEffect(s, u, o)
  {
  }

  lemma OpenerFiles(s: State, o: nat, gen: GenStep, u: State)
    requires GenTakesStep(s, o, gen, u) && (gen.GenOpens? || gen.GenPublishes?)
    ensures |u.objs| == |s.objs| && |u.calls| == |s.calls| && u.objs[o].init == s.objs[o].init
    ensures GenFileEffect(s, u, o)
  {
  }

  lemma GenFiles(s: State, o: nat, gen: GenStep, u: State)
    requires GenTakesStep(s, o, gen, u)
    ensures |u.objs| == |s.objs| && |u.calls| == |s.calls| && u.objs[o].init == s.objs[o].init
    ensures GenFileEffect(s, u, o)
  {
    if gen.GenWrites? || gen.GenFinishes? || gen.GenCancels? || gen.GenCloses? {
      WriterFiles(s, o, gen, u);
    } else if gen.GenOpens? || gen.GenPublishes? {
      OpenerFiles(s, o, gen, u);
    } else {
      FinisherFiles(s, o, gen, u);
    }
  }

  lemma GenKeepsHeld(s: State, o': nat, gen: GenStep, u: State, h: nat)
    requires Inv(s) && GenTakesStep(s, o', gen, u)
    requires h < |s.handles| && h < |u.handles| && u.handles[h].closes == 0 && s.handles[h].closes == 0 && Held(s, h)
    ensures Held(u, h)
  {
    GeneratorEffect(s, o', gen, u);
    GenFiles(s, o', gen, u);
    ObjHas(s, o');
    ObjHas(s, s.handles[h].owner);
  }

  lemma GenKeepsFiles(s: State, o: nat, gen: GenStep, u: State)
    requires Inv(s) && FilesInv(s) && GenTakesStep(s, o, gen, u)
    ensures FilesInv(u)
  {
    GenFiles(s, o, gen, u);
    forall h: nat | h < |u.handles| && u.handles[h].closes == 0 ensures Held(u, h) {
      if h < |s.handles| {
        GenKeepsHeld(s, o, gen, u, h);
      }
    }
  }

  // ------------------------------------------------------------------ all runs

  lemma SpawnKeepsFiles(s: State, key: Key, u: State)
    requires FilesInv(s) && Takes(s, Spawn(key), u)
    ensures FilesInv(u)
  {
    forall h: nat | h < |u.handles| && u.handles[h].closes == 0 ensures Held(u, h) {
      assert Held(s, h);
    }
  }

  lemma StepKeepsFiles(s: State, ev: Event, u: State)
    requires Inv(s) && FilesInv(s) && Takes(s, ev, u)
    ensures FilesInv(u)
  {
    match ev
    case Spawn(key) => SpawnKeepsFiles(s, key, u);
    case ByCall(t, call) =>
      if Looks(call) {
        LookKeepsFiles(s, t, call, u);
      } else {
        CallKeepsFiles(s, t, call, u);
      }
    case ByGenerator(o, gen) => GenKeepsFiles(s, o, gen, u);
  }

  lemma {:induction false} RunKeepsFiles(run: seq<State>, events: seq<Event>)
    requires IsRun(run, events)
    ensures FilesInv(run[|events|])
  {
    if events != [] {
      var n := |events| - 1;
      RunKeepsFiles(run[..n + 1], events[..n]);
      RunKeeps(run[..n + 1], events[..n]);
      StepKeepsFiles(run[n], events[n], run[n + 1]);
    }
  }

  // With no call at work nobody holds a file any more.
  lemma NobodyHolds(s: State, h: nat)
    requires Inv(s) && NoneActive(s) && h < |s.handles| && Held(s, h)
    ensures s.handles[h].closes > 0
  {
    var o := s.handles[h].owner;
    ObjHas(s, o);
  }

  // Whatever has been opened, by a call or by a generator, has been closed exactly once when
  // no call is at work.
  lemma NoFileIsForgotten(s: State)
    requires Reachable(s) && NoneActive(s)
    ensures forall h: nat | h < |s.handles| :: s.handles[h].closes == 1
  {
    var run: seq<State>, events: seq<Event> :| IsRun(run, events) && run[|events|] == s;
    RunKeeps(run, events);
    RunKeepsFiles(run, events);
    forall h: nat | h < |s.handles| ensures s.handles[h].closes == 1 {
      if s.handles[h].closes == 0 {
        NobodyHolds(s, h);
      }
    }
  }
}
