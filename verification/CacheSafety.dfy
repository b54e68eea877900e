// What holds in every state the shared article cache can get into.
module CacheSafety {
  import opened Common
  import opened CachePub
  import opened CacheEngine
  import opened CacheInvariant
  import opened CacheSteps
  import opened CacheObjSteps
  import opened CacheGenSteps

  lemma CallStepKeeps(s: State, t: nat, call: CallStep, u: State)
    requires Inv(s) && CallTakes(s, t, call, u)
    ensures Inv(u)
  {
    match call
    case FirstChecks => KeepsFirstCheck(s, t);
    case SecondChecks => KeepsSecondCheck(s, t);
    case OpensPassive(r) => KeepsOpenPassive(s, t, r);
    case MakesTemp(r) => KeepsNewTemp(s, t, r);
    case PublishesPub => KeepsPublishPub(s, t);
    case PublishesFile => KeepsPublishFile(s, t);
    case TakesBroken => KeepsTakeBroken(s, t);
    case MarksBroken => KeepsMarkBroken(s, t);
    case Wakes => KeepsWake(s, t);
    case ReadsPub(k) => KeepsReadPub(s, t, k);
    case EndsPub(k, end) => KeepsEndPub(s, t, k, end);
    case ChecksErr => KeepsCheckErr(s, t);
    case WakesStable => KeepsWakeStable(s, t);
    case MarksRead => KeepsMarkRead(s, t);
    case JoinsGenerator => KeepsJoin(s, t);
    case ReadsFile(k) => KeepsReadFile(s, t, k);
    case EndsFile(k, end) => KeepsEndFile(s, t, k, end);
    case Unregisters => KeepsUnregister(s, t);
    case Removes => KeepsRemove(s, t);
    case Closes => KeepsClose(s, t);
    case Clears => KeepsClear(s, t);
  }

  lemma GenStepKeeps(s: State, o: nat, gen: GenStep, u: State)
    requires Inv(s) && GenTakesStep(s, o, gen, u)
    ensures Inv(u)
  {
    match gen
    case GenWrites(k) => KeepsGenWrite(s, o, k);
    case GenFinishes => KeepsGenReturn(s, o, EOF);
    case GenCancels(code) => KeepsGenReturn(s, o, Other(code));
    case GenCloses(r) => KeepsGenClose(s, o, r);
    case GenClears => KeepsGenClear(s, o);
    case GenRenames(r) => KeepsGenRename(s, o, r);
    case GenChecks => KeepsGenCheck(s, o);
    case GenOpens(r) => KeepsGenOpen(s, o, r);
    case GenPublishes => KeepsGenPublish(s, o);
    case GenTakes => KeepsGenTake(s, o);
    case GenMarks => KeepsGenMark(s, o);
  }

  lemma SpawnKeeps(s: State, key: Key, u: State)
    requires Inv(s) && Takes(s, Spawn(key), u)
    ensures Inv(u)
  {
    Frame(s, u, |s.calls|, |s.objs|);
    forall t: nat | t < |u.calls| ensures CallInv(u, t) {
      if t < |s.calls| {
        CallHas(s, t);
      }
    }
  }

  lemma StepKeeps(s: State, ev: Event, u: State)
    requires Inv(s) && Takes(s, ev, u)
    ensures Inv(u)
  {
    match ev
    case Spawn(key) => SpawnKeeps(s, key, u);
    case ByCall(t, call) => CallStepKeeps(s, t, call, u);
    case ByGenerator(o, gen) => GenStepKeeps(s, o, gen, u);
  }

  // ------------------------------------------------------------- all runs

  // The states of a run, and the events between them.
  ghost predicate IsRun(run: seq<State>, events: seq<Event>) {
    && |run| == |events| + 1 && Init(run[0])
    && forall i: nat | i < |events| :: Takes(run[i], events[i], run[i + 1])
  }

  ghost predicate Reachable(s: State) {
    exists run: seq<State>, events: seq<Event> :: IsRun(run, events) && run[|events|] == s
  }

  lemma {:induction false} RunKeeps(run: seq<State>, events: seq<Event>)
    requires IsRun(run, events)
    ensures Inv(run[|events|])
  {
    if events != [] {
      var n := |events| - 1;
      RunKeeps(run[..n + 1], events[..n]);
      StepKeeps(run[n], events[n], run[n + 1]);
    }
  }

  lemma AlwaysInv(s: State)
    requires Reachable(s)
    ensures Inv(s)
  {
    var run: seq<State>, events: seq<Event> :| IsRun(run, events) && run[|events|] == s;
    RunKeeps(run, events);
  }

  // The calls whose registration on o counts.
  ghost function Users(s: State, o: nat): set<nat> {
    set t: nat | t < |s.calls| && s.calls[t].reg && s.calls[t].o == o
  }

  // The count of an object in use is the number of its users.
  lemma CountIsExact(s: State, o: nat)
    requires Reachable(s) && o < |s.objs|
    ensures s.objs[o].n > 0 ==> s.objs[o].n == |Users(s, o)|
  {
    AlwaysInv(s);
    ObjHas(s, o);
    forall t: nat ensures t in Users(s, o) <==> t in s.objs[o].holders {
      if t < |s.calls| {
        CallHas(s, t);
      }
    }
    assert Users(s, o) == s.objs[o].holders;
  }

  // No file is closed twice, and none while a registered call reads it.
  lemma FilesAreSafe(s: State)
    requires Reachable(s)
    ensures forall h: nat | h < |s.handles| :: s.handles[h].closes <= 1
    ensures forall t: nat | t < |s.calls| && s.calls[t].pc.CopyFile? && s.calls[t].reg ::
      s.calls[t].fx.Some? && IsOpen(s, s.calls[t].fx.value)
  {
    AlwaysInv(s);
    forall t: nat | t < |s.calls| && s.calls[t].pc.CopyFile? && s.calls[t].reg
      ensures s.calls[t].fx.Some? && IsOpen(s, s.calls[t].fx.value)
    {
      CallHas(s, t);
      ObjHas(s, s.calls[t].o);
    }
  }

  // The call that started a generator is still a user when the generator publishes the
  // file or an error.
  lemma InitiatorIsUser(s: State, o: nat)
    requires Reachable(s) && o < |s.objs| && Generating(s.objs[o].gen)
    ensures s.objs[o].init in Users(s, o) && s.objs[o].n > 0
  {
    AlwaysInv(s);
    InitiatorStays(s, o);
  }

  // A call that was given the published file never finds the request to start again when
  // it falls back to the stable one.
  lemma NoRestartAtFallback(s: State, t: nat)
    requires Reachable(s) && At(s, t, WaitStable)
    ensures ObjOf(s, t).e != Some(Restart) && s.calls[t].reg
  {
    AlwaysInv(s);
    CallHas(s, t);
  }

  // Success means that the destination got exactly what the generator makes for the id,
  // wherever the pieces came from; and it never gets anything but a prefix of that.
  lemma SuccessIsComplete(s: State, t: nat)
    requires Reachable(s) && t < |s.calls|
    ensures s.calls[t].got <= s.content(s.calls[t].key)
    ensures s.calls[t].pc.Done? && s.calls[t].ex.None? ==> s.calls[t].got == s.content(s.calls[t].key)
  {
    AlwaysInv(s);
    CallHas(s, t);
  }

  // What is kept on disk is complete too.
  lemma StableIsComplete(s: State, key: Key)
    requires Reachable(s) && key in s.stable
    ensures s.stable[key] == s.content(key)
  {
    AlwaysInv(s);
  }
}
