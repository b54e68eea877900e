// The shared article cache never gets stuck, and a count that reached zero stays there.
module CacheProgress {
  import opened Common
  import opened CachePub
  import opened CacheEngine
  import opened CacheInvariant
  import opened CacheGenSteps
  import opened CacheSafety

  // The steps of a call in which it may come to an object or leave it.
  ghost predicate Visits(call: CallStep) {
    call.FirstChecks? || call.SecondChecks? || call.Unregisters? || call.Removes?
  }

  lemma VisitZeroStays(s: State, t: nat, call: CallStep, u: State, o: nat)
    requires CallTakes(s, t, call, u) && Visits(call) && o < |s.objs| && s.objs[o].n == 0
    ensures o < |u.objs| && u.objs[o].n == 0
  {
  }

  lemma CallZeroStays(s: State, t: nat, call: CallStep, u: State, o: nat)
    requires CallTakes(s, t, call, u) && !Visits(call) && o < |s.objs| && s.objs[o].n == 0
    ensures o < |u.objs| && u.objs[o].n == 0
  {
  }

  lemma GenZeroStays(s: State, o': nat, gen: GenStep, u: State, o: nat)
    requires GenTakesStep(s, o', gen, u) && o < |s.objs| && s.objs[o].n == 0
    ensures o < |u.objs| && u.objs[o].n == 0
  {
  }

  // An object that nobody uses is never used again.
  lemma ZeroStays(s: State, ev: Event, u: State, o: nat)
    requires Takes(s, ev, u) && o < |s.objs| && s.objs[o].n == 0
    ensures o < |u.objs| && u.objs[o].n == 0
  {
    match ev
    case Spawn(key) =>
    case ByCall(t, call) =>
      if Visits(call) {
        VisitZeroStays(s, t, call, u, o);
      } else {
        CallZeroStays(s, t, call, u, o);
      }
    case ByGenerator(o', gen) => GenZeroStays(s, o', gen, u, o);
  }

  // ---------------------------------------------------------------- progress

  // What a file that is there, or is not, answers.
  ghost function Found(s: State, key: Key): Outcome {
    if key in s.stable then Ok else Missing
  }

  // Nothing more has been published than the reader has got, and no end of it.
  ghost predicate Drained(c: Call, pub: Pub) {
    |c.got| == |pub.file| && pub.err.None?
  }

  // Why a copy from the published file ends: the reader has got all of it and its end, or
  // the file was closed before that.
  ghost predicate EndsFor(s: State, c: Call, ob: Obj, end: Option<Error>) {
    if |c.got| < |ob.pub.file| then !IsOpen(s, ob.temp) && end == Some(Closed)
    else ob.pub.err.Some? && end == (if ob.pub.err == Some(EOF) then None else ob.pub.err)
  }

  // A step of a call at which nothing fails of its own accord: files answer what is true of
  // them, a destination takes what it is given, and a copy moves or ends for a reason.
  ghost predicate Honest(s: State, t: nat, call: CallStep)
    requires t < |s.calls| && (Active(s.calls[t].pc) ==> s.calls[t].o < |s.objs|)
  {
    var c := s.calls[t];
    match call
    case OpensPassive(r) => r == Found(s, c.key)
    case MakesTemp(r) => r.Ok?
    case ReadsPub(k) => k > 0
    case EndsPub(k, end) => k == 0 && c.pc.CopyPub? && EndsFor(s, c, ObjOf(s, t), end)
    case ReadsFile(k) => k > 0
    case EndsFile(k, end) => k == 0 && c.fx.Some? && (if IsOpen(s, c.fx.value) then end.None? else end == Some(Closed))
    case _ => true
  }

  // The same of a step of a generator, which does not give up either.
  ghost predicate GenHonest(s: State, o: nat, gen: GenStep)
    requires o < |s.objs|
  {
    match gen
    case GenWrites(k) => k > 0
    case GenCancels(code) => false
    case GenCloses(r) => r.Ok?
    case GenRenames(r) => r.Ok?
    case GenOpens(r) => r == Found(s, s.objs[o].key)
    case _ => true
  }

  ghost predicate CallMoves(s: State, t: nat) {
    && t < |s.calls| && (Active(s.calls[t].pc) ==> s.calls[t].o < |s.objs|)
    && exists call: CallStep, u: State :: CallTakes(s, t, call, u) && Honest(s, t, call)
  }

  ghost predicate GenMoves(s: State, o: nat) {
    o < |s.objs| && exists gen: GenStep, u: State :: GenTakesStep(s, o, gen, u) && GenHonest(s, o, gen)
  }

  // A call waits on the condition variable of its object, for the generator it started, or
  // in a read of the published file.
  ghost predicate Waiting(s: State, t: nat) {
    && t < |s.calls|
    && (s.calls[t].pc.Wait? || s.calls[t].pc.WaitStable? || s.calls[t].pc.WaitGenerator? || Blocked(s, t))
  }

  ghost predicate Blocked(s: State, t: nat) {
    At(s, t, CopyPub) && Drained(s.calls[t], ObjOf(s, t).pub)
  }

  // A reader that has got all that is published waits for a generator that is still
  // writing: no published file is left without an end.
  lemma BlockedOnWriter(s: State, t: nat)
    requires Inv(s) && Blocked(s, t)
    ensures ObjOf(s, t).gen.Writing? && GenMoves(s, s.calls[t].o)
  {
    CallHas(s, t);
    ObjHas(s, s.calls[t].o);
    GeneratorMoves(s, s.calls[t].o);
  }

  lemma InitiatingCallMoves(s: State, t: nat)
    requires Inv(s) && t < |s.calls| && Initiating(s.calls[t].pc)
    ensures CallMoves(s, t)
  {
    CallHas(s, t);
    match s.calls[t].pc
    case OpenPassive =>
      var r := Found(s, s.calls[t].key);
      assert CallTakes(s, t, OpensPassive(r), AfterOpenPassive(s, t, r));
    case NewTemp => assert CallTakes(s, t, MakesTemp(Ok), AfterNewTemp(s, t, Ok));
    case PublishPub => assert CallTakes(s, t, PublishesPub, AfterPublishPub(s, t));
    case PublishFile => assert CallTakes(s, t, PublishesFile, AfterPublishFile(s, t));
    case BrokenTake => assert CallTakes(s, t, TakesBroken, AfterTakeBroken(s, t));
    case BrokenMark => assert CallTakes(s, t, MarksBroken, AfterMarkBroken(s, t));
  }

  lemma LeavingCallMoves(s: State, t: nat)
    requires Inv(s) && t < |s.calls| && (Collecting(s.calls[t].pc) || s.calls[t].pc.Unregister?)
    ensures CallMoves(s, t)
  {
    CallHas(s, t);
    match s.calls[t].pc
    case Unregister => assert CallTakes(s, t, Unregisters, AfterUnregister(s, t));
    case GcMap => assert CallTakes(s, t, Removes, AfterRemove(s, t));
    case GcClose => assert CallTakes(s, t, Closes, AfterClose(s, t));
    case GcNil => assert CallTakes(s, t, Clears, AfterClear(s, t));
  }

  // A reader of the published file that is not blocked gets more of it, or its end.
  lemma PubReaderMoves(s: State, t: nat)
    requires Inv(s) && t < |s.calls| && s.calls[t].pc.CopyPub? && !Blocked(s, t)
    ensures CallMoves(s, t)
  {
    CallHas(s, t);
    var (c, ob) := (s.calls[t], ObjOf(s, t));
    if |c.got| < |ob.pub.file| && IsOpen(s, ob.temp) {
      assert CallTakes(s, t, ReadsPub(1), AfterReadPub(s, t, 1));
    } else {
      var end := if |c.got| < |ob.pub.file| then Some(Closed) else if ob.pub.err == Some(EOF) then None else ob.pub.err;
      assert CallTakes(s, t, EndsPub(0, end), AfterEndPub(s, t, 0, end));
    }
  }

  lemma FileReaderMoves(s: State, t: nat)
    requires Inv(s) && t < |s.calls| && s.calls[t].pc.CopyFile?
    ensures CallMoves(s, t)
  {
    CallHas(s, t);
    var c := s.calls[t];
    if !IsOpen(s, c.fx.value) {
      assert CallTakes(s, t, EndsFile(0, Some(Closed)), AfterEndFile(s, t, 0, Some(Closed)));
    } else if |c.got| < |s.handles[c.fx.value].data| {
      assert CallTakes(s, t, ReadsFile(1), AfterReadFile(s, t, 1));
    } else {
      assert CallTakes(s, t, EndsFile(0, None), AfterEndFile(s, t, 0, None));
    }
  }

  lemma WorkingCallMoves(s: State, t: nat)
    requires Inv(s) && t < |s.calls| && !Waiting(s, t) && !s.calls[t].pc.Done?
    ensures CallMoves(s, t)
  {
    var pc := s.calls[t].pc;
    if Initiating(pc) {
      InitiatingCallMoves(s, t);
    } else if Collecting(pc) || pc.Unregister? {
      LeavingCallMoves(s, t);
    } else if pc.CopyPub? {
      PubReaderMoves(s, t);
    } else if pc.CopyFile? {
      FileReaderMoves(s, t);
    } else {
      CallHas(s, t);
      match pc
      case Begin => assert CallTakes(s, t, FirstChecks, AfterFirstCheck(s, t));
      case SecondCheck => assert CallTakes(s, t, SecondChecks, AfterSecondCheck(s, t));
      case CheckErr => assert CallTakes(s, t, ChecksErr, AfterCheckErr(s, t));
      case MarkRead => assert CallTakes(s, t, MarksRead, AfterMarkRead(s, t));
    }
  }

  // The writer goes on to the end of the content, or has reached it and finishes.
  lemma WriterMoves(s: State, o: nat)
    requires Inv(s) && GenAt(s, o, Writing)
    ensures GenMoves(s, o)
  {
    ObjHas(s, o);
    var content := s.content(s.objs[o].key);
    if |s.objs[o].pub.file| < |content| {
      assert GenTakesStep(s, o, GenWrites(1), AfterGenWrite(s, o, 1));
    } else {
      assert s.objs[o].pub.file == content;
      assert GenTakesStep(s, o, GenFinishes, AfterGenReturn(s, o, EOF));
    }
  }

  lemma GeneratorMoves(s: State, o: nat)
    requires Inv(s) && o < |s.objs| && Generating(s.objs[o].gen)
    ensures GenMoves(s, o)
  {
    InitiatorStays(s, o);
    ObjHas(s, o);
    match s.objs[o].gen
    case Writing => WriterMoves(s, o);
    case Closing => assert GenTakesStep(s, o, GenCloses(Ok), AfterGenClose(s, o, Ok));
    case Clearing => assert GenTakesStep(s, o, GenClears, AfterGenClear(s, o));
    case Renaming => assert GenTakesStep(s, o, GenRenames(Ok), AfterGenRename(s, o, Ok));
    case Checking => assert GenTakesStep(s, o, GenChecks, AfterGenCheck(s, o));
    case Opening =>
      var r := Found(s, s.objs[o].key);
      assert GenTakesStep(s, o, GenOpens(r), AfterGenOpen(s, o, r));
    case Publishing => assert GenTakesStep(s, o, GenPublishes, AfterGenPublish(s, o));
    case Taking => assert GenTakesStep(s, o, GenTakes, AfterGenTake(s, o));
    case Marking => assert GenTakesStep(s, o, GenMarks, AfterGenMark(s, o));
  }

  // Somebody a waiting call depends on can take a step: itself, the generator of its
  // object, or the call that is about to start one.
  lemma WaiterIsServed(s: State, t: nat)
    requires Inv(s) && Waiting(s, t)
    ensures s.calls[t].o < |s.objs|
    ensures
      || CallMoves(s, t) || GenMoves(s, s.calls[t].o)
      || (CallMoves(s, ObjOf(s, t).init) && Initiating(s.calls[ObjOf(s, t).init].pc))
  {
    CallHas(s, t);
    var (o, ob) := (s.calls[t].o, ObjOf(s, t));
    ObjHas(s, o);
    if ob.init < |s.calls| {
      CallHas(s, ob.init);
    }
    if Generating(ob.gen) {
      GeneratorMoves(s, o);
    } else {
      match s.calls[t].pc
      case Wait =>
        if Told(ob) {
          assert CallTakes(s, t, Wakes, AfterWake(s, t));
        } else {
          InitiatingCallMoves(s, ob.init);
        }
      case WaitStable => assert CallTakes(s, t, WakesStable, AfterWakeStable(s, t));
      case WaitGenerator => assert CallTakes(s, t, JoinsGenerator, AfterJoin(s, t));
      case _ =>
    }
  }

  // No interleaving deadlocks, also when nothing fails that could end a wait: while a call
  // has not returned, some call or generator can take a step.
  lemma NoDeadlock(s: State, t: nat)
    requires Reachable(s) && t < |s.calls| && !s.calls[t].pc.Done?
    ensures (exists t': nat :: CallMoves(s, t')) || (exists o: nat :: GenMoves(s, o))
  {
    AlwaysInv(s);
    if Waiting(s, t) {
      WaiterIsServed(s, t);
    } else {
      WorkingCallMoves(s, t);
    }
  }
}
