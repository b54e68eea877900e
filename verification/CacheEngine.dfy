// The shared article cache as a step system. Each step is one critical section, one file
// operation or one piece of a copy; steps of any number of ObtainItem calls and of the
// generators they start interleave in every way.
module CacheEngine {
  import opened Common
  import opened CachePub

  type Key = string

  // --------------------------------------------------------------- the state

  // An open file, or one that has been closed. `owner` is the object it was opened for.
  datatype Handle = Handle(owner: nat, temp: bool, data: seq<Byte>, closes: nat)

  datatype GenPc = Idle | Writing | Closing | Clearing | Renaming | Checking | Opening | Publishing | Taking | Marking | Ended

  // CacheObj, with its generator, the generator's error, and whether the call that started
  // it has finished reading. Three parts only the proof needs: the calls whose registration
  // counts, the call that collects the object, and whether it has been taken off the map.
  datatype Obj = Obj(
    key: Key, n: nat, f: Option<nat>, p: bool, e: Option<Error>,
    pub: Pub, temp: nat, gen: GenPc, genErr: Option<Error>, init: nat, readDone: bool,
    holders: set<nat>, collector: Option<nat>, retired: bool)

  datatype Pc =
    | Begin | SecondCheck
    | OpenPassive | NewTemp | PublishPub | PublishFile | BrokenTake | BrokenMark
    | Wait
    | CopyPub | CheckErr | WaitStable | MarkRead | WaitGenerator
    | CopyFile
    | Unregister | GcMap | GcClose | GcNil
    | Done

  // One ObtainItem call: where it is, its local variables, and what its destination took.
  datatype Call = Call(
    key: Key, pc: Pc, o: nat, fx: Option<nat>, px: bool, ex: Option<Error>, restart: bool,
    reg: bool, got: seq<Byte>)

  datatype State = State(
    content: Key -> seq<Byte>, calls: seq<Call>, objs: seq<Obj>, handles: seq<Handle>,
    cache: map<Key, nat>, stable: map<Key, seq<Byte>>)

  datatype Outcome = Ok | Missing | Failed(code: nat)

  datatype CallStep =
    | FirstChecks | SecondChecks
    | OpensPassive(r: Outcome) | MakesTemp(r: Outcome)
    | PublishesPub | PublishesFile | TakesBroken | MarksBroken
    | Wakes
    | ReadsPub(k: nat) | EndsPub(k: nat, end: Option<Error>)
    | ChecksErr | WakesStable | MarksRead | JoinsGenerator
    | ReadsFile(k: nat) | EndsFile(k: nat, end: Option<Error>)
    | Unregisters | Removes | Closes | Clears

  datatype GenStep =
    | GenWrites(k: nat) | GenFinishes | GenCancels(code: nat) | GenCloses(r: Outcome) | GenClears
    | GenRenames(r: Outcome) | GenChecks | GenOpens(r: Outcome) | GenPublishes | GenTakes | GenMarks

  datatype Event = Spawn(key: Key) | ByCall(t: nat, call: CallStep) | ByGenerator(o: nat, gen: GenStep)

  // --------------------------------------------------------------- the steps

  ghost predicate Active(pc: Pc) {
    !pc.Begin? && !pc.SecondCheck? && !pc.Done?
  }

  ghost predicate At(s: State, t: nat, pc: Pc) {
    && t < |s.calls| && s.calls[t].pc == pc
    && (if Active(pc) then s.calls[t].o < |s.objs| else s.calls[t].key in s.cache ==> s.cache[s.calls[t].key] < |s.objs|)
  }

  ghost predicate GenAt(s: State, o: nat, pc: GenPc) {
    o < |s.objs| && s.objs[o].gen == pc && s.objs[o].init < |s.calls|
  }

  ghost predicate IsOpen(s: State, h: nat) {
    h < |s.handles| && s.handles[h].closes == 0
  }

  ghost predicate Told(ob: Obj) {
    ob.p || ob.f.Some? || ob.e.Some?
  }

  // What the call can see of its object.
  ghost function ObjOf(s: State, t: nat): Obj
    requires t < |s.calls| && s.calls[t].o < |s.objs|
  {
    s.objs[s.calls[t].o]
  }

  // Some bytes are read from the file still being written and taken by the destination.
  ghost predicate CanReadPub(s: State, t: nat, k: nat) {
    && At(s, t, CopyPub)
    && |s.calls[t].got| + k <= |ObjOf(s, t).pub.file|
    && (k > 0 ==> IsOpen(s, ObjOf(s, t).temp))
  }

  ghost predicate CanReadFile(s: State, t: nat, k: nat) {
    && At(s, t, CopyFile)
    && s.calls[t].fx.Some? && s.calls[t].fx.value < |s.handles|
    && |s.calls[t].got| + k <= |s.handles[s.calls[t].fx.value].data|
    && (k > 0 ==> IsOpen(s, s.calls[t].fx.value))
  }

  ghost function SetCall(s: State, t: nat, c: Call): State
    requires t < |s.calls|
  {
    s.(calls := s.calls[t := c])
  }

  ghost function SetObj(s: State, o: nat, ob: Obj): State
    requires o < |s.objs|
  {
    s.(objs := s.objs[o := ob])
  }

  ghost function Open(s: State, o: nat, temp: bool, data: seq<Byte>): State {
    s.(handles := s.handles + [Handle(o, temp, data, 0)])
  }

  ghost function Close(s: State, h: nat): State
    requires h < |s.handles|
  {
    s.(handles := s.handles[h := s.handles[h].(closes := s.handles[h].closes + 1)])
  }

  ghost function TakeOff(s: State, key: Key, o: nat): State {
    if key in s.cache && s.cache[key] == o then s.(cache := s.cache - {key}) else s
  }

  // Where a call goes once it has looked at its object.
  ghost function Dispatch(c: Call): Call {
    if c.ex.Some? then c.(pc := Unregister, restart := c.ex == Some(Restart))
    else if c.fx.Some? then c.(pc := CopyFile)
    else if c.px then c.(pc := CopyPub)
    else c.(pc := Wait)
  }

  ghost function Look(c: Call, o: nat, ob: Obj): Call {
    c.(o := o, px := ob.p, fx := ob.f, ex := ob.e)
  }

  // register_to_o: only an object that is in use gets another user.
  ghost function Registered(ob: Obj, t: nat): Obj {
    if ob.n > 0 then ob.(n := ob.n + 1, holders := ob.holders + {t}) else ob
  }

  ghost function NewObj(key: Key, t: nat): Obj {
    Obj(key, 1, None, false, None, Pub([], 0, None), 0, Idle, None, t, false, {t}, None, false)
  }

  ghost function AfterFirstCheck(s: State, t: nat): State
    requires At(s, t, Begin)
  {
    var c := s.calls[t];
    if c.key !in s.cache then SetCall(s, t, c.(pc := SecondCheck, restart := false))
    else
      var o := s.cache[c.key];
      var ob := s.objs[o];
      var seen := Look(c.(restart := false), o, ob);
      SetObj(SetCall(s, t, if ob.n > 0 then Dispatch(seen.(reg := true)) else seen), o, Registered(ob, t))
  }

  ghost function AfterSecondCheck(s: State, t: nat): State
    requires At(s, t, SecondCheck)
  {
    var c := s.calls[t];
    if c.key !in s.cache then
      var o := |s.objs|;
      SetCall(s, t, c.(pc := OpenPassive, o := o, reg := true))
        .(objs := s.objs + [NewObj(c.key, t)], cache := s.cache[c.key := o])
    else
      var o := s.cache[c.key];
      var ob := s.objs[o];
      SetObj(SetCall(s, t, Dispatch(Look(c, o, ob).(reg := ob.n > 0))), o, Registered(ob, t))
  }

  ghost function AfterOpenPassive(s: State, t: nat, r: Outcome): State
    requires At(s, t, OpenPassive) && (r.Ok? ==> s.calls[t].key in s.stable)
  {
    var c := s.calls[t];
    match r
    case Ok => Open(SetCall(s, t, c.(pc := PublishFile, fx := Some(|s.handles|), ex := None)), c.o, false, s.stable[c.key])
    case Missing => SetCall(s, t, c.(pc := NewTemp, fx := None))
    case Failed(code) => SetCall(s, t, c.(pc := BrokenTake, fx := None, ex := Some(Other(code))))
  }

  ghost function AfterNewTemp(s: State, t: nat, r: Outcome): State
    requires At(s, t, NewTemp)
  {
    var c := s.calls[t];
    match r
    case Failed(code) => SetCall(s, t, c.(pc := BrokenTake, fx := None, ex := Some(Other(code))))
    case _ => Open(SetCall(s, t, c.(pc := PublishPub, fx := Some(|s.handles|), ex := None)), c.o, true, [])
  }

  // The call goes on to read from the published file, its generator starts.
  ghost function AfterPublishPub(s: State, t: nat): State
    requires At(s, t, PublishPub) && s.calls[t].fx.Some?
  {
    var c := s.calls[t];
    SetObj(SetCall(s, t, c.(pc := CopyPub, px := true)), c.o,
           s.objs[c.o].(p := true, temp := c.fx.value, gen := Writing, genErr := None))
  }

  ghost function AfterPublishFile(s: State, t: nat): State
    requires At(s, t, PublishFile)
  {
    var c := s.calls[t];
    SetObj(SetCall(s, t, c.(pc := CopyFile)), c.o, s.objs[c.o].(f := c.fx))
  }

  ghost function AfterTakeBroken(s: State, t: nat): State
    requires At(s, t, BrokenTake)
  {
    var c := s.calls[t];
    TakeOff(SetCall(s, t, c.(pc := BrokenMark)), c.key, c.o)
  }

  ghost function AfterMarkBroken(s: State, t: nat): State
    requires At(s, t, BrokenMark)
  {
    var c := s.calls[t];
    var ob := s.objs[c.o];
    SetObj(SetCall(s, t, c.(pc := Done, reg := false)), c.o, ob.(e := c.ex, n := 0, holders := ob.holders - {t}))
  }

  ghost function AfterWake(s: State, t: nat): State
    requires At(s, t, Wait)
  {
    SetCall(s, t, Dispatch(Look(s.calls[t], s.calls[t].o, ObjOf(s, t))))
  }

  ghost function AfterReadPub(s: State, t: nat, k: nat): State
    requires CanReadPub(s, t, k)
  {
    var c := s.calls[t];
    var from := |c.got|;
    SetCall(s, t, c.(got := c.got + ObjOf(s, t).pub.file[from..from + k]))
  }

  // The copy ends well only when the reader said EOF after the last byte written. Any error
  // of the reader, of the file or of the destination ends it otherwise.
  ghost function AfterEndPub(s: State, t: nat, k: nat, end: Option<Error>): State
    requires CanReadPub(s, t, k)
  {
    var u := AfterReadPub(s, t, k);
    SetCall(u, t, u.calls[t].(ex := end, pc := if end == Some(Closed) then CheckErr else MarkRead))
  }

  ghost function AfterCheckErr(s: State, t: nat): State
    requires At(s, t, CheckErr)
  {
    var (c, err) := (s.calls[t], ObjOf(s, t).pub.err);
    if err == Some(EOF) then SetCall(s, t, c.(ex := err, pc := WaitStable))
    else SetCall(s, t, c.(ex := Some(if err.Some? then err.value else Other(0)), pc := WaitGenerator))
  }

  ghost function AfterWakeStable(s: State, t: nat): State
    requires At(s, t, WaitStable)
  {
    var (c, ob) := (s.calls[t], ObjOf(s, t));
    SetCall(s, t, c.(fx := ob.f, ex := ob.e, pc := if ob.e.Some? then Unregister else CopyFile))
  }

  // cp_read_done belongs to the call, so only the call that started the generator sets it.
  ghost function AfterMarkRead(s: State, t: nat): State
    requires At(s, t, MarkRead)
  {
    var (c, ob) := (s.calls[t], ObjOf(s, t));
    SetObj(SetCall(s, t, c.(pc := WaitGenerator)), c.o, if ob.init == t then ob.(readDone := true) else ob)
  }

  ghost function AfterJoin(s: State, t: nat): State
    requires At(s, t, WaitGenerator)
  {
    SetCall(s, t, s.calls[t].(pc := Unregister))
  }

  ghost function AfterReadFile(s: State, t: nat, k: nat): State
    requires CanReadFile(s, t, k)
  {
    var c := s.calls[t];
    var from := |c.got|;
    SetCall(s, t, c.(got := c.got + s.handles[c.fx.value].data[from..from + k]))
  }

  ghost function AfterEndFile(s: State, t: nat, k: nat, end: Option<Error>): State
    requires CanReadFile(s, t, k)
  {
    var u := AfterReadFile(s, t, k);
    SetCall(u, t, u.calls[t].(ex := end, pc := Unregister))
  }

  ghost function Leave(c: Call): Call {
    if c.restart then c.(pc := Begin) else c.(pc := Done)
  }

  // unregister_from_o: what it leaves of the object, and where it takes the call. The user
  // that takes the count to zero collects the object.
  ghost function Left(ob: Obj, t: nat): Obj {
    var left := ob.(holders := ob.holders - {t});
    if ob.n == 0 then left
    else if ob.n > 1 then left.(n := ob.n - 1)
    else left.(n := 0, collector := Some(t))
  }

  ghost function Leaving(c: Call, ob: Obj): Call {
    if ob.n == 0 then Leave(c.(reg := false))
    else if ob.n > 1 then Leave(c.(reg := false, fx := ob.f))
    else c.(reg := false, fx := ob.f, pc := GcMap)
  }

  ghost function AfterUnregister(s: State, t: nat): State
    requires At(s, t, Unregister)
  {
    var (c, ob) := (s.calls[t], ObjOf(s, t));
    SetObj(SetCall(s, t, Leaving(c, ob)), c.o, Left(ob, t))
  }

  ghost function AfterRemove(s: State, t: nat): State
    requires At(s, t, GcMap)
  {
    var c := s.calls[t];
    var u := TakeOff(SetObj(s, c.o, s.objs[c.o].(retired := true)), c.key, c.o);
    SetCall(u, t, if c.fx.Some? then c.(pc := GcClose) else Leave(c))
  }

  ghost function AfterClose(s: State, t: nat): State
    requires At(s, t, GcClose) && s.calls[t].fx.Some? && s.calls[t].fx.value < |s.handles|
  {
    var c := s.calls[t];
    Close(SetCall(s, t, c.(pc := GcNil)), c.fx.value)
  }

  ghost function AfterClear(s: State, t: nat): State
    requires At(s, t, GcNil)
  {
    var c := s.calls[t];
    SetObj(SetCall(s, t, Leave(c)), c.o, s.objs[c.o].(f := None))
  }

  // ------------------------------------------------- the generator's steps

  ghost function AfterGenWrite(s: State, o: nat, k: nat): State
    requires GenAt(s, o, Writing) && |s.objs[o].pub.file| + k <= |s.content(s.objs[o].key)|
  {
    var ob := s.objs[o];
    var from := |ob.pub.file|;
    var b := s.content(ob.key)[from..from + k];
    SetObj(s, o, ob.(pub := Pub(ob.pub.file + b, ob.pub.n + k, ob.pub.err)))
  }

  ghost function AfterGenReturn(s: State, o: nat, end: Error): State
    requires GenAt(s, o, Writing)
  {
    var ob := s.objs[o];
    SetObj(s, o, ob.(pub := ob.pub.(err := Some(end)), genErr := if end == EOF then None else Some(end), gen := Closing))
  }

  ghost function AfterGenClose(s: State, o: nat, r: Outcome): State
    requires GenAt(s, o, Closing) && s.calls[s.objs[o].init].fx.Some? && s.calls[s.objs[o].init].fx.value < |s.handles|
  {
    var ob := s.objs[o];
    var err := if ob.genErr.None? && r.Failed? then Some(Other(r.code)) else ob.genErr;
    Close(SetObj(s, o, ob.(genErr := err, gen := Clearing)), s.calls[ob.init].fx.value)
  }

  ghost function AfterGenClear(s: State, o: nat): State
    requires GenAt(s, o, Clearing)
  {
    var ob := s.objs[o];
    SetObj(s, o, ob.(p := false, gen := if ob.genErr.None? then Renaming else Taking))
  }

  // An existing stable file is left in place.
  ghost function AfterGenRename(s: State, o: nat, r: Outcome): State
    requires GenAt(s, o, Renaming)
  {
    var ob := s.objs[o];
    if r.Failed? then SetObj(s, o, ob.(genErr := Some(Other(r.code)), gen := Taking))
    else
      var u := SetObj(s, o, ob.(gen := Checking));
      if ob.key in s.stable then u else u.(stable := s.stable[ob.key := ob.pub.file])
  }

  ghost function AfterGenCheck(s: State, o: nat): State
    requires GenAt(s, o, Checking)
  {
    var ob := s.objs[o];
    if ob.readDone && ob.n == 1 then SetObj(s, o, ob.(e := Some(Restart), gen := Ended))
    else SetObj(s, o, ob.(gen := Opening))
  }

  // The variable the file is opened into is the one the call uses too.
  ghost function AfterGenOpen(s: State, o: nat, r: Outcome): State
    requires GenAt(s, o, Opening) && (r.Ok? ==> s.objs[o].key in s.stable)
  {
    var ob := s.objs[o];
    var c := s.calls[ob.init];
    if r.Ok? then
      Open(SetObj(SetCall(s, ob.init, c.(fx := Some(|s.handles|))), o, ob.(gen := Publishing)), o, false, s.stable[ob.key])
    else
      SetObj(SetCall(s, ob.init, c.(fx := None)), o, ob.(genErr := Some(Other(if r.Failed? then r.code else 0)), gen := Taking))
  }

  ghost function AfterGenPublish(s: State, o: nat): State
    requires GenAt(s, o, Publishing)
  {
    SetObj(s, o, s.objs[o].(f := s.calls[s.objs[o].init].fx, gen := Ended))
  }

  ghost function AfterGenTake(s: State, o: nat): State
    requires GenAt(s, o, Taking)
  {
    TakeOff(SetObj(s, o, s.objs[o].(gen := Marking)), s.objs[o].key, o)
  }

  ghost function AfterGenMark(s: State, o: nat): State
    requires GenAt(s, o, Marking)
  {
    SetObj(s, o, s.objs[o].(e := s.objs[o].genErr, n := 0, gen := Ended))
  }

  // When a step can be taken, and where it leads. A wait is a step that cannot be taken yet.
  ghost predicate CallTakes(s: State, t: nat, call: CallStep, u: State) {
    match call
    case FirstChecks =>
      At(s, t, Begin) && u == AfterFirstCheck(s, t)
    case SecondChecks =>
      At(s, t, SecondCheck) && u == AfterSecondCheck(s, t)
    case OpensPassive(r) =>
      At(s, t, OpenPassive) && (r.Ok? ==> s.calls[t].key in s.stable) && u == AfterOpenPassive(s, t, r)
    case MakesTemp(r) =>
      At(s, t, NewTemp) && !r.Missing? && u == AfterNewTemp(s, t, r)
    case PublishesPub =>
      At(s, t, PublishPub) && s.calls[t].fx.Some? && u == AfterPublishPub(s, t)
    case PublishesFile =>
      At(s, t, PublishFile) && u == AfterPublishFile(s, t)
    case TakesBroken =>
      At(s, t, BrokenTake) && u == AfterTakeBroken(s, t)
    case MarksBroken =>
      At(s, t, BrokenMark) && u == AfterMarkBroken(s, t)
    case Wakes =>
      At(s, t, Wait) && Told(ObjOf(s, t)) && u == AfterWake(s, t)
    case ReadsPub(k) =>
      CanReadPub(s, t, k) && u == AfterReadPub(s, t, k)
    case EndsPub(k, end) =>
      CanReadPub(s, t, k) && (end.None? ==> ObjOf(s, t).pub.err == Some(EOF) && |s.calls[t].got| + k == |ObjOf(s, t).pub.file|) && u == AfterEndPub(s, t, k, end)
    case ChecksErr =>
      At(s, t, CheckErr) && u == AfterCheckErr(s, t)
    case WakesStable =>
      At(s, t, WaitStable) && (ObjOf(s, t).f.Some? || ObjOf(s, t).e.Some?) && u == AfterWakeStable(s, t)
    case MarksRead =>
      At(s, t, MarkRead) && u == AfterMarkRead(s, t)
    case JoinsGenerator =>
      At(s, t, WaitGenerator) && (ObjOf(s, t).init == t ==> ObjOf(s, t).gen == Ended) && u == AfterJoin(s, t)
    case ReadsFile(k) =>
      CanReadFile(s, t, k) && u == AfterReadFile(s, t, k)
    case EndsFile(k, end) =>
      CanReadFile(s, t, k) && (end.None? ==> IsOpen(s, s.calls[t].fx.value) && |s.calls[t].got| + k == |s.handles[s.calls[t].fx.value].data|) && u == AfterEndFile(s, t, k, end)
    case Unregisters =>
      At(s, t, Unregister) && u == AfterUnregister(s, t)
    case Removes =>
      At(s, t, GcMap) && u == AfterRemove(s, t)
    case Closes =>
      At(s, t, GcClose) && s.calls[t].fx.Some? && s.calls[t].fx.value < |s.handles| && u == AfterClose(s, t)
    case Clears =>
      At(s, t, GcNil) && u == AfterClear(s, t)
  }

  ghost predicate GenTakesStep(s: State, o: nat, gen: GenStep, u: State) {
    match gen
    case GenWrites(k) =>
      GenAt(s, o, Writing) && |s.objs[o].pub.file| + k <= |s.content(s.objs[o].key)| && u == AfterGenWrite(s, o, k)
    case GenFinishes =>
      GenAt(s, o, Writing) && s.objs[o].pub.file == s.content(s.objs[o].key) && u == AfterGenReturn(s, o, EOF)
    case GenCancels(code) =>
      GenAt(s, o, Writing) && u == AfterGenReturn(s, o, Other(code))
    case GenCloses(r) =>
      GenAt(s, o, Closing) && s.calls[s.objs[o].init].fx.Some? && s.calls[s.objs[o].init].fx.value < |s.handles| && u == AfterGenClose(s, o, r)
    case GenClears =>
      GenAt(s, o, Clearing) && u == AfterGenClear(s, o)
    case GenRenames(r) =>
      GenAt(s, o, Renaming) && u == AfterGenRename(s, o, r)
    case GenChecks =>
      GenAt(s, o, Checking) && u == AfterGenCheck(s, o)
    case GenOpens(r) =>
      GenAt(s, o, Opening) && (r.Ok? ==> s.objs[o].key in s.stable) && u == AfterGenOpen(s, o, r)
    case GenPublishes =>
      GenAt(s, o, Publishing) && u == AfterGenPublish(s, o)
    case GenTakes =>
      GenAt(s, o, Taking) && u == AfterGenTake(s, o)
    case GenMarks =>
      GenAt(s, o, Marking) && u == AfterGenMark(s, o)
  }

  ghost predicate Takes(s: State, ev: Event, u: State) {
    match ev
    case Spawn(key) => u == s.(calls := s.calls + [Call(key, Begin, 0, None, false, None, false, false, [])])
    case ByCall(t, call) => CallTakes(s, t, call, u)
    case ByGenerator(o, gen) => GenTakesStep(s, o, gen, u)
  }
}
