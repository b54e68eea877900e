// What every step of the shared article cache keeps.
module CacheInvariant {
  import opened Common
  import opened CachePub
  import opened CacheEngine

  ghost predicate Initiating(pc: Pc) {
    pc.OpenPassive? || pc.NewTemp? || pc.PublishPub? || pc.PublishFile? || pc.BrokenTake? || pc.BrokenMark?
  }

  // The call may still be given a piece of the published file, or need the stable one.
  ghost predicate FromPub(pc: Pc) {
    pc.CopyPub? || pc.CheckErr? || pc.WaitStable?
  }

  ghost predicate PastPub(pc: Pc) {
    pc.MarkRead? || pc.WaitGenerator?
  }

  ghost predicate Collecting(pc: Pc) {
    pc.GcMap? || pc.GcClose? || pc.GcNil?
  }

  ghost predicate Generating(gen: GenPc) {
    !gen.Idle? && !gen.Ended?
  }

  ghost predicate Broken(ob: Obj) {
    ob.e.Some? && ob.e != Some(Restart)
  }

  ghost predicate FileOf(hs: seq<Handle>, h: Option<nat>, o: nat, temp: bool) {
    h.Some? && h.value < |hs| && hs[h.value].owner == o && hs[h.value].temp == temp
  }

  ghost predicate TempFile(hs: seq<Handle>, h: Option<nat>, o: nat) {
    FileOf(hs, h, o, true) && hs[h.value].closes == 0
  }

  ghost predicate StableFile(hs: seq<Handle>, h: Option<nat>, o: nat, content: seq<Byte>) {
    FileOf(hs, h, o, false) && hs[h.value].data == content
  }

  ghost predicate OpenStable(hs: seq<Handle>, h: Option<nat>, o: nat, content: seq<Byte>) {
    StableFile(hs, h, o, content) && hs[h.value].closes == 0
  }

  // A call that is working on an object.
  ghost predicate CallOk(t: nat, c: Call, ob: Obj, hs: seq<Handle>, content: seq<Byte>) {
    && c.key == ob.key && (c.reg <==> t in ob.holders) && (!c.reg ==> ob.n == 0)
    && c.got <= content
    && (c.restart ==> c.got == [] && (c.pc.Unregister? || Collecting(c.pc)))
    && (Initiating(c.pc) ==> t == ob.init && c.reg && ob.gen.Idle? && !Told(ob) && c.got == [])
    && (c.pc.PublishPub? ==> TempFile(hs, c.fx, c.o))
    && (c.pc.PublishFile? ==> OpenStable(hs, c.fx, c.o, content))
    && (c.pc.BrokenTake? || c.pc.BrokenMark? ==> c.ex.Some? && c.ex != Some(Restart))
    && (c.pc.Wait? ==> c.reg && c.got == [])
    && (FromPub(c.pc) || PastPub(c.pc) ==> c.reg && !ob.gen.Idle?)
    && (FromPub(c.pc) ==> ob.e != Some(Restart))
    && (c.pc.CopyPub? ==> |c.got| <= |ob.pub.file|)
    && (c.pc.CopyFile? ==> StableFile(hs, c.fx, c.o, content) && (c.reg ==> ob.f == c.fx))
    && (PastPub(c.pc) || c.pc.Unregister? || Collecting(c.pc) ==> c.ex.None? ==> c.got == content)
    && (Collecting(c.pc) ==> ob.collector == Some(t) && !c.reg)
    && (c.pc.GcMap? ==> !ob.retired)
    && (c.pc.GcMap? || c.pc.GcClose? ==> c.fx == ob.f && (c.fx.Some? ==> OpenStable(hs, c.fx, c.o, content)))
    && (c.pc.GcClose? || c.pc.GcNil? ==> ob.f.Some? && ob.retired)
    && (c.pc.GcNil? ==> FileOf(hs, ob.f, c.o, false) && hs[ob.f.value].closes > 0)
    && (c.pc.CopyFile? && !c.reg && hs[c.fx.value].closes == 0 ==> ob.f == c.fx && ob.collector.Some?)
  }

  // The call that collects the object is still going to close its file.
  ghost predicate WillClose(o: nat, ob: Obj, calls: seq<Call>) {
    && ob.collector.Some? && ob.collector.value < |calls|
    && calls[ob.collector.value].o == o && (calls[ob.collector.value].pc.GcMap? || calls[ob.collector.value].pc.GcClose?)
  }

  // A call that is not.
  ghost predicate IdleOk(c: Call, content: seq<Byte>) {
    && !c.reg && c.got <= content
    && (!c.pc.Done? ==> c.got == [])
    && (c.pc.SecondCheck? ==> !c.restart)
    && (c.pc.Done? && c.ex.None? ==> c.got == content)
  }

  // Somebody is going to tell the users of the object something.
  ghost predicate Coming(ob: Obj, calls: seq<Call>) {
    Generating(ob.gen) || (ob.init in ob.holders && ob.init < |calls| && Initiating(calls[ob.init].pc))
  }

  ghost predicate GenOk(o: nat, ob: Obj, calls: seq<Call>, hs: seq<Handle>, content: seq<Byte>) {
    && (ob.gen.Idle? ==> ob.pub == Pub([], 0, None) && !ob.p && !ob.readDone && ob.e != Some(Restart))
    && (ob.p ==> ob.gen.Writing? || ob.gen.Closing? || ob.gen.Clearing?)
    && (Generating(ob.gen) ==>
      && ob.init in ob.holders && ob.init < |calls|
      && (FromPub(calls[ob.init].pc) || PastPub(calls[ob.init].pc))
      && (ob.readDone ==> calls[ob.init].pc == WaitGenerator)
      && ob.f.None? && ob.e.None?)
    && (ob.gen.Writing? || ob.gen.Closing? ==> TempFile(hs, calls[ob.init].fx, o))
    && (ob.pub.err.None? <==> ob.gen.Idle? || ob.gen.Writing?)
    && (ob.gen.Renaming? || ob.gen.Checking? || ob.gen.Opening? || ob.gen.Publishing? ==> ob.pub.err == Some(EOF))
    && (ob.gen.Closing? && ob.genErr.None? ==> ob.pub.err == Some(EOF))
    && (ob.gen.Clearing? && ob.genErr.None? ==> ob.pub.err == Some(EOF))
    && (ob.gen.Publishing? ==> OpenStable(hs, calls[ob.init].fx, o, content))
    && (ob.gen.Taking? || ob.gen.Marking? ==> ob.genErr.Some?)
    && ob.genErr != Some(Restart)
  }

  ghost predicate ObjOk(o: nat, ob: Obj, calls: seq<Call>, hs: seq<Handle>, content: seq<Byte>) {
    && (forall t <- ob.holders :: t < |calls| && Active(calls[t].pc) && calls[t].o == o && calls[t].reg)
    && ob.n == (if Broken(ob) then 0 else |ob.holders|)
    && ob.pub.Valid() && ob.pub.file <= content && (ob.pub.err == Some(EOF) ==> ob.pub.file == content)
    && GenOk(o, ob, calls, hs, content)
    && (ob.f.Some? ==> StableFile(hs, ob.f, o, content) && ob.e.None? && !Generating(ob.gen))
    && (ob.f.Some? && ob.collector.None? ==> hs[ob.f.value].closes == 0)
    && (ob.collector.Some? ==> ob.holders == {} && !Broken(ob))
    && (ob.holders == {} && !Broken(ob) ==> ob.collector.Some?)
    && (ob.collector.Some? && ob.f.Some? && hs[ob.f.value].closes == 0 ==> WillClose(o, ob, calls))
    && (ob.retired ==> ob.collector.Some?)
    && (!ob.retired && ob.holders == {} ==> ob.f.Some? || ob.e.Some?)
    && (!Told(ob) && ob.holders != {} ==> Coming(ob, calls))
  }

  ghost predicate CallInv(s: State, t: nat)
    requires t < |s.calls|
  {
    var c := s.calls[t];
    if Active(c.pc) then c.o < |s.objs| && CallOk(t, c, s.objs[c.o], s.handles, s.content(c.key))
    else IdleOk(c, s.content(c.key))
  }

  ghost predicate ObjInv(s: State, o: nat)
    requires o < |s.objs|
  {
    ObjOk(o, s.objs[o], s.calls, s.handles, s.content(s.objs[o].key))
  }

  ghost predicate MapsOk(s: State) {
    && (forall k <- s.cache :: s.cache[k] < |s.objs| && s.objs[s.cache[k]].key == k && !s.objs[s.cache[k]].retired)
    && (forall k <- s.stable :: s.stable[k] == s.content(k))
    && (forall h: nat | h < |s.handles| :: s.handles[h].closes <= 1)
  }

  ghost predicate Inv(s: State) {
    && MapsOk(s)
    && (forall t: nat | t < |s.calls| :: CallInv(s, t))
    && (forall o: nat | o < |s.objs| :: ObjInv(s, o))
  }

  ghost predicate Init(s: State) {
    && s.calls == [] && s.objs == [] && s.handles == [] && s.cache == map[]
    && (forall k <- s.stable :: s.stable[k] == s.content(k))
  }

  // ---------------------------------------- what a step leaves alone, it keeps

  // Files are only added, and only those of object o are closed.
  ghost predicate HandlesStep(hs: seq<Handle>, hs': seq<Handle>, o: nat) {
    && |hs| <= |hs'|
    && (forall h: nat | h < |hs| :: hs'[h].(closes := 0) == hs[h].(closes := 0))
    && (forall h: nat | h < |hs| && hs[h].owner != o :: hs'[h].closes == hs[h].closes)
  }

  // A step of call t on object o.
  ghost predicate Touches(s: State, u: State, t: nat, o: nat) {
    && u.content == s.content && |s.calls| <= |u.calls| <= |s.calls| + 1 && |s.objs| <= |u.objs| <= |s.objs| + 1
    && (|u.calls| > |s.calls| ==> t == |s.calls|) && (|u.objs| > |s.objs| ==> o == |s.objs|)
    && (forall t': nat | t' < |s.calls| && t' != t :: u.calls[t'] == s.calls[t'])
    && (forall o': nat | o' < |s.objs| && o' != o :: u.objs[o'] == s.objs[o'])
    && (t < |s.calls| && Active(s.calls[t].pc) ==> s.calls[t].o == o)
    && HandlesStep(s.handles, u.handles, o)
  }

  lemma CallFrame(t: nat, c: Call, ob: Obj, hs: seq<Handle>, hs': seq<Handle>, content: seq<Byte>, o: nat)
    requires CallOk(t, c, ob, hs, content) && HandlesStep(hs, hs', o) && c.o != o
    ensures CallOk(t, c, ob, hs', content)
  {
  }

  lemma ObjFrame(o': nat, ob: Obj, calls: seq<Call>, calls': seq<Call>, hs: seq<Handle>, hs': seq<Handle>, content: seq<Byte>, o: nat)
    requires ObjOk(o', ob, calls, hs, content) && HandlesStep(hs, hs', o) && o' != o && |calls| <= |calls'|
    requires forall t <- ob.holders :: t < |calls| && calls'[t] == calls[t]
    requires WillClose(o', ob, calls) ==> WillClose(o', ob, calls')
    ensures ObjOk(o', ob, calls', hs', content)
  {
  }

  lemma Frame(s: State, u: State, t: nat, o: nat)
    requires Inv(s) && Touches(s, u, t, o)
    ensures forall t': nat | t' < |s.calls| && t' != t && (Active(s.calls[t'].pc) ==> s.calls[t'].o != o) :: CallInv(u, t')
    ensures forall o': nat | o' < |s.objs| && o' != o :: ObjInv(u, o')
  {
    forall t': nat | t' < |s.calls| && t' != t && (Active(s.calls[t'].pc) ==> s.calls[t'].o != o) ensures CallInv(u, t') {
      assert CallInv(s, t');
      var c := s.calls[t'];
      if Active(c.pc) {
        CallFrame(t', c, s.objs[c.o], s.handles, u.handles, s.content(c.key), o);
      }
    }
    forall o': nat | o' < |s.objs| && o' != o ensures ObjInv(u, o') {
      assert ObjInv(s, o');
      ObjFrame(o', s.objs[o'], s.calls, u.calls, s.handles, u.handles, s.content(s.objs[o'].key), o);
    }
  }

  lemma CallHas(s: State, t: nat)
    requires Inv(s) && t < |s.calls|
    ensures CallInv(s, t)
  {
  }

  lemma ObjHas(s: State, o: nat)
    requires Inv(s) && o < |s.objs|
    ensures ObjInv(s, o)
  {
  }

  // ------------------------------------------- steps that change little else

  // What the generator relies on when the call that started it moves on.
  ghost predicate InitMove(c: Call, c': Call, ob: Obj) {
    && (Generating(ob.gen) ==> c'.fx == c.fx && (FromPub(c'.pc) || PastPub(c'.pc)) && (ob.readDone ==> c'.pc == WaitGenerator))
    && (Initiating(c.pc) ==> Initiating(c'.pc))
  }

  lemma ObjKeepsMove(o: nat, ob: Obj, calls: seq<Call>, t: nat, c': Call, hs: seq<Handle>, content: seq<Byte>)
    requires ObjOk(o, ob, calls, hs, content) && t < |calls|
    requires c'.o == calls[t].o && c'.reg == calls[t].reg && Active(c'.pc)
    requires t == ob.init ==> InitMove(calls[t], c', ob)
    requires !calls[t].pc.GcMap? && !calls[t].pc.GcClose?
    ensures ObjOk(o, ob, calls[t := c'], hs, content)
  {
  }

  // A call moves on within its object.
  lemma KeepsMove(s: State, t: nat, c': Call)
    requires Inv(s) && t < |s.calls| && Active(s.calls[t].pc) && s.calls[t].o < |s.objs|
    requires c'.o == s.calls[t].o && c'.reg == s.calls[t].reg && c'.key == s.calls[t].key && Active(c'.pc)
    requires CallOk(t, c', s.objs[c'.o], s.handles, s.content(c'.key))
    requires t == s.objs[c'.o].init ==> InitMove(s.calls[t], c', s.objs[c'.o])
    requires !s.calls[t].pc.GcMap? && !s.calls[t].pc.GcClose?
    ensures Inv(SetCall(s, t, c'))
  {
    var u := SetCall(s, t, c');
    Frame(s, u, t, c'.o);
    ObjHas(s, c'.o);
    ObjKeepsMove(c'.o, s.objs[c'.o], s.calls, t, c', s.handles, s.content(s.objs[c'.o].key));
    forall t': nat | t' < |u.calls| && t' != t && Active(u.calls[t'].pc) && u.calls[t'].o == c'.o ensures CallInv(u, t') {
      CallHas(s, t');
    }
  }

  lemma KeepsOpen(s: State, o: nat, temp: bool, data: seq<Byte>)
    requires Inv(s)
    ensures Inv(Open(s, o, temp, data))
  {
    var u := Open(s, o, temp, data);
    forall t: nat | t < |u.calls| ensures CallInv(u, t) {
      CallHas(s, t);
    }
    forall o': nat | o' < |u.objs| ensures ObjInv(u, o') {
      ObjHas(s, o');
    }
  }

  lemma KeepsTakeOff(s: State, key: Key, o: nat)
    requires Inv(s)
    ensures Inv(TakeOff(s, key, o))
  {
    var u := TakeOff(s, key, o);
    forall t: nat | t < |u.calls| ensures CallInv(u, t) {
      CallHas(s, t);
    }
    forall o': nat | o' < |u.objs| ensures ObjInv(u, o') {
      ObjHas(s, o');
    }
  }

  // The calls that work on object o, other than t, accept its new value.
  ghost predicate Accepted(s: State, t: nat, o: nat, ob: Obj, hs: seq<Handle>) {
    forall t': nat | t' < |s.calls| && t' != t && Active(s.calls[t'].pc) && s.calls[t'].o == o ::
      CallOk(t', s.calls[t'], ob, hs, s.content(s.calls[t'].key))
  }

  // A step of call t that changes object o as well, and possibly closes a file of that object.
  lemma KeepsBoth(s: State, t: nat, c': Call, o: nat, ob: Obj, hs: seq<Handle>)
    requires Inv(s) && t < |s.calls| && (Active(s.calls[t].pc) ==> s.calls[t].o == o) && o < |s.objs|
    requires c'.o == o && ob.key == s.objs[o].key == c'.key && (ob.retired ==> c'.key in s.cache ==> s.cache[c'.key] != o)
    requires HandlesStep(s.handles, hs, o) && forall h: nat | h < |hs| :: hs[h].closes <= 1
    requires if Active(c'.pc) then CallOk(t, c', ob, hs, s.content(c'.key)) else IdleOk(c', s.content(c'.key))
    requires ObjOk(o, ob, s.calls[t := c'], hs, s.content(ob.key))
    requires Accepted(s, t, o, ob, hs)
    ensures Inv(SetObj(SetCall(s, t, c'), o, ob).(handles := hs))
  {
    var u := SetObj(SetCall(s, t, c'), o, ob).(handles := hs);
    Frame(s, u, t, o);
    forall t': nat | t' < |u.calls| && t' != t && Active(u.calls[t'].pc) && u.calls[t'].o == o ensures CallInv(u, t') {
    }
    assert CallInv(u, t);
    assert ObjInv(u, o);
  }
}
