// Every step of the shared article cache keeps the invariant: those that change an object.
module CacheObjSteps {
  import opened Common
  import opened CachePub
  import opened CacheEngine
  import opened CacheInvariant

  lemma Adding(holders: set<nat>, t: nat)
    ensures t !in holders ==> |holders + {t}| == |holders| + 1
    ensures t in holders ==> |holders - {t}| == |holders| - 1
    ensures t !in holders ==> holders - {t} == holders
  {
  }

  // Every call on the object accepts another user, and one user less.
  lemma AcceptsRegistration(s: State, t: nat, o: nat)
    requires Inv(s) && o < |s.objs|
    ensures Accepted(s, t, o, Registered(s.objs[o], t), s.handles)
  {
    forall t': nat | t' < |s.calls| && t' != t && Active(s.calls[t'].pc) && s.calls[t'].o == o
      ensures CallOk(t', s.calls[t'], Registered(s.objs[o], t), s.handles, s.content(s.calls[t'].key))
    {
      CallHas(s, t');
    }
  }

  lemma RegisteredObjOk(o: nat, ob: Obj, calls: seq<Call>, t: nat, c': Call, hs: seq<Handle>, content: seq<Byte>)
    requires ObjOk(o, ob, calls, hs, content) && t < |calls| && !Active(calls[t].pc)
    requires ob.n > 0 ==> Active(c'.pc) && c'.o == o && c'.reg
    ensures ObjOk(o, Registered(ob, t), calls[t := c'], hs, content)
  {
    Adding(ob.holders, t);
  }

  // A call that looks at an object finds something to do, or a reason to wait.
  lemma LookOk(t: nat, c: Call, o: nat, ob: Obj, hs: seq<Handle>, calls: seq<Call>, content: seq<Byte>)
    requires ObjOk(o, ob, calls, hs, content) && !ob.retired && t !in ob.holders && c.key == ob.key
    requires IdleOk(c, content) && c.pc != Done && !c.restart
    ensures CallOk(t, Dispatch(Look(c, o, ob).(reg := ob.n > 0)), Registered(ob, t), hs, content)
  {
  }

  // register_to_o, and going on from there.
  lemma KeepsRegister(s: State, t: nat, o: nat, c': Call)
    requires Inv(s) && t < |s.calls| && !Active(s.calls[t].pc) && o < |s.objs| && !s.objs[o].retired
    requires s.calls[t].pc != Done && !s.calls[t].restart && s.calls[t].key == s.objs[o].key
    requires var (c, ob) := (s.calls[t], s.objs[o]);
      c' == Dispatch(Look(c, o, ob).(reg := ob.n > 0)) || (c' == Look(c, o, ob) && ob.n == 0)
    ensures Inv(SetObj(SetCall(s, t, c'), o, Registered(s.objs[o], t)))
  {
    var (ob, content) := (s.objs[o], s.content(s.objs[o].key));
    CallHas(s, t);
    ObjHas(s, o);
    LookOk(t, s.calls[t], o, ob, s.handles, s.calls, content);
    AcceptsRegistration(s, t, o);
    RegisteredObjOk(o, ob, s.calls, t, c', s.handles, content);
    assert SetObj(SetCall(s, t, c'), o, Registered(ob, t)).(handles := s.handles)
        == SetObj(SetCall(s, t, c'), o, Registered(ob, t));
    KeepsBoth(s, t, c', o, Registered(ob, t), s.handles);
  }

  lemma KeepsIdleMove(s: State, t: nat, c': Call)
    requires Inv(s) && t < |s.calls| && !Active(s.calls[t].pc) && !Active(c'.pc)
    requires c'.key == s.calls[t].key && IdleOk(c', s.content(c'.key))
    ensures Inv(SetCall(s, t, c'))
  {
    var u := SetCall(s, t, c');
    Frame(s, u, t, |s.objs|);
    forall t': nat | t' < |u.calls| ensures CallInv(u, t') {
      CallHas(s, t');
    }
  }

  lemma KeepsFirstCheck(s: State, t: nat)
    requires Inv(s) && At(s, t, Begin)
    ensures Inv(AfterFirstCheck(s, t))
  {
    var c := s.calls[t];
    CallHas(s, t);
    if c.key !in s.cache {
      KeepsIdleMove(s, t, c.(pc := SecondCheck, restart := false));
    } else {
      var v := SetCall(s, t, c.(restart := false));
      KeepsIdleMove(s, t, c.(restart := false));
      assert SetCall(v, t, AfterFirstCheck(s, t).calls[t]) == SetCall(s, t, AfterFirstCheck(s, t).calls[t]);
      KeepsRegister(v, t, s.cache[c.key], AfterFirstCheck(s, t).calls[t]);
    }
  }

  // A new object, registered by the call that made it.
  lemma KeepsInsert(s: State, t: nat)
    requires Inv(s) && At(s, t, SecondCheck) && s.calls[t].key !in s.cache
    ensures Inv(AfterSecondCheck(s, t))
  {
    var u := AfterSecondCheck(s, t);
    var o := |s.objs|;
    CallHas(s, t);
    Frame(s, u, t, o);
    forall t': nat | t' < |u.calls| ensures CallInv(u, t') {
      if t' != t {
        CallHas(s, t');
      }
    }
    assert ObjInv(u, o);
  }

  lemma KeepsSecondCheck(s: State, t: nat)
    requires Inv(s) && At(s, t, SecondCheck)
    ensures Inv(AfterSecondCheck(s, t))
  {
    if s.calls[t].key !in s.cache {
      KeepsInsert(s, t);
    } else {
      CallHas(s, t);
      KeepsRegister(s, t, s.cache[s.calls[t].key], AfterSecondCheck(s, t).calls[t]);
    }
  }

  lemma PublishPubAccepted(s: State, t: nat)
    requires Inv(s) && At(s, t, PublishPub) && s.calls[t].fx.Some?
    ensures Accepted(s, t, s.calls[t].o, AfterPublishPub(s, t).objs[s.calls[t].o], AfterPublishPub(s, t).handles)
  {
    var (o, u) := (s.calls[t].o, AfterPublishPub(s, t));
    CallHas(s, t);
    ObjHas(s, o);
    forall t': nat | t' < |s.calls| && t' != t && Active(s.calls[t'].pc) && s.calls[t'].o == o
      ensures CallOk(t', s.calls[t'], u.objs[o], u.handles, s.content(s.calls[t'].key))
    {
      CallHas(s, t');
    }
  }

  ghost function Published(ob: Obj, temp: nat): Obj {
    ob.(p := true, temp := temp, gen := Writing, genErr := None)
  }

  lemma PublishedGenOk(o: nat, ob: Obj, calls: seq<Call>, t: nat, temp: nat, hs: seq<Handle>, content: seq<Byte>)
    requires ObjOk(o, ob, calls, hs, content) && t < |calls| && calls[t].pc == PublishPub
    requires CallOk(t, calls[t], ob, hs, content) && calls[t].o == o && !ob.readDone
    ensures GenOk(o, Published(ob, temp), calls[t := calls[t].(pc := CopyPub, px := true)], hs, content)
  {
  }

  lemma PublishedObjOk(o: nat, ob: Obj, calls: seq<Call>, t: nat, temp: nat, hs: seq<Handle>, content: seq<Byte>)
    requires ObjOk(o, ob, calls, hs, content) && t < |calls| && calls[t].pc == PublishPub
    requires CallOk(t, calls[t], ob, hs, content) && calls[t].o == o && !ob.readDone
    ensures ObjOk(o, Published(ob, temp), calls[t := calls[t].(pc := CopyPub, px := true)], hs, content)
  {
    PublishedGenOk(o, ob, calls, t, temp, hs, content);
  }

  lemma KeepsPublishPub(s: State, t: nat)
    requires Inv(s) && At(s, t, PublishPub) && s.calls[t].fx.Some?
    ensures Inv(AfterPublishPub(s, t))
  {
    var (o, u) := (s.calls[t].o, AfterPublishPub(s, t));
    CallHas(s, t);
    ObjHas(s, o);
    PublishedObjOk(o, s.objs[o], s.calls, t, s.calls[t].fx.value, s.handles, s.content(s.calls[t].key));
    PublishPubAccepted(s, t);
    KeepsBoth(s, t, u.calls[t], o, u.objs[o], s.handles);
  }

  lemma PublishFileAccepted(s: State, t: nat)
    requires Inv(s) && At(s, t, PublishFile)
    ensures Accepted(s, t, s.calls[t].o, AfterPublishFile(s, t).objs[s.calls[t].o], AfterPublishFile(s, t).handles)
  {
    var (o, u) := (s.calls[t].o, AfterPublishFile(s, t));
    CallHas(s, t);
    ObjHas(s, o);
    forall t': nat | t' < |s.calls| && t' != t && Active(s.calls[t'].pc) && s.calls[t'].o == o
      ensures CallOk(t', s.calls[t'], u.objs[o], u.handles, s.content(s.calls[t'].key))
    {
      CallHas(s, t');
    }
  }

  lemma KeepsPublishFile(s: State, t: nat)
    requires Inv(s) && At(s, t, PublishFile)
    ensures Inv(AfterPublishFile(s, t))
  {
    var (o, u) := (s.calls[t].o, AfterPublishFile(s, t));
    CallHas(s, t);
    ObjHas(s, o);
    PublishFileAccepted(s, t);
    KeepsBoth(s, t, u.calls[t], o, u.objs[o], s.handles);
  }

  lemma MarkBrokenAccepted(s: State, t: nat)
    requires Inv(s) && At(s, t, BrokenMark)
    ensures Accepted(s, t, s.calls[t].o, AfterMarkBroken(s, t).objs[s.calls[t].o], AfterMarkBroken(s, t).handles)
  {
    var (o, u) := (s.calls[t].o, AfterMarkBroken(s, t));
    CallHas(s, t);
    ObjHas(s, o);
    forall t': nat | t' < |s.calls| && t' != t && Active(s.calls[t'].pc) && s.calls[t'].o == o
      ensures CallOk(t', s.calls[t'], u.objs[o], u.handles, s.content(s.calls[t'].key))
    {
      CallHas(s, t');
    }
  }

  lemma KeepsMarkBroken(s: State, t: nat)
    requires Inv(s) && At(s, t, BrokenMark)
    ensures Inv(AfterMarkBroken(s, t))
  {
    var (o, u) := (s.calls[t].o, AfterMarkBroken(s, t));
    CallHas(s, t);
    ObjHas(s, o);
    MarkBrokenAccepted(s, t);
    KeepsBoth(s, t, u.calls[t], o, u.objs[o], s.handles);
  }

  lemma MarkReadAccepted(s: State, t: nat)
    requires Inv(s) && At(s, t, MarkRead)
    ensures Accepted(s, t, s.calls[t].o, AfterMarkRead(s, t).objs[s.calls[t].o], AfterMarkRead(s, t).handles)
  {
    var (o, u) := (s.calls[t].o, AfterMarkRead(s, t));
    CallHas(s, t);
    ObjHas(s, o);
    forall t': nat | t' < |s.calls| && t' != t && Active(s.calls[t'].pc) && s.calls[t'].o == o
      ensures CallOk(t', s.calls[t'], u.objs[o], u.handles, s.content(s.calls[t'].key))
    {
      CallHas(s, t');
    }
  }

  lemma KeepsMarkRead(s: State, t: nat)
    requires Inv(s) && At(s, t, MarkRead)
    ensures Inv(AfterMarkRead(s, t))
  {
    var (o, u) := (s.calls[t].o, AfterMarkRead(s, t));
    CallHas(s, t);
    ObjHas(s, o);
    MarkReadAccepted(s, t);
    KeepsBoth(s, t, u.calls[t], o, u.objs[o], s.handles);
  }

  lemma UnregisterAccepted(s: State, t: nat)
    requires Inv(s) && At(s, t, Unregister)
    ensures Accepted(s, t, s.calls[t].o, AfterUnregister(s, t).objs[s.calls[t].o], AfterUnregister(s, t).handles)
  {
    var (o, u) := (s.calls[t].o, AfterUnregister(s, t));
    CallHas(s, t);
    ObjHas(s, o);
    forall t': nat | t' < |s.calls| && t' != t && Active(s.calls[t'].pc) && s.calls[t'].o == o
      ensures CallOk(t', s.calls[t'], u.objs[o], u.handles, s.content(s.calls[t'].key))
    {
      CallHas(s, t');
    }
  }

  lemma LeftGenOk(o: nat, ob: Obj, calls: seq<Call>, t: nat, c': Call, hs: seq<Handle>, content: seq<Byte>)
    requires GenOk(o, ob, calls, hs, content) && t < |calls| && calls[t].pc == Unregister
    ensures GenOk(o, Left(ob, t), calls[t := c'], hs, content)
  {
  }

  lemma LeftObjOk(o: nat, ob: Obj, calls: seq<Call>, t: nat, c': Call, hs: seq<Handle>, content: seq<Byte>)
    requires ObjOk(o, ob, calls, hs, content) && t < |calls| && calls[t].pc == Unregister
    requires CallOk(t, calls[t], ob, hs, content) && calls[t].o == o && c' == Leaving(calls[t], ob)
    ensures ObjOk(o, Left(ob, t), calls[t := c'], hs, content)
  {
    Adding(ob.holders, t);
    LeftGenOk(o, ob, calls, t, c', hs, content);
    if ob.n == 1 {
      LastHolder(ob.holders, t);
    }
  }

  lemma LastHolder(holders: set<nat>, t: nat)
    requires t in holders && |holders| == 1
    ensures holders - {t} == {}
  {
    Adding(holders, t);
  }

  lemma LeftCallOk(o: nat, ob: Obj, t: nat, c: Call, calls: seq<Call>, hs: seq<Handle>, content: seq<Byte>)
    requires ObjOk(o, ob, calls, hs, content) && CallOk(t, c, ob, hs, content) && c.pc == Unregister && c.o == o
    ensures var c' := Leaving(c, ob);
      if Active(c'.pc) then CallOk(t, c', Left(ob, t), hs, content) else IdleOk(c', content)
  {
  }

  lemma KeepsUnregister(s: State, t: nat)
    requires Inv(s) && At(s, t, Unregister)
    ensures Inv(AfterUnregister(s, t))
  {
    var (c, o, ob, content) := (s.calls[t], s.calls[t].o, ObjOf(s, t), s.content(s.calls[t].key));
    CallHas(s, t);
    ObjHas(s, o);
    LeftObjOk(o, ob, s.calls, t, Leaving(c, ob), s.handles, content);
    UnregisterAccepted(s, t);
    LeftCallOk(o, ob, t, c, s.calls, s.handles, content);
    assert AfterUnregister(s, t) == SetObj(SetCall(s, t, Leaving(c, ob)), o, Left(ob, t)).(handles := s.handles);
    KeepsBoth(s, t, Leaving(c, ob), o, Left(ob, t), s.handles);
  }

  lemma KeepsRetire(s: State, t: nat)
    requires Inv(s) && At(s, t, GcMap) && (s.calls[t].key in s.cache ==> s.cache[s.calls[t].key] != s.calls[t].o)
    ensures var (c, ob) := (s.calls[t], ObjOf(s, t));
      Inv(SetObj(SetCall(s, t, if c.fx.Some? then c.(pc := GcClose) else Leave(c)), c.o, ob.(retired := true)))
  {
    var (c, o, ob) := (s.calls[t], s.calls[t].o, ObjOf(s, t));
    CallHas(s, t);
    ObjHas(s, o);
    forall t': nat | t' < |s.calls| && t' != t && Active(s.calls[t'].pc) && s.calls[t'].o == o
      ensures CallOk(t', s.calls[t'], ob.(retired := true), s.handles, s.content(s.calls[t'].key))
    {
      CallHas(s, t');
    }
    KeepsBoth(s, t, if c.fx.Some? then c.(pc := GcClose) else Leave(c), o, ob.(retired := true), s.handles);
  }

  lemma KeepsRemove(s: State, t: nat)
    requires Inv(s) && At(s, t, GcMap)
    ensures Inv(AfterRemove(s, t))
  {
    var c := s.calls[t];
    var v := TakeOff(s, c.key, c.o);
    CallHas(s, t);
    KeepsTakeOff(s, c.key, c.o);
    KeepsRetire(v, t);
  }

  lemma CloseAccepted(s: State, t: nat)
    requires Inv(s) && At(s, t, GcClose) && s.calls[t].fx.Some? && s.calls[t].fx.value < |s.handles|
    ensures Accepted(s, t, s.calls[t].o, AfterClose(s, t).objs[s.calls[t].o], AfterClose(s, t).handles)
  {
    var (o, u) := (s.calls[t].o, AfterClose(s, t));
    CallHas(s, t);
    ObjHas(s, o);
    forall t': nat | t' < |s.calls| && t' != t && Active(s.calls[t'].pc) && s.calls[t'].o == o
      ensures CallOk(t', s.calls[t'], u.objs[o], u.handles, s.content(s.calls[t'].key))
    {
      CallHas(s, t');
    }
  }

  lemma KeepsClose(s: State, t: nat)
    requires Inv(s) && At(s, t, GcClose) && s.calls[t].fx.Some? && s.calls[t].fx.value < |s.handles|
    ensures Inv(AfterClose(s, t))
  {
    var (o, u) := (s.calls[t].o, AfterClose(s, t));
    CallHas(s, t);
    ObjHas(s, o);
    CloseAccepted(s, t);
    assert AfterClose(s, t) == SetObj(SetCall(s, t, u.calls[t]), o, u.objs[o]).(handles := u.handles);
    KeepsBoth(s, t, u.calls[t], o, u.objs[o], u.handles);
  }

  lemma ClearAccepted(s: State, t: nat)
    requires Inv(s) && At(s, t, GcNil)
    ensures Accepted(s, t, s.calls[t].o, AfterClear(s, t).objs[s.calls[t].o], AfterClear(s, t).handles)
  {
    var (o, u) := (s.calls[t].o, AfterClear(s, t));
    CallHas(s, t);
    ObjHas(s, o);
    forall t': nat | t' < |s.calls| && t' != t && Active(s.calls[t'].pc) && s.calls[t'].o == o
      ensures CallOk(t', s.calls[t'], u.objs[o], u.handles, s.content(s.calls[t'].key))
    {
      CallHas(s, t');
    }
  }

  lemma KeepsClear(s: State, t: nat)
    requires Inv(s) && At(s, t, GcNil)
    ensures Inv(AfterClear(s, t))
  {
    var (o, u) := (s.calls[t].o, AfterClear(s, t));
    CallHas(s, t);
    ObjHas(s, o);
    ClearAccepted(s, t);
    KeepsBoth(s, t, u.calls[t], o, u.objs[o], s.handles);
  }
}
