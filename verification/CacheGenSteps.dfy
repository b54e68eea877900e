// Every step of the shared article cache keeps the invariant: the generator's.
module CacheGenSteps {
  import opened Common
  import opened CachePub
  import opened CacheEngine
  import opened CacheInvariant

  // While a generator runs, the call that started it is registered and has not gone past
  // the published file.
  lemma InitiatorStays(s: State, o: nat)
    requires Inv(s) && o < |s.objs| && Generating(s.objs[o].gen)
    ensures var (t, ob) := (s.objs[o].init, s.objs[o]);
      && t < |s.calls| && t in ob.holders && s.calls[t].reg && s.calls[t].o == o && s.calls[t].key == ob.key
      && (FromPub(s.calls[t].pc) || PastPub(s.calls[t].pc))
      && ob.n == |ob.holders| > 0 && ob.collector.None? && !ob.retired
  {
    ObjHas(s, o);
    CallHas(s, s.objs[o].init);
  }

  // A step of the generator that changes its object, and possibly closes a file of it.
  lemma KeepsObj(s: State, o: nat, ob: Obj, hs: seq<Handle>)
    requires Inv(s) && o < |s.objs| && Generating(s.objs[o].gen)
    requires ob.key == s.objs[o].key && ob.retired == s.objs[o].retired
    requires HandlesStep(s.handles, hs, o) && forall h: nat | h < |hs| :: hs[h].closes <= 1
    requires ObjOk(o, ob, s.calls, hs, s.content(ob.key))
    requires Accepted(s, |s.calls|, o, ob, hs)
    ensures Inv(SetObj(s, o, ob).(handles := hs))
  {
    var t := s.objs[o].init;
    InitiatorStays(s, o);
    assert s.calls[t := s.calls[t]] == s.calls;
    assert SetObj(s, o, ob).(handles := hs) == SetObj(SetCall(s, t, s.calls[t]), o, ob).(handles := hs);
    assert CallOk(t, s.calls[t], ob, hs, s.content(s.calls[t].key));
    KeepsBoth(s, t, s.calls[t], o, ob, hs);
  }

  lemma GenWriteOk(o: nat, ob: Obj, calls: seq<Call>, hs: seq<Handle>, content: seq<Byte>, k: nat)
    requires ObjOk(o, ob, calls, hs, content) && ob.gen.Writing? && |ob.pub.file| + k <= |content|
    ensures var from := |ob.pub.file|;
      ObjOk(o, ob.(pub := Pub(ob.pub.file + content[from..from + k], ob.pub.n + k, ob.pub.err)), calls, hs, content)
  {
    PrefixExtends(ob.pub.file, content, k);
  }

  lemma PrefixExtends(file: seq<Byte>, content: seq<Byte>, k: nat)
    requires file <= content && |file| + k <= |content|
    ensures file + content[|file|..|file| + k] <= content
  {
  }

  lemma KeepsGenWrite(s: State, o: nat, k: nat)
    requires Inv(s) && GenAt(s, o, Writing) && |s.objs[o].pub.file| + k <= |s.content(s.objs[o].key)|
    ensures Inv(AfterGenWrite(s, o, k))
  {
    var u := AfterGenWrite(s, o, k);
    ObjHas(s, o);
    GenWriteOk(o, s.objs[o], s.calls, s.handles, s.content(s.objs[o].key), k);
    forall t: nat | t < |s.calls| && Active(s.calls[t].pc) && s.calls[t].o == o
      ensures CallOk(t, s.calls[t], u.objs[o], s.handles, s.content(s.calls[t].key))
    {
      CallHas(s, t);
    }
    KeepsObj(s, o, u.objs[o], s.handles);
  }

  lemma KeepsGenReturn(s: State, o: nat, end: Error)
    requires Inv(s) && GenAt(s, o, Writing) && end != Restart
    requires end == EOF ==> s.objs[o].pub.file == s.content(s.objs[o].key)
    ensures Inv(AfterGenReturn(s, o, end))
  {
    var u := AfterGenReturn(s, o, end);
    ObjHas(s, o);
    forall t: nat | t < |s.calls| && Active(s.calls[t].pc) && s.calls[t].o == o
      ensures CallOk(t, s.calls[t], u.objs[o], s.handles, s.content(s.calls[t].key))
    {
      CallHas(s, t);
    }
    KeepsObj(s, o, u.objs[o], s.handles);
  }

  lemma GenCloseAccepted(s: State, o: nat, r: Outcome)
    requires Inv(s) && GenAt(s, o, Closing) && s.calls[s.objs[o].init].fx.Some? && s.calls[s.objs[o].init].fx.value < |s.handles|
    ensures Accepted(s, |s.calls|, o, AfterGenClose(s, o, r).objs[o], AfterGenClose(s, o, r).handles)
  {
    var u := AfterGenClose(s, o, r);
    ObjHas(s, o);
    forall t: nat | t < |s.calls| && Active(s.calls[t].pc) && s.calls[t].o == o
      ensures CallOk(t, s.calls[t], u.objs[o], u.handles, s.content(s.calls[t].key))
    {
      CallHas(s, t);
    }
  }

  lemma KeepsGenClose(s: State, o: nat, r: Outcome)
    requires Inv(s) && GenAt(s, o, Closing) && s.calls[s.objs[o].init].fx.Some? && s.calls[s.objs[o].init].fx.value < |s.handles|
    ensures Inv(AfterGenClose(s, o, r))
  {
    var u := AfterGenClose(s, o, r);
    ObjHas(s, o);
    GenCloseAccepted(s, o, r);
    assert u == SetObj(s, o, u.objs[o]).(handles := u.handles);
    KeepsObj(s, o, u.objs[o], u.handles);
  }

  lemma KeepsGenClear(s: State, o: nat)
    requires Inv(s) && GenAt(s, o, Clearing)
    ensures Inv(AfterGenClear(s, o))
  {
    var u := AfterGenClear(s, o);
    ObjHas(s, o);
    forall t: nat | t < |s.calls| && Active(s.calls[t].pc) && s.calls[t].o == o
      ensures CallOk(t, s.calls[t], u.objs[o], s.handles, s.content(s.calls[t].key))
    {
      CallHas(s, t);
    }
    KeepsObj(s, o, u.objs[o], s.handles);
  }

  lemma KeepsStable(s: State, key: Key, data: seq<Byte>)
    requires Inv(s) && data == s.content(key)
    ensures Inv(s.(stable := s.stable[key := data]))
  {
    var u := s.(stable := s.stable[key := data]);
    forall t: nat | t < |u.calls| ensures CallInv(u, t) {
      CallHas(s, t);
    }
    forall o: nat | o < |u.objs| ensures ObjInv(u, o) {
      ObjHas(s, o);
    }
  }

  lemma KeepsGenRename(s: State, o: nat, r: Outcome)
    requires Inv(s) && GenAt(s, o, Renaming)
    ensures Inv(AfterGenRename(s, o, r))
  {
    var ob := AfterGenRename(s, o, r).objs[o];
    ObjHas(s, o);
    forall t: nat | t < |s.calls| && Active(s.calls[t].pc) && s.calls[t].o == o
      ensures CallOk(t, s.calls[t], ob, s.handles, s.content(s.calls[t].key))
    {
      CallHas(s, t);
    }
    KeepsObj(s, o, ob, s.handles);
    if !r.Failed? && ob.key !in s.stable {
      KeepsStable(SetObj(s, o, ob), ob.key, ob.pub.file);
    }
  }

  lemma GenCheckAccepted(s: State, o: nat)
    requires Inv(s) && GenAt(s, o, Checking)
    ensures Accepted(s, |s.calls|, o, AfterGenCheck(s, o).objs[o], s.handles)
  {
    var ob := s.objs[o];
    ObjHas(s, o);
    forall t: nat | t < |s.calls| && Active(s.calls[t].pc) && s.calls[t].o == o
      ensures CallOk(t, s.calls[t], AfterGenCheck(s, o).objs[o], s.handles, s.content(s.calls[t].key))
    {
      CallHas(s, t);
      OnlyHolder(ob.holders, ob.init, t);
    }
  }

  lemma OnlyHolder(holders: set<nat>, t: nat, t': nat)
    requires t in holders
    ensures |holders| == 1 && t' in holders ==> t' == t
  {
    assert |holders - {t}| == |holders| - 1;
    assert t' in holders && t' != t ==> t' in holders - {t};
  }

  lemma KeepsGenCheck(s: State, o: nat)
    requires Inv(s) && GenAt(s, o, Checking)
    ensures Inv(AfterGenCheck(s, o))
  {
    ObjHas(s, o);
    GenCheckAccepted(s, o);
    KeepsObj(s, o, AfterGenCheck(s, o).objs[o], s.handles);
  }

  lemma OpenedObjOk(o: nat, ob: Obj, ob': Obj, calls: seq<Call>, c': Call, hs: seq<Handle>, content: seq<Byte>)
    requires ObjOk(o, ob, calls, hs, content) && ob.gen.Opening? && c'.(fx := None) == calls[ob.init].(fx := None)
    requires (ob' == ob.(gen := Publishing) && OpenStable(hs, c'.fx, o, content))
      || (ob' == ob.(gen := Taking, genErr := ob'.genErr) && ob'.genErr.Some? && ob'.genErr != Some(Restart))
    ensures ObjOk(o, ob', calls[ob.init := c'], hs, content)
  {
  }

  lemma KeepsGenOpened(s: State, o: nat, c': Call, ob': Obj)
    requires Inv(s) && GenAt(s, o, Opening) && c'.(fx := None) == s.calls[s.objs[o].init].(fx := None)
    requires (ob' == s.objs[o].(gen := Publishing) && OpenStable(s.handles, c'.fx, o, s.content(ob'.key)))
      || (ob' == s.objs[o].(gen := Taking, genErr := ob'.genErr) && ob'.genErr.Some? && ob'.genErr != Some(Restart))
    ensures Inv(SetObj(SetCall(s, s.objs[o].init, c'), o, ob'))
  {
    var t := s.objs[o].init;
    InitiatorStays(s, o);
    ObjHas(s, o);
    CallHas(s, t);
    OpenedObjOk(o, s.objs[o], ob', s.calls, c', s.handles, s.content(ob'.key));
    forall t': nat | t' < |s.calls| && t' != t && Active(s.calls[t'].pc) && s.calls[t'].o == o
      ensures CallOk(t', s.calls[t'], ob', s.handles, s.content(s.calls[t'].key))
    {
      CallHas(s, t');
    }
    assert SetObj(SetCall(s, t, c'), o, ob').(handles := s.handles) == SetObj(SetCall(s, t, c'), o, ob');
    KeepsBoth(s, t, c', o, ob', s.handles);
  }

  lemma KeepsGenOpen(s: State, o: nat, r: Outcome)
    requires Inv(s) && GenAt(s, o, Opening) && (r.Ok? ==> s.objs[o].key in s.stable)
    ensures Inv(AfterGenOpen(s, o, r))
  {
    var ob := s.objs[o];
    var u := AfterGenOpen(s, o, r);
    if r.Ok? {
      var v := Open(s, o, false, s.stable[ob.key]);
      KeepsOpen(s, o, false, s.stable[ob.key]);
      KeepsGenOpened(v, o, u.calls[ob.init], u.objs[o]);
      assert u == SetObj(SetCall(v, ob.init, u.calls[ob.init]), o, u.objs[o]);
    } else {
      KeepsGenOpened(s, o, u.calls[ob.init], u.objs[o]);
    }
  }

  lemma KeepsGenPublish(s: State, o: nat)
    requires Inv(s) && GenAt(s, o, Publishing)
    ensures Inv(AfterGenPublish(s, o))
  {
    var u := AfterGenPublish(s, o);
    InitiatorStays(s, o);
    ObjHas(s, o);
    forall t: nat | t < |s.calls| && Active(s.calls[t].pc) && s.calls[t].o == o
      ensures CallOk(t, s.calls[t], u.objs[o], s.handles, s.content(s.calls[t].key))
    {
      CallHas(s, t);
    }
    KeepsObj(s, o, u.objs[o], s.handles);
  }

  lemma KeepsGenTake(s: State, o: nat)
    requires Inv(s) && GenAt(s, o, Taking)
    ensures Inv(AfterGenTake(s, o))
  {
    var ob := s.objs[o].(gen := Marking);
    ObjHas(s, o);
    forall t: nat | t < |s.calls| && Active(s.calls[t].pc) && s.calls[t].o == o
      ensures CallOk(t, s.calls[t], ob, s.handles, s.content(s.calls[t].key))
    {
      CallHas(s, t);
    }
    KeepsObj(s, o, ob, s.handles);
    KeepsTakeOff(SetObj(s, o, ob), ob.key, o);
  }

  lemma KeepsGenMark(s: State, o: nat)
    requires Inv(s) && GenAt(s, o, Marking)
    ensures Inv(AfterGenMark(s, o))
  {
    var u := AfterGenMark(s, o);
    InitiatorStays(s, o);
    ObjHas(s, o);
    forall t: nat | t < |s.calls| && Active(s.calls[t].pc) && s.calls[t].o == o
      ensures CallOk(t, s.calls[t], u.objs[o], s.handles, s.content(s.calls[t].key))
    {
      CallHas(s, t);
    }
    KeepsObj(s, o, u.objs[o], s.handles);
  }
}
