// Every step of the shared article cache keeps the invariant: first those that only move
// one call on.
module CacheSteps {
  import opened Common
  import opened CachePub
  import opened CacheEngine
  import opened CacheInvariant

  lemma KeepsOpenPassive(s: State, t: nat, r: Outcome)
    requires Inv(s) && At(s, t, OpenPassive) && (r.Ok? ==> s.calls[t].key in s.stable)
    ensures Inv(AfterOpenPassive(s, t, r))
  {
    var c := s.calls[t];
    var c' := AfterOpenPassive(s, t, r).calls[t];
    if r.Ok? {
      var v := Open(s, c.o, false, s.stable[c.key]);
      KeepsOpen(s, c.o, false, s.stable[c.key]);
      CallHas(v, t);
      KeepsMove(v, t, c');
    } else {
      CallHas(s, t);
      KeepsMove(s, t, c');
    }
  }

  lemma KeepsNewTemp(s: State, t: nat, r: Outcome)
    requires Inv(s) && At(s, t, NewTemp)
    ensures Inv(AfterNewTemp(s, t, r))
  {
    var c := s.calls[t];
    var c' := AfterNewTemp(s, t, r).calls[t];
    if r.Failed? {
      CallHas(s, t);
      KeepsMove(s, t, c');
    } else {
      var v := Open(s, c.o, true, []);
      KeepsOpen(s, c.o, true, []);
      CallHas(v, t);
      KeepsMove(v, t, c');
    }
  }

  lemma KeepsTakeBroken(s: State, t: nat)
    requires Inv(s) && At(s, t, BrokenTake)
    ensures Inv(AfterTakeBroken(s, t))
  {
    var c := s.calls[t];
    CallHas(s, t);
    KeepsMove(s, t, c.(pc := BrokenMark));
    KeepsTakeOff(SetCall(s, t, c.(pc := BrokenMark)), c.key, c.o);
  }

  lemma KeepsWake(s: State, t: nat)
    requires Inv(s) && At(s, t, Wait) && Told(ObjOf(s, t))
    ensures Inv(AfterWake(s, t))
  {
    CallHas(s, t);
    ObjHas(s, s.calls[t].o);
    KeepsMove(s, t, AfterWake(s, t).calls[t]);
  }

  lemma PrefixGrows(got: seq<Byte>, file: seq<Byte>, content: seq<Byte>, k: nat)
    requires got <= content && file <= content && |got| + k <= |file|
    ensures var more := got + file[|got|..|got| + k]; more <= content && (|got| + k == |content| ==> more == content)
  {
  }

  lemma KeepsReadPub(s: State, t: nat, k: nat)
    requires Inv(s) && CanReadPub(s, t, k)
    ensures Inv(AfterReadPub(s, t, k))
  {
    CallHas(s, t);
    ObjHas(s, s.calls[t].o);
    PrefixGrows(s.calls[t].got, ObjOf(s, t).pub.file, s.content(s.calls[t].key), k);
    KeepsMove(s, t, AfterReadPub(s, t, k).calls[t]);
  }

  lemma KeepsEndPub(s: State, t: nat, k: nat, end: Option<Error>)
    requires Inv(s) && CanReadPub(s, t, k)
    requires end.None? ==> ObjOf(s, t).pub.err == Some(EOF) && |s.calls[t].got| + k == |ObjOf(s, t).pub.file|
    ensures Inv(AfterEndPub(s, t, k, end))
  {
    var v := AfterReadPub(s, t, k);
    KeepsReadPub(s, t, k);
    CallHas(v, t);
    ObjHas(v, v.calls[t].o);
    KeepsMove(v, t, AfterEndPub(s, t, k, end).calls[t]);
  }

  lemma KeepsCheckErr(s: State, t: nat)
    requires Inv(s) && At(s, t, CheckErr)
    ensures Inv(AfterCheckErr(s, t))
  {
    CallHas(s, t);
    ObjHas(s, s.calls[t].o);
    KeepsMove(s, t, AfterCheckErr(s, t).calls[t]);
  }

  lemma KeepsWakeStable(s: State, t: nat)
    requires Inv(s) && At(s, t, WaitStable) && (ObjOf(s, t).f.Some? || ObjOf(s, t).e.Some?)
    ensures Inv(AfterWakeStable(s, t))
  {
    CallHas(s, t);
    ObjHas(s, s.calls[t].o);
    KeepsMove(s, t, AfterWakeStable(s, t).calls[t]);
  }

  lemma KeepsJoin(s: State, t: nat)
    requires Inv(s) && At(s, t, WaitGenerator) && (ObjOf(s, t).init == t ==> ObjOf(s, t).gen == Ended)
    ensures Inv(AfterJoin(s, t))
  {
    CallHas(s, t);
    KeepsMove(s, t, AfterJoin(s, t).calls[t]);
  }

  lemma KeepsReadFile(s: State, t: nat, k: nat)
    requires Inv(s) && CanReadFile(s, t, k)
    ensures Inv(AfterReadFile(s, t, k))
  {
    CallHas(s, t);
    ObjHas(s, s.calls[t].o);
    var content := s.content(s.calls[t].key);
    PrefixGrows(s.calls[t].got, content, content, k);
    KeepsMove(s, t, AfterReadFile(s, t, k).calls[t]);
  }

  lemma KeepsEndFile(s: State, t: nat, k: nat, end: Option<Error>)
    requires Inv(s) && CanReadFile(s, t, k)
    requires end.None? ==> IsOpen(s, s.calls[t].fx.value) && |s.calls[t].got| + k == |s.handles[s.calls[t].fx.value].data|
    ensures Inv(AfterEndFile(s, t, k, end))
  {
    var v := AfterReadFile(s, t, k);
    KeepsReadFile(s, t, k);
    CallHas(v, t);
    ObjHas(v, v.calls[t].o);
    KeepsMove(v, t, AfterEndFile(s, t, k, end).calls[t]);
  }
}
