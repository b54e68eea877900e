// From every state the shared article cache can get into, all calls can return, and a call
// that starts can be served.
module CacheService {
  import opened Common
  import opened CachePub
  import opened CacheEngine
  import opened CacheEffects
  import opened CacheInvariant
  import opened CacheGenSteps
  import opened CacheSafety
  import opened CacheProgress
  import opened CacheWork
  import opened CacheReturn

  // ------------------------------------------------ what proceeding leaves alone

  // A call that is not going to start over.
  ghost predicate Straight(c: Call) {
    !c.restart && !c.pc.Wait? && !c.pc.Begin? && !c.pc.SecondCheck?
  }

  ghost predicate CallKept(c: Call, c': Call) {
    c'.key == c.key && (!Active(c.pc) ==> c' == c) && (Straight(c) ==> Straight(c'))
  }

  ghost predicate Kept(s: State, u: State) {
    && |u.calls| == |s.calls| && u.content == s.content && (forall k <- s.stable :: k in u.stable)
    && forall t: nat | t < |s.calls| :: CallKept(s.calls[t], u.calls[t])
  }

  lemma CallEffectKept(s: State, t: nat, call: CallStep, u: State)
    requires Effect(s, u, t, call) && Advances(s.calls[t], u.calls[t], call)
    ensures Kept(s, u)
  {
  }

  lemma GenEffectKept(s: State, o: nat, gen: GenStep, u: State)
    requires GenEffect(s, u, o, gen) && Active(s.calls[s.objs[o].init].pc)
    ensures Kept(s, u)
  {
  }

  lemma ProceedKept(s: State, ev: Event, u: State)
    requires Inv(s) && Proceeds(s, ev, u)
    ensures Kept(s, u)
  {
    match ev
    case ByCall(t, call) =>
      CallEffect(s, t, call, u);
      CallAdvances(s, t, call, u);
      CallEffectKept(s, t, call, u);
    case ByGenerator(o, gen) =>
      GeneratorEffect(s, o, gen, u);
      InitiatorStays(s, o);
      GenEffectKept(s, o, gen, u);
  }

  lemma {:induction false} ProceedsKept(s: State, events: seq<Event>, u: State)
    requires Inv(s) && MapInv(s) && ProceedsTo(s, events, u)
    ensures Inv(u) && MapInv(u) && Kept(s, u)
    decreases |events|
  {
    if events != [] {
      var v: State :| Proceeds(s, events[0], v) && Chain(Proceeds, v, events[1..], u);
      ProceedKeeps(s, events[0], v);
      HonestTakes(s, events[0], v);
      StepKeepsMap(s, events[0], v);
      ProceedKept(s, events[0], v);
      ProceedsKept(v, events[1..], u);
      KeptOn(s, v, u);
    }
  }

  lemma KeptOn(s: State, v: State, u: State)
    requires Kept(s, v) && Kept(v, u)
    ensures Kept(s, u)
  {
    forall t: nat | t < |s.calls| ensures CallKept(s.calls[t], u.calls[t]) {
      assert CallKept(s.calls[t], v.calls[t]) && CallKept(v.calls[t], u.calls[t]);
    }
  }

  // ------------------------------------------------------- nobody is working

  // When no call works on an object, there is none left on the map.
  lemma NothingMapped(s: State)
    requires Inv(s) && MapInv(s) && NoneActive(s)
    ensures s.cache == map[]
  {
    forall k | k in s.cache ensures false {
      var o := s.cache[k];
      ObjHas(s, o);
      MapHas(s, o);
      UnusedIsOff(s, o);
    }
  }

  lemma UnusedIsOff(s: State, o: nat)
    requires o < |s.objs| && ObjInv(s, o) && MapObj(s, o) && NoneActive(s)
    ensures TakenOff(s, o) || s.objs[o].retired
  {
  }

  // Then a call that has not returned yet makes an object of its own.
  lemma LoneStarts(s: State, t: nat) returns (u: State)
    requires Inv(s) && MapInv(s) && NoneActive(s) && s.cache == map[] && t < |s.calls| && !s.calls[t].pc.Done?
    ensures Leads(s, u) && Inv(u) && MapInv(u) && Fresh(s, u, t)
  {
    var v := s;
    CallHas(s, t);
    LeadsToItself(s);
    if s.calls[t].pc.Begin? {
      v := AfterFirstCheck(s, t);
      LeadsOneStep(s, ByCall(t, FirstChecks), v);
      CallStepKeeps(s, t, FirstChecks, v);
      CallKeepsMap(s, t, FirstChecks, v);
    }
    CallHas(v, t);
    u := AfterSecondCheck(v, t);
    LeadsOneStep(v, ByCall(t, SecondChecks), u);
    CallStepKeeps(v, t, SecondChecks, u);
    CallKeepsMap(v, t, SecondChecks, u);
    LeadsOn(s, v, u);
  }

  // It is the only user of the new object, and the others have not moved.
  ghost predicate Fresh(s: State, u: State, t: nat) {
    && t < |s.calls| == |u.calls| && |u.objs| == |s.objs| + 1
    && u.objs[|s.objs|] == NewObj(s.calls[t].key, t)
    && u.calls[t] == s.calls[t].(pc := OpenPassive, o := |s.objs|, reg := true, restart := false)
    && u.calls == s.calls[t := u.calls[t]]
    && u.content == s.content && u.stable == s.stable
  }

  // ------------------------------------------------------- everybody returns

  ghost predicate DoneBelow(s: State, n: nat) {
    forall t: nat | t < n && t < |s.calls| :: s.calls[t].pc.Done?
  }

  // Calls that have returned stay as they are.
  ghost predicate DoneKept(s: State, u: State) {
    && |u.calls| == |s.calls| && u.content == s.content && (forall k <- s.stable :: k in u.stable)
    && forall t: nat | t < |s.calls| && s.calls[t].pc.Done? :: u.calls[t] == s.calls[t]
  }

  lemma DoneKeptOn(s: State, v: State, u: State)
    requires DoneKept(s, v) && DoneKept(v, u)
    ensures DoneKept(s, u)
  {
  }

  ghost predicate ReturnedAlone(s: State, v: State, t: nat) {
    && t < |s.calls| == |v.calls| && v.calls == s.calls[t := v.calls[t]] && v.calls[t].pc.Done?
    && v.content == s.content && (forall k <- s.stable :: k in v.stable)
  }

  lemma SettledKeeps(s: State, t: nat, u: State, v: State)
    requires NoneActive(s) && Fresh(s, u, t) && Kept(u, v) && NoneActive(v)
    ensures ReturnedAlone(s, v, t)
  {
    assert CallKept(u.calls[t], v.calls[t]);
    forall t': nat | t' < |s.calls| && t' != t ensures v.calls[t'] == s.calls[t'] {
      assert CallKept(u.calls[t'], v.calls[t']);
    }
  }

  // One call after the other.
  lemma OneReturns(s: State, t: nat) returns (v: State, u: State, events: seq<Event>)
    requires Inv(s) && MapInv(s) && NoneActive(s) && t < |s.calls| && !s.calls[t].pc.Done?
    ensures Fresh(s, u, t) && Inv(u) && MapInv(u) && ProceedsTo(u, events, v) && NoneActive(v)
    ensures Leads(s, v) && Inv(v) && MapInv(v) && ReturnedAlone(s, v, t)
  {
    NothingMapped(s);
    u := LoneStarts(s, t);
    events, v := Settles(u);
    ProceedsKept(u, events, v);
    ProceedLeads(u, events, v);
    LeadsOn(s, u, v);
    SettledKeeps(s, t, u, v);
  }

  lemma {:induction false} RestReturn(s: State, n: nat) returns (u: State)
    requires Inv(s) && MapInv(s) && NoneActive(s) && DoneBelow(s, n) && n <= |s.calls|
    ensures Leads(s, u) && DoneKept(s, u) && DoneBelow(u, |u.calls|)
    decreases |s.calls| - n
  {
    if n == |s.calls| {
      LeadsToItself(s);
      return s;
    }
    if s.calls[n].pc.Done? {
      u := RestReturn(s, n + 1);
      return;
    }
    var v, w, events := OneReturns(s, n);
    u := RestReturn(v, n + 1);
    LeadsOn(s, v, u);
    DoneKeptOn(s, v, u);
  }

  // From every state the cache can get into, steps at which nothing fails of its own accord
  // lead all calls to their return.
  lemma AllReturn(s: State)
    requires Reachable(s)
    ensures exists u: State :: Leads(s, u) && |u.calls| == |s.calls| && DoneBelow(u, |u.calls|)
  {
    AlwaysInv(s);
    AlwaysMapInv(s);
    var events, v := Settles(s);
    ProceedsKept(s, events, v);
    ProceedLeads(s, events, v);
    var u := RestReturn(v, 0);
    LeadsOn(s, v, u);
  }
}
