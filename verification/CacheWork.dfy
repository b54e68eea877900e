// How much the calls and generators of the shared article cache still have to do.
module CacheWork {
  import opened Common
  import opened CachePub
  import opened CacheEngine
  import opened CacheEffects
  import opened CacheInvariant
  import opened CacheGenSteps
  import opened CacheProgress

  function Lacking(got: seq<Byte>, content: seq<Byte>): nat {
    if |got| < |content| then |content| - |got| else 0
  }

  // How many steps a call can take before it has returned or starts over, when nothing
  // fails of its own accord. Looking at the map is not counted.
  function CallWork(c: Call, content: seq<Byte>): nat {
    var m := Lacking(c.got, content);
    match c.pc
    case Begin => 0
    case SecondCheck => 0
    case Done => 0
    case OpenPassive => 11 + m
    case NewTemp => 10 + m
    case PublishPub => 9 + m
    case Wait => 9 + m
    case CopyPub => 8 + m
    case CheckErr => 7 + m
    case WaitStable => 6 + m
    case MarkRead => 6 + m
    case PublishFile => 6 + m
    case CopyFile => 5 + m
    case WaitGenerator => 5 + m
    case Unregister => 4
    case GcMap => 3
    case GcClose => 2
    case GcNil => 1
    case BrokenTake => 2
    case BrokenMark => 1
  }

  // The same for the generator of an object, also if it never starts.
  function GenWork(ob: Obj, content: seq<Byte>): nat {
    match ob.gen
    case Idle => 9 + |content|
    case Writing => 8 + Lacking(ob.pub.file, content)
    case Closing => 7
    case Clearing => 6
    case Renaming => 5
    case Checking => 4
    case Opening => 3
    case Publishing => 2
    case Taking => 2
    case Marking => 1
    case Ended => 0
  }

  ghost function CallsWork(calls: seq<Call>, content: Key -> seq<Byte>): nat {
    if calls == [] then 0 else CallWork(calls[0], content(calls[0].key)) + CallsWork(calls[1..], content)
  }

  ghost function ObjsWork(objs: seq<Obj>, content: Key -> seq<Byte>): nat {
    if objs == [] then 0 else GenWork(objs[0], content(objs[0].key)) + ObjsWork(objs[1..], content)
  }

  ghost function Work(s: State): nat {
    CallsWork(s.calls, s.content) + ObjsWork(s.objs, s.content)
  }

  lemma {:induction false} CallsWorkUpdate(calls: seq<Call>, content: Key -> seq<Byte>, t: nat, c: Call)
    requires t < |calls|
    ensures CallsWork(calls[t := c], content) + CallWork(calls[t], content(calls[t].key))
      == CallsWork(calls, content) + CallWork(c, content(c.key))
    decreases |calls|
  {
    var ds := calls[t := c];
    if t == 0 {
      assert ds[1..] == calls[1..];
    } else {
      assert ds[1..] == calls[1..][t - 1 := c];
      CallsWorkUpdate(calls[1..], content, t - 1, c);
    }
  }

  lemma {:induction false} ObjsWorkUpdate(objs: seq<Obj>, content: Key -> seq<Byte>, o: nat, ob: Obj)
    requires o < |objs|
    ensures ObjsWork(objs[o := ob], content) + GenWork(objs[o], content(objs[o].key))
      == ObjsWork(objs, content) + GenWork(ob, content(ob.key))
    decreases |objs|
  {
    var ds := objs[o := ob];
    if o == 0 {
      assert ds[1..] == objs[1..];
    } else {
      assert ds[1..] == objs[1..][o - 1 := ob];
      ObjsWorkUpdate(objs[1..], content, o - 1, ob);
    }
  }

  // --------------------------------------------------------------- one step

  // Only call t and object o have changed, and there is less to do.
  ghost predicate Less(s: State, u: State, t: nat, o: nat) {
    && t < |s.calls| && o < |s.objs| && u.content == s.content
    && |u.calls| == |s.calls| && |u.objs| == |s.objs|
    && u.calls == s.calls[t := u.calls[t]] && u.objs == s.objs[o := u.objs[o]]
    && u.calls[t].key == s.calls[t].key && u.objs[o].key == s.objs[o].key
    && CallWork(u.calls[t], s.content(s.calls[t].key)) + GenWork(u.objs[o], s.content(s.objs[o].key))
      < CallWork(s.calls[t], s.content(s.calls[t].key)) + GenWork(s.objs[o], s.content(s.objs[o].key))
  }

  lemma LessWork(s: State, u: State, t: nat, o: nat)
    requires Less(s, u, t, o)
    ensures Work(u) < Work(s)
  {
    CallsWorkUpdate(s.calls, s.content, t, u.calls[t]);
    ObjsWorkUpdate(s.objs, s.content, o, u.objs[o]);
  }

  predicate Opens(call: CallStep) {
    call.OpensPassive? || call.MakesTemp?
  }

  predicate Publishes(call: CallStep) {
    call.PublishesPub? || call.PublishesFile?
  }

  predicate Breaks(call: CallStep) {
    call.TakesBroken? || call.MarksBroken?
  }

  predicate ReadsPart(call: CallStep) {
    call.ReadsPub? || call.ReadsFile?
  }

  predicate EndsReading(call: CallStep) {
    call.EndsPub? || call.EndsFile?
  }

  predicate GoesOn(call: CallStep) {
    call.Wakes? || call.WakesStable?
  }

  lemma OpensLess(s: State, t: nat, call: CallStep, u: State)
    requires CallTakes(s, t, call, u) && Opens(call)
    ensures Less(s, u, t, s.calls[t].o)
  {
  }

  lemma PublishesLess(s: State, t: nat, call: CallStep, u: State)
    requires CallTakes(s, t, call, u) && Publishes(call) && s.calls[t].key == ObjOf(s, t).key && ObjOf(s, t).gen.Idle?
    ensures Less(s, u, t, s.calls[t].o)
  {
  }

  lemma BreaksLess(s: State, t: nat, call: CallStep, u: State)
    requires CallTakes(s, t, call, u) && Breaks(call)
    ensures Less(s, u, t, s.calls[t].o)
  {
  }

  // Reading makes progress as long as there is something left of the content.
  lemma ReadsLess(s: State, t: nat, call: CallStep, u: State)
    requires CallTakes(s, t, call, u) && Honest(s, t, call) && ReadsPart(call)
    requires |s.calls[t].got| + call.k <= |s.content(s.calls[t].key)|
    ensures Less(s, u, t, s.calls[t].o)
  {
  }

  lemma EndsLess(s: State, t: nat, call: CallStep, u: State)
    requires CallTakes(s, t, call, u) && Honest(s, t, call) && EndsReading(call)
    ensures Less(s, u, t, s.calls[t].o)
  {
  }

  lemma GoesOnLess(s: State, t: nat, call: CallStep, u: State)
    requires CallTakes(s, t, call, u) && GoesOn(call)
    ensures Less(s, u, t, s.calls[t].o)
  {
  }

  lemma ChecksLess(s: State, t: nat, call: CallStep, u: State)
    requires CallTakes(s, t, call, u) && (call.ChecksErr? || call.JoinsGenerator?)
    ensures Less(s, u, t, s.calls[t].o)
  {
  }

  lemma MarksLess(s: State, t: nat, u: State)
    requires CallTakes(s, t, MarksRead, u)
    ensures Less(s, u, t, s.calls[t].o)
  {
  }

  lemma UnregistersLess(s: State, t: nat, u: State)
    requires CallTakes(s, t, Unregisters, u)
    ensures Less(s, u, t, s.calls[t].o)
  {
  }

  lemma RemovesLess(s: State, t: nat, u: State)
    requires CallTakes(s, t, Removes, u)
    ensures Less(s, u, t, s.calls[t].o)
  {
    var c := s.calls[t];
    assert u.calls == s.calls[t := if c.fx.Some? then c.(pc := GcClose) else Leave(c)];
    assert u.objs == s.objs[c.o := s.objs[c.o].(retired := true)];
  }

  lemma ClosesLess(s: State, t: nat, u: State)
    requires CallTakes(s, t, Closes, u)
    ensures Less(s, u, t, s.calls[t].o)
  {
    assert s.objs[s.calls[t].o := s.objs[s.calls[t].o]] == s.objs;
  }

  lemma ClearsLess(s: State, t: nat, u: State)
    requires CallTakes(s, t, Clears, u)
    ensures Less(s, u, t, s.calls[t].o)
  {
  }

  predicate Finishing(gen: GenStep) {
    gen.GenWrites? || gen.GenFinishes? || gen.GenCloses? || gen.GenClears? || gen.GenRenames?
  }

  lemma WriterLess(s: State, o: nat, gen: GenStep, u: State)
    requires GenTakesStep(s, o, gen, u) && GenHonest(s, o, gen) && Finishing(gen)
    ensures Less(s, u, s.objs[o].init, o)
  {
    assert s.calls[s.objs[o].init := s.calls[s.objs[o].init]] == s.calls;
  }

  lemma PublisherLess(s: State, o: nat, gen: GenStep, u: State)
    requires GenTakesStep(s, o, gen, u) && GenHonest(s, o, gen) && !Finishing(gen)
    ensures Less(s, u, s.objs[o].init, o)
  {
    assert s.calls[s.objs[o].init := s.calls[s.objs[o].init]] == s.calls;
  }

  // Nobody reads more than the content.
  lemma ReadsWithin(s: State, t: nat, call: CallStep, u: State)
    requires Inv(s) && CallTakes(s, t, call, u) && ReadsPart(call)
    ensures |s.calls[t].got| + call.k <= |s.content(s.calls[t].key)|
  {
    CallHas(s, t);
    ObjHas(s, s.calls[t].o);
  }

  lemma StarterHas(s: State, t: nat, call: CallStep, u: State)
    requires Inv(s) && CallTakes(s, t, call, u) && Publishes(call)
    ensures s.calls[t].key == ObjOf(s, t).key && ObjOf(s, t).gen.Idle?
  {
    CallHas(s, t);
  }

  // A step of a call or a generator that does not look at the map leaves less to do.
  lemma CallWorkFalls(s: State, t: nat, call: CallStep, u: State)
    requires Inv(s) && CallTakes(s, t, call, u) && Honest(s, t, call) && !Looks(call)
    ensures Work(u) < Work(s)
  {
    if Opens(call) {
      OpensLess(s, t, call, u);
    } else if Publishes(call) {
      StarterHas(s, t, call, u);
      PublishesLess(s, t, call, u);
    } else if Breaks(call) {
      BreaksLess(s, t, call, u);
    } else if ReadsPart(call) {
      ReadsWithin(s, t, call, u);
      ReadsLess(s, t, call, u);
    } else if EndsReading(call) {
      EndsLess(s, t, call, u);
    } else {
      LaterWorkFalls(s, t, call, u);
      return;
    }
    LessWork(s, u, t, s.calls[t].o);
  }

  predicate Later(call: CallStep) {
    GoesOn(call) || call.ChecksErr? || call.JoinsGenerator? || call.MarksRead? || call.Unregisters? || call.Removes? || call.Closes? || call.Clears?
  }

  lemma LaterWorkFalls(s: State, t: nat, call: CallStep, u: State)
    requires CallTakes(s, t, call, u) && Later(call)
    ensures Work(u) < Work(s)
  {
    if GoesOn(call) {
      GoesOnLess(s, t, call, u);
    } else if call.ChecksErr? || call.JoinsGenerator? {
      ChecksLess(s, t, call, u);
    } else if call.MarksRead? {
      MarksLess(s, t, u);
    } else if call.Unregisters? {
      UnregistersLess(s, t, u);
    } else if call.Removes? {
      RemovesLess(s, t, u);
    } else if call.Closes? {
      ClosesLess(s, t, u);
    } else {
      ClearsLess(s, t, u);
    }
    LessWork(s, u, t, s.calls[t].o);
  }

  lemma GenWorkFalls(s: State, o: nat, gen: GenStep, u: State)
    requires GenTakesStep(s, o, gen, u) && GenHonest(s, o, gen)
    ensures Work(u) < Work(s)
  {
    if Finishing(gen) {
      WriterLess(s, o, gen, u);
    } else {
      PublisherLess(s, o, gen, u);
    }
    LessWork(s, u, s.objs[o].init, o);
  }
}
