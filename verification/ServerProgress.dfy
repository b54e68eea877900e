// Shutting down comes to an end: without new calls and new connections every schedule
// leads a Close call that is under way to its end.
module ServerProgress {
  import opened Common
  import opened Server

  // Nobody calls Serve or Close, and no connection is accepted.
  predicate Quiet(ev: Event) {
    !ev.Accepts? && !ev.CallsServe? && !ev.CallsClose?
  }

  // ----------------------------------------------------- what is left to do

  function Total<T>(xs: seq<T>, w: T -> nat): nat {
    if xs == [] then 0 else w(xs[0]) + Total(xs[1..], w)
  }

  lemma {:induction false} TotalUpdate<T>(xs: seq<T>, w: T -> nat, i: nat, x: T)
    requires i < |xs|
    ensures Total(xs[i := x], w) + w(xs[i]) == Total(xs, w) + w(x)
    decreases |xs|
  {
    var ys := xs[i := x];
    if i == 0 {
      assert ys[1..] == xs[1..];
    } else {
      assert ys[1..] == xs[1..][i - 1 := x];
      TotalUpdate(xs[1..], w, i - 1, x);
    }
  }

  lemma {:induction false} TotalAppend<T>(xs: seq<T>, w: T -> nat, x: T)
    ensures Total(xs + [x], w) == Total(xs, w) + w(x)
    decreases |xs|
  {
    if xs == [] {
      assert xs + [x] == [x] && [x][1..] == [];
    } else {
      assert (xs + [x])[1..] == xs[1..] + [x];
      TotalAppend(xs[1..], w, x);
    }
  }

  function ServeWork(v: Serve): nat {
    match v.pc
    case Tracking(_) => 7
    case Spawning(_) => 6
    case Accepting => 3
    case Failed => 2
    case Leaving => 1
    case Registering => 1
    case Returned => 0
  }

  function HandlerWork(h: Handler): nat {
    match h.pc
    case Running => 2
    case Unregistered => 1
    case Gone => 0
  }

  function CloseWork(pc: ClosePc): nat {
    match pc
    case WaitServes => 4
    case KillConns => 3
    case WaitHandlers => 2
    case Clearing => 1
    case Starting => 1
    case ClosedDown => 0
    case Refused => 0
  }

  // How many steps the goroutines there are can take while the server is closing.
  ghost function Work(s: State): nat {
    Total(s.serves, ServeWork) + Total(s.handlers, HandlerWork) + Total(s.closes, CloseWork)
  }

  lemma ServeWorkFalls(s: State, ev: Event)
    requires s.closing && Enabled(s, ev)
    requires ev.TriesRegister? || ev.AcceptFails? || ev.ChecksClosing? || ev.Tracks? || ev.Leaves?
    ensures Work(Next(s, ev)) < Work(s)
  {
    var u := Next(s, ev);
    assert u.serves == s.serves[ev.i := u.serves[ev.i]];
    TotalUpdate(s.serves, ServeWork, ev.i, u.serves[ev.i]);
  }

  lemma SpawnWorkFalls(s: State, i: nat)
    requires Enabled(s, Spawns(i))
    ensures Work(Next(s, Spawns(i))) < Work(s)
  {
    var u := Next(s, Spawns(i));
    TotalUpdate(s.serves, ServeWork, i, u.serves[i]);
    TotalAppend(s.handlers, HandlerWork, Handler(s.serves[i].pc.c, Running));
  }

  lemma HandlerWorkFalls(s: State, ev: Event)
    requires Enabled(s, ev) && (ev.Unregisters? || ev.Finishes?)
    ensures Work(Next(s, ev)) < Work(s)
  {
    var u := Next(s, ev);
    TotalUpdate(s.handlers, HandlerWork, ev.j, u.handlers[ev.j]);
  }

  lemma CloseWorkFalls(s: State, ev: Event)
    requires s.closing && Enabled(s, ev)
    requires ev.Begins? || ev.ServesGone? || ev.Kills? || ev.HandlersGone? || ev.Clears?
    ensures Work(Next(s, ev)) < Work(s)
  {
    var u := Next(s, ev);
    TotalUpdate(s.closes, CloseWork, ev.k, u.closes[ev.k]);
  }

  // While the server is closing every quiet step leaves less to do.
  lemma WorkFalls(s: State, ev: Event)
    requires s.closing && Enabled(s, ev) && Quiet(ev)
    ensures Work(Next(s, ev)) < Work(s)
  {
    if ev.Spawns? {
      SpawnWorkFalls(s, ev.i);
    } else if ev.Unregisters? || ev.Finishes? {
      HandlerWorkFalls(s, ev);
    } else if ev.Begins? || ev.ServesGone? || ev.Kills? || ev.HandlersGone? || ev.Clears? {
      CloseWorkFalls(s, ev);
    } else {
      ServeWorkFalls(s, ev);
    }
  }

  // --------------------------------------------------------------- progress

  // Who is waited for can take a step.
  lemma ServeMoves(s: State, i: nat)
    requires Inv(s) && s.closing && i in s.serving
    ensures exists ev: Event :: Quiet(ev) && Enabled(s, ev)
  {
    ServeHas(s, i);
    match s.serves[i].pc
    case Accepting => assert Enabled(s, AcceptFails(i));
    case Failed => assert Enabled(s, ChecksClosing(i, false));
    case Tracking(c) => assert Enabled(s, Tracks(i));
    case Spawning(c) => assert Enabled(s, Spawns(i));
    case Leaving => assert Enabled(s, Leaves(i));
    case _ =>
  }

  lemma HandlerMoves(s: State, c: Conn)
    requires Inv(s) && c in s.working
    ensures exists ev: Event :: Quiet(ev) && Enabled(s, ev)
  {
    WorkHas(s, c);
    match s.places[c]
    case AtServe(i) => assert Enabled(s, Spawns(i));
    case AtHandler(j) =>
      HandlerHas(s, j);
      assert Enabled(s, if s.handlers[j].pc.Running? then Unregisters(j) else Finishes(j));
  }

  // While a Close call is under way there is a quiet step to take.
  lemma CloseMoves(s: State)
    requires Inv(s) && s.closing
    ensures exists ev: Event :: Quiet(ev) && Enabled(s, ev)
  {
    var k := s.closer.value;
    assert UnderWay(s.closes[k]);
    match s.closes[k]
    case WaitServes =>
      if s.wg == 0 {
        assert Enabled(s, ServesGone(k));
      } else {
        var i :| i in s.serving;
        ServeMoves(s, i);
      }
    case KillConns => assert Enabled(s, Kills(k));
    case WaitHandlers =>
      if s.cwg == 0 {
        assert Enabled(s, HandlersGone(k));
      } else {
        var c :| c in s.working;
        HandlerMoves(s, c);
      }
    case Clearing => assert Enabled(s, Clears(k));
    case _ =>
  }

  // ----------------------------------------------------------- Close returns

  ghost predicate AllQuiet(events: seq<Event>) {
    forall ev <- events :: Quiet(ev)
  }

  ghost predicate CloseUnderWay(s: State, k: nat) {
    k < |s.closes| && UnderWay(s.closes[k])
  }

  lemma CloseGoesOn(s: State, ev: Event, k: nat)
    requires Inv(s) && CloseUnderWay(s, k) && Enabled(s, ev)
    ensures s.closing && (CloseUnderWay(Next(s, ev), k) || CloseAt(Next(s, ev), k, ClosedDown))
  {
  }

  lemma DownStays(s: State, ev: Event, k: nat)
    requires CloseAt(s, k, ClosedDown) && Enabled(s, ev)
    ensures CloseAt(Next(s, ev), k, ClosedDown)
  {
  }

  lemma {:induction false} DownForGood(s: State, events: seq<Event>, t: State, k: nat)
    requires CloseAt(s, k, ClosedDown) && Reaches(s, events, t)
    ensures CloseAt(t, k, ClosedDown)
    decreases |events|
  {
    if events != [] {
      DownStays(s, events[0], k);
      DownForGood(Next(s, events[0]), events[1..], t, k);
    }
  }

  // However the steps are scheduled, a Close call that is still under way after some quiet
  // steps has seen no more of them than there was work.
  lemma {:induction false} CloseIsBounded(s: State, events: seq<Event>, t: State, k: nat)
    requires Inv(s) && CloseUnderWay(s, k) && Reaches(s, events, t) && AllQuiet(events) && CloseUnderWay(t, k)
    ensures |events| + Work(t) <= Work(s)
    decreases |events|
  {
    if events != [] {
      var u := Next(s, events[0]);
      CloseGoesOn(s, events[0], k);
      StepKeeps(s, events[0]);
      WorkFalls(s, events[0]);
      if CloseAt(u, k, ClosedDown) {
        DownForGood(u, events[1..], t, k);
      }
      CloseIsBounded(u, events[1..], t, k);
    }
  }

  // And it can always go on to its end.
  lemma {:induction false} CloseEnds(s: State, k: nat) returns (events: seq<Event>, t: State)
    requires Inv(s) && CloseUnderWay(s, k)
    ensures Reaches(s, events, t) && AllQuiet(events) && CloseAt(t, k, ClosedDown)
    decreases Work(s)
  {
    CloseGoesOn(s, CallsClose, k);
    CloseMoves(s);
    var ev: Event :| Quiet(ev) && Enabled(s, ev);
    var u := Next(s, ev);
    CloseGoesOn(s, ev, k);
    StepKeeps(s, ev);
    WorkFalls(s, ev);
    if CloseAt(u, k, ClosedDown) {
      events, t := [ev], u;
    } else {
      var more;
      more, t := CloseEnds(u, k);
      events := [ev] + more;
      assert events[1..] == more;
    }
  }

  // Close waits for nothing that does not come: from every state in which it is under way,
  // some quiet step can be taken, and no schedule of quiet steps goes on for ever before it
  // has returned.
  lemma CloseFinishes(s: State, k: nat)
    requires Reachable(s) && CloseUnderWay(s, k)
    ensures exists ev: Event :: Quiet(ev) && Enabled(s, ev)
    ensures exists events: seq<Event>, t: State :: Reaches(s, events, t) && AllQuiet(events) && CloseAt(t, k, ClosedDown)
    ensures forall events: seq<Event>, t: State | Reaches(s, events, t) && AllQuiet(events) && CloseUnderWay(t, k) :: |events| <= Work(s)
  {
    AlwaysInv(s);
    CloseGoesOn(s, CallsClose, k);
    CloseMoves(s);
    var events, t := CloseEnds(s, k);
    forall events: seq<Event>, t: State | Reaches(s, events, t) && AllQuiet(events) && CloseUnderWay(t, k) ensures |events| <= Work(s) {
      CloseIsBounded(s, events, t, k);
    }
  }

  // ------------------------------------------------------------- while serving

  // While the server is not closing, a failed accept can be tried again: the call goes back
  // to accepting on its listener.
  lemma AcceptRetries(s: State, i: nat)
    requires Reachable(s) && ServeAt(s, i, Failed) && !s.closing
    ensures var ev := ChecksClosing(i, false);
      && Enabled(s, ev) && ServeAt(Next(s, ev), i, Accepting)
      && Next(s, ev).serves[i].l in s.listeners && Next(s, ev).listeners == s.listeners && i in Next(s, ev).serving
  {
    AlwaysInv(s);
    ServeHas(s, i);
  }

  lemma ReachesFirst(s: State, ev: Event, more: seq<Event>, t: State)
    requires Enabled(s, ev) && Reaches(Next(s, ev), more, t)
    ensures Reaches(s, [ev] + more, t)
  {
    assert ([ev] + more)[1..] == more;
  }

  // A connection that a call accepts gets a running handler, and the call goes on accepting.
  lemma AcceptedIsServed(s: State, i: nat)
    requires Reachable(s) && ServeAt(s, i, Accepting)
    ensures exists t: State ::
      && Reaches(s, [Accepts(i)] + ([Tracks(i)] + [Spawns(i)]), t) && ServeAt(t, i, Accepting)
      && |t.handlers| == |s.handlers| + 1 && t.handlers[|s.handlers|] == Handler(|s.places|, Running)
      && t.connections == s.connections + {|s.places|} && t.cwg == s.cwg + 1
  {
    var s1 := Next(s, Accepts(i));
    var s2 := Next(s1, Tracks(i));
    var s3 := Next(s2, Spawns(i));
    ReachesFirst(s2, Spawns(i), [], s3);
    assert [Spawns(i)] + [] == [Spawns(i)];
    ReachesFirst(s1, Tracks(i), [Spawns(i)], s3);
    ReachesFirst(s, Accepts(i), [Tracks(i)] + [Spawns(i)], s3);
  }

  // A new Serve call on a listener that no other call serves comes to accept on it.
  lemma ServeStarts(s: State, l: Listener)
    requires Reachable(s) && !s.closing && l !in s.listeners
    ensures exists t: State ::
      && Reaches(s, [CallsServe(l)] + [TriesRegister(|s.serves|)], t) && ServeAt(t, |s.serves|, Accepting)
      && t.serves[|s.serves|].l == l && t.listeners == s.listeners[l := |s.serves|] && t.wg == s.wg + 1
  {
    var s1 := Next(s, CallsServe(l));
    var s2 := Next(s1, TriesRegister(|s.serves|));
    ReachesFirst(s1, TriesRegister(|s.serves|), [], s2);
    assert [TriesRegister(|s.serves|)] + [] == [TriesRegister(|s.serves|)];
    ReachesFirst(s, CallsServe(l), [TriesRegister(|s.serves|)], s2);
  }
}
