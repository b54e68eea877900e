// Starting and shutting down the NNTP server as a step system: any number of Serve calls,
// connection handlers and Close calls, in every interleaving.
module Server {
  import opened Common

  type Listener = nat
  type Conn = nat

  datatype ServePc =
    | Registering
    | Accepting | Failed | Tracking(c: Conn) | Spawning(c: Conn) | Leaving
    | Returned

  datatype HandlerPc = Running | Unregistered | Gone

  datatype ClosePc = Starting | WaitServes | KillConns | WaitHandlers | Clearing | ClosedDown | Refused

  datatype Serve = Serve(l: Listener, pc: ServePc)
  datatype Handler = Handler(c: Conn, pc: HandlerPc)

  // Where a connection is being looked after.
  datatype Place = AtServe(i: nat) | AtHandler(j: nat)

  // The server's fields, its goroutines, and which listeners and connections have been
  // closed. Some parts only the proof needs: with each listener the Serve call that put it
  // there, with each connection ever accepted where it is, the Serve calls counted by wg,
  // the connections counted by cwg, and the Close call under way.
  datatype State = State(
    closing: bool, wg: nat, cwg: nat, listeners: map<Listener, nat>, connections: set<Conn>,
    serves: seq<Serve>, handlers: seq<Handler>, closes: seq<ClosePc>,
    closedListeners: set<Listener>, closedConns: set<Conn>,
    places: seq<Place>, serving: set<nat>, working: set<Conn>, closer: Option<nat>)

  const STOPPED := State(false, 0, 0, map[], {}, [], [], [], {}, {}, [], {}, {}, None)

  datatype Event =
    | CallsServe(l: Listener) | CallsClose
    // a Serve call
    | TriesRegister(i: nat) | Accepts(i: nat) | AcceptFails(i: nat) | ChecksClosing(i: nat, gives: bool)
    | Tracks(i: nat) | Spawns(i: nat) | Leaves(i: nat)
    // a handler
    | Unregisters(j: nat) | Finishes(j: nat)
    // a Close call
    | Begins(k: nat) | ServesGone(k: nat) | Kills(k: nat) | HandlersGone(k: nat) | Clears(k: nat)

  ghost predicate ServeAt(s: State, i: nat, pc: ServePc) {
    i < |s.serves| && s.serves[i].pc == pc
  }

  ghost predicate HandlerAt(s: State, j: nat, pc: HandlerPc) {
    j < |s.handlers| && s.handlers[j].pc == pc
  }

  ghost predicate CloseAt(s: State, k: nat, pc: ClosePc) {
    k < |s.closes| && s.closes[k] == pc
  }

  ghost predicate Enabled(s: State, ev: Event) {
    match ev
    case CallsServe(l) => true
    case CallsClose => true
    case TriesRegister(i) => ServeAt(s, i, Registering)
    case Accepts(i) => ServeAt(s, i, Accepting)
    case AcceptFails(i) => ServeAt(s, i, Accepting)
    case ChecksClosing(i, gives) => ServeAt(s, i, Failed)
    case Tracks(i) => i < |s.serves| && s.serves[i].pc.Tracking?
    case Spawns(i) => i < |s.serves| && s.serves[i].pc.Spawning?
    case Leaves(i) => ServeAt(s, i, Leaving) && s.wg > 0
    case Unregisters(j) => HandlerAt(s, j, Running)
    case Finishes(j) => HandlerAt(s, j, Unregistered) && s.cwg > 0
    case Begins(k) => CloseAt(s, k, Starting)
    case ServesGone(k) => CloseAt(s, k, WaitServes) && s.wg == 0
    case Kills(k) => CloseAt(s, k, KillConns)
    case HandlersGone(k) => CloseAt(s, k, WaitHandlers) && s.cwg == 0
    case Clears(k) => CloseAt(s, k, Clearing)
  }

  ghost function SetServe(s: State, i: nat, pc: ServePc): State
    requires i < |s.serves|
  {
    s.(serves := s.serves[i := s.serves[i].(pc := pc)])
  }

  ghost function SetHandler(s: State, j: nat, pc: HandlerPc): State
    requires j < |s.handlers|
  {
    s.(handlers := s.handlers[j := s.handlers[j].(pc := pc)])
  }

  ghost function SetClose(s: State, k: nat, pc: ClosePc): State
    requires k < |s.closes|
  {
    s.(closes := s.closes[k := pc])
  }

  // A listener is only ever served by one call, and by none while the server is closing.
  ghost function AfterTry(s: State, i: nat): State
    requires ServeAt(s, i, Registering)
  {
    var l := s.serves[i].l;
    if s.closing || l in s.listeners then SetServe(s, i, Returned)
    else SetServe(s, i, Accepting).(listeners := s.listeners[l := i], wg := s.wg + 1, serving := s.serving + {i})
  }

  // After a failed accept: the server is closing; or the call gives up; or it tries again.
  ghost function AfterCheck(s: State, i: nat, gives: bool): State
    requires ServeAt(s, i, Failed)
  {
    if s.closing then SetServe(s, i, Leaving).(listeners := s.listeners - {s.serves[i].l})
    else SetServe(s, i, if gives then Leaving else Accepting)
  }

  ghost function AfterTrack(s: State, i: nat): State
    requires i < |s.serves| && s.serves[i].pc.Tracking?
  {
    var c := s.serves[i].pc.c;
    SetServe(s, i, Spawning(c)).(connections := s.connections + {c}, cwg := s.cwg + 1, working := s.working + {c})
  }

  ghost function AfterSpawn(s: State, i: nat): State
    requires i < |s.serves| && s.serves[i].pc.Spawning?
  {
    var c := s.serves[i].pc.c;
    SetServe(s, i, Accepting).(
      handlers := s.handlers + [Handler(c, Running)],
      places := if c < |s.places| then s.places[c := AtHandler(|s.handlers|)] else s.places)
  }

  ghost function AfterLeave(s: State, i: nat): State
    requires ServeAt(s, i, Leaving) && s.wg > 0
  {
    SetServe(s, i, Returned).(wg := s.wg - 1, serving := s.serving - {i})
  }

  ghost function AfterUnregister(s: State, j: nat): State
    requires HandlerAt(s, j, Running)
  {
    SetHandler(s, j, Unregistered).(connections := s.connections - {s.handlers[j].c})
  }

  ghost function AfterFinish(s: State, j: nat): State
    requires HandlerAt(s, j, Unregistered) && s.cwg > 0
  {
    SetHandler(s, j, Gone).(cwg := s.cwg - 1, working := s.working - {s.handlers[j].c})
  }

  ghost function AfterBegin(s: State, k: nat): State
    requires CloseAt(s, k, Starting)
  {
    if s.closing then SetClose(s, k, Refused)
    else SetClose(s, k, WaitServes).(closing := true, closer := Some(k), closedListeners := s.closedListeners + s.listeners.Keys)
  }

  ghost function AfterKill(s: State, k: nat): State
    requires CloseAt(s, k, KillConns)
  {
    SetClose(s, k, WaitHandlers).(closedConns := s.closedConns + s.connections)
  }

  ghost function AfterClear(s: State, k: nat): State
    requires CloseAt(s, k, Clearing)
  {
    SetClose(s, k, ClosedDown).(closing := false, closer := None)
  }

  ghost function Next(s: State, ev: Event): State
    requires Enabled(s, ev)
  {
    match ev
    case CallsServe(l) => s.(serves := s.serves + [Serve(l, Registering)])
    case CallsClose => s.(closes := s.closes + [Starting])
    case TriesRegister(i) => AfterTry(s, i)
    case Accepts(i) => SetServe(s, i, Tracking(|s.places|)).(places := s.places + [AtServe(i)])
    case AcceptFails(i) => SetServe(s, i, Failed)
    case ChecksClosing(i, gives) => AfterCheck(s, i, gives)
    case Tracks(i) => AfterTrack(s, i)
    case Spawns(i) => AfterSpawn(s, i)
    case Leaves(i) => AfterLeave(s, i)
    case Unregisters(j) => AfterUnregister(s, j)
    case Finishes(j) => AfterFinish(s, j)
    case Begins(k) => AfterBegin(s, k)
    case ServesGone(k) => SetClose(s, k, KillConns)
    case Kills(k) => AfterKill(s, k)
    case HandlersGone(k) => SetClose(s, k, Clearing)
    case Clears(k) => AfterClear(s, k)
  }

  // -------------------------------------------------------------- invariant

  ghost predicate Registered(pc: ServePc) {
    !pc.Registering? && !pc.Returned?
  }

  ghost predicate UnderWay(pc: ClosePc) {
    !pc.Starting? && !pc.ClosedDown? && !pc.Refused?
  }

  ghost predicate ServeOk(s: State, i: nat)
    requires i < |s.serves|
  {
    var (l, pc) := (s.serves[i].l, s.serves[i].pc);
    && (i in s.serving <==> Registered(pc))
    && (Registered(pc) && !pc.Leaving? ==> l in s.listeners && s.listeners[l] == i)
    && (Registered(pc) && !pc.Leaving? && s.closing ==> l in s.closedListeners)
    && (pc.Tracking? ==> IsAt(s, pc.c, AtServe(i)) && pc.c !in s.working && pc.c !in s.connections)
    && (pc.Spawning? ==> IsAt(s, pc.c, AtServe(i)) && pc.c in s.working && pc.c in s.connections)
  }

  ghost predicate IsAt(s: State, c: Conn, place: Place) {
    c < |s.places| && s.places[c] == place
  }

  ghost predicate HandlerOk(s: State, j: nat)
    requires j < |s.handlers|
  {
    var (c, pc) := (s.handlers[j].c, s.handlers[j].pc);
    && IsAt(s, c, AtHandler(j))
    && (c in s.working <==> !pc.Gone?)
    && (pc.Running? <==> c in s.connections)
  }

  // A connection that is counted is about to get its handler, or has it.
  ghost predicate WorkOk(s: State, c: Conn) {
    && c < |s.places|
    && match s.places[c]
       case AtServe(i) => i < |s.serves| && s.serves[i].pc == Spawning(c)
       case AtHandler(j) => j < |s.handlers| && s.handlers[j].c == c
  }

  ghost predicate CloseOk(s: State) {
    && (s.closing <==> s.closer.Some?)
    && (forall k: nat | k < |s.closes| :: UnderWay(s.closes[k]) <==> s.closer == Some(k))
    && (s.closer.Some? ==> s.closer.value < |s.closes| && PhaseOk(s, s.closes[s.closer.value]))
  }

  ghost predicate PhaseOk(s: State, pc: ClosePc) {
    && (!pc.WaitServes? ==> s.serving == {})
    && (pc.WaitHandlers? ==> s.connections <= s.closedConns)
    && (pc.Clearing? ==> s.working == {})
  }

  ghost predicate Inv(s: State) {
    && s.wg == |s.serving| && s.cwg == |s.working| && s.connections <= s.working
    && (forall i <- s.serving :: i < |s.serves|)
    && (forall i: nat | i < |s.serves| :: ServeOk(s, i))
    && (forall j: nat | j < |s.handlers| :: HandlerOk(s, j))
    && (forall c <- s.working :: WorkOk(s, c))
    && CloseOk(s)
  }

  lemma Counting<T>(s: set<T>, x: T)
    ensures x !in s ==> |s + {x}| == |s| + 1
    ensures x in s ==> |s - {x}| == |s| - 1
  {
  }

  lemma ServeHas(s: State, i: nat)
    requires Inv(s)
    ensures i < |s.serves| ==> ServeOk(s, i)
  {
  }

  lemma HandlerHas(s: State, j: nat)
    requires Inv(s)
    ensures j < |s.handlers| ==> HandlerOk(s, j)
  {
  }

  lemma WorkHas(s: State, c: Conn)
    requires Inv(s)
    ensures c in s.working ==> WorkOk(s, c)
  {
  }

  lemma ServeStepKeeps(s: State, ev: Event)
    requires Inv(s) && Enabled(s, ev)
    requires ev.TriesRegister? || ev.Accepts? || ev.AcceptFails? || ev.ChecksClosing? || ev.Leaves?
    ensures Inv(Next(s, ev))
  {
    var u := Next(s, ev);
    assert u.handlers == s.handlers && u.connections == s.connections && u.working == s.working;
    ServeHas(s, ev.i);
    Counting(s.serving, ev.i);
    forall i: nat | i < |u.serves| ensures ServeOk(u, i) {
      ServeHas(s, i);
    }
    forall j: nat | j < |u.handlers| ensures HandlerOk(u, j) {
      HandlerHas(s, j);
    }
    forall c <- u.working ensures WorkOk(u, c) {
      WorkHas(s, c);
    }
  }

  lemma ConnStepKeeps(s: State, ev: Event)
    requires Inv(s) && Enabled(s, ev)
    requires ev.Tracks? || ev.Spawns?
    ensures Inv(Next(s, ev))
  {
    var u := Next(s, ev);
    ServeHas(s, ev.i);
    Counting(s.working, s.serves[ev.i].pc.c);
    forall i: nat | i < |u.serves| ensures ServeOk(u, i) {
      ServeHas(s, i);
    }
    forall j: nat | j < |u.handlers| ensures HandlerOk(u, j) {
      HandlerHas(s, j);
    }
    forall c <- u.working ensures WorkOk(u, c) {
      WorkHas(s, c);
    }
  }

  lemma HandlerStepKeeps(s: State, ev: Event)
    requires Inv(s) && Enabled(s, ev)
    requires ev.Unregisters? || ev.Finishes?
    ensures Inv(Next(s, ev))
  {
    var u := Next(s, ev);
    HandlerHas(s, ev.j);
    Counting(s.working, s.handlers[ev.j].c);
    forall i: nat | i < |u.serves| ensures ServeOk(u, i) {
      ServeHas(s, i);
    }
    forall j: nat | j < |u.handlers| ensures HandlerOk(u, j) {
      HandlerHas(s, j);
    }
    forall c <- u.working ensures WorkOk(u, c) {
      WorkHas(s, c);
    }
  }

  lemma CloseStepKeeps(s: State, ev: Event)
    requires Inv(s) && Enabled(s, ev)
    requires ev.Begins? || ev.ServesGone? || ev.Kills? || ev.HandlersGone? || ev.Clears? || ev.CallsServe? || ev.CallsClose?
    ensures Inv(Next(s, ev))
  {
    var u := Next(s, ev);
    forall i: nat | i < |u.serves| ensures ServeOk(u, i) {
      ServeHas(s, i);
    }
    forall j: nat | j < |u.handlers| ensures HandlerOk(u, j) {
      HandlerHas(s, j);
    }
    forall c <- u.working ensures WorkOk(u, c) {
      WorkHas(s, c);
    }
  }

  lemma StepKeeps(s: State, ev: Event)
    requires Inv(s) && Enabled(s, ev)
    ensures Inv(Next(s, ev))
  {
    if ev.Tracks? || ev.Spawns? {
      ConnStepKeeps(s, ev);
    } else if ev.Unregisters? || ev.Finishes? {
      HandlerStepKeeps(s, ev);
    } else if ev.TriesRegister? || ev.Accepts? || ev.AcceptFails? || ev.ChecksClosing? || ev.Leaves? {
      ServeStepKeeps(s, ev);
    } else {
      CloseStepKeeps(s, ev);
    }
  }

  // --------------------------------------------------------------- all runs

  ghost predicate Reaches(s: State, events: seq<Event>, t: State)
    decreases |events|
  {
    if events == [] then s == t
    else Enabled(s, events[0]) && Reaches(Next(s, events[0]), events[1..], t)
  }

  lemma {:induction false} RunKeeps(s: State, events: seq<Event>, t: State)
    requires Inv(s) && Reaches(s, events, t)
    ensures Inv(t)
    decreases |events|
  {
    if events != [] {
      StepKeeps(s, events[0]);
      RunKeeps(Next(s, events[0]), events[1..], t);
    }
  }

  ghost predicate Reachable(s: State) {
    exists events: seq<Event> :: Reaches(STOPPED, events, s)
  }

  lemma AlwaysInv(s: State)
    requires Reachable(s)
    ensures Inv(s)
  {
    var events: seq<Event> :| Reaches(STOPPED, events, s);
    RunKeeps(STOPPED, events, s);
  }

  // When Close is about to clear the flag that keeps the server down, no Serve call and no
  // handler is at work and no connection is left.
  lemma CleanShutdown(s: State, k: nat)
    requires Reachable(s) && CloseAt(s, k, Clearing)
    ensures s.closing && s.connections == {} && s.wg == 0 && s.cwg == 0
    ensures forall i: nat | i < |s.serves| :: !Registered(s.serves[i].pc)
    ensures forall j: nat | j < |s.handlers| :: s.handlers[j].pc.Gone?
  {
    AlwaysInv(s);
    assert UnderWay(s.closes[k]);
    forall i: nat | i < |s.serves| ensures !Registered(s.serves[i].pc) {
      ServeHas(s, i);
    }
    forall j: nat | j < |s.handlers| ensures s.handlers[j].pc.Gone? {
      HandlerHas(s, j);
    }
  }

  // Only one Close call gets past the guard.
  lemma OneCloser(s: State, k: nat, k': nat)
    requires Reachable(s) && k < |s.closes| && k' < |s.closes|
    requires UnderWay(s.closes[k]) && UnderWay(s.closes[k'])
    ensures k == k' && s.closing
  {
    AlwaysInv(s);
  }

  // While Close waits, everything it waits for has been told to stop: the listener of every
  // Serve call that may still accept is closed, and later the connection of every handler.
  lemma CloseWaitsForStopped(s: State, k: nat)
    requires Reachable(s) && k < |s.closes|
    ensures s.closes[k].WaitServes? ==> forall i: nat | i < |s.serves| && Registered(s.serves[i].pc) && !s.serves[i].pc.Leaving? ::
      s.serves[i].l in s.closedListeners
    ensures s.closes[k].WaitHandlers? ==> forall j: nat | j < |s.handlers| && s.handlers[j].pc.Running? :: s.handlers[j].c in s.closedConns
  {
    AlwaysInv(s);
    assert UnderWay(s.closes[k]) <==> s.closer == Some(k);
    if s.closes[k].WaitServes? {
      forall i: nat | i < |s.serves| && Registered(s.serves[i].pc) && !s.serves[i].pc.Leaving? ensures s.serves[i].l in s.closedListeners {
        ServeHas(s, i);
      }
    }
    if s.closes[k].WaitHandlers? {
      forall j: nat | j < |s.handlers| && s.handlers[j].pc.Running? ensures s.handlers[j].c in s.closedConns {
        HandlerHas(s, j);
      }
    }
  }

  // No connection is added to what Close waits for once all Serve calls are gone.
  lemma NoLateConnection(s: State, k: nat, ev: Event)
    requires Reachable(s) && CloseAt(s, k, WaitHandlers) && Enabled(s, ev)
    ensures Next(s, ev).cwg <= s.cwg && Next(s, ev).wg == 0
  {
    AlwaysInv(s);
    assert UnderWay(s.closes[k]);
    if ev.TriesRegister? || ev.Tracks? || ev.Leaves? {
      ServeHas(s, ev.i);
    }
  }

  // The wait groups never go below zero.
  lemma CountersSuffice(s: State)
    requires Reachable(s)
    ensures forall i: nat | ServeAt(s, i, Leaving) :: s.wg > 0
    ensures forall j: nat | HandlerAt(s, j, Unregistered) :: s.cwg > 0
  {
    AlwaysInv(s);
    forall i: nat | ServeAt(s, i, Leaving) ensures s.wg > 0 {
      ServeHas(s, i);
    }
    forall j: nat | HandlerAt(s, j, Unregistered) ensures s.cwg > 0 {
      HandlerHas(s, j);
    }
  }
}
