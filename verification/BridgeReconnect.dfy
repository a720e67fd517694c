/** The reconnect logic of the browser extension's background worker.  Handlers run to completion; timers,
    storage lookups and sockets are owned by the browser and may deliver their events in any order. */
module BridgeReconnect {
  import opened Options

  type SocketId = nat
  type TimerId = nat

  const DEFAULT_PORT := 8765

  // None stands for a value parseInt cannot read.
  function NormalizePort(value: Option<int>): int {
    if value.None? || value.value < 1024 || value.value > 65535 then DEFAULT_PORT else value.value
  }

  datatype Phase = Connecting | Open | Closing | Closed

  // `handlers` tells whether the four callbacks are still attached.
  datatype Socket = Socket(handlers: bool, phase: Phase, wasOpen: bool)

  // `ws`, `isConnected`, `activePort` and `reconnectTimer` are the worker's variables; the rest is what the
  // browser holds for it: sockets, armed timers and storage lookups not yet answered.
  datatype State = State(ws: Option<SocketId>, isConnected: bool, activePort: int, reconnectTimer: Option<TimerId>,
                         sockets: map<SocketId, Socket>, timers: set<TimerId>, lookups: nat, nextTimer: TimerId)

  datatype Event =
    | ReadDone(port: Option<int>, id: SocketId, constructed: bool)
    | TimerFires(t: TimerId)
    | OpenFires(id: SocketId) | ErrorFires(id: SocketId) | CloseFires(id: SocketId) | PeerCloses(id: SocketId)
    | PortChanged(port: Option<int>)

  // The worker has just been loaded and called connectWebSocket once.
  const INITIAL := State(None, false, DEFAULT_PORT, None, map[], {}, 1, 0)

  function ScheduleReconnect(s: State): State {
    var armed := if s.reconnectTimer.Some? then s.timers - {s.reconnectTimer.value} else s.timers;
    s.(timers := armed + {s.nextTimer}, reconnectTimer := Some(s.nextTimer), nextTimer := s.nextTimer + 1)
  }

  function CloseSocket(s: State): State {
    if s.ws.None? then s
    else
      var stale := s.ws.value;
      if stale !in s.sockets then s.(ws := None)
      else
        var phase := if s.sockets[stale].phase.Closed? then Closed else Closing;
        s.(ws := None, sockets := s.sockets[stale := s.sockets[stale].(handlers := false, phase := phase)])
  }

  function Disconnected(s: State): State { s.(isConnected := false) }

  function SetPhase(s: State, id: SocketId, phase: Phase, wasOpen: bool): State
    requires id in s.sockets
  {
    s.(sockets := s.sockets[id := s.sockets[id].(phase := phase, wasOpen := wasOpen)])
  }

  // Does an event of this socket reach the worker's variables?
  predicate Heard(s: State, id: SocketId) { id in s.sockets && s.sockets[id].handlers && s.ws == Some(id) }

  predicate CurrentIsOpen(s: State) { s.ws.Some? && s.ws.value in s.sockets && s.sockets[s.ws.value].phase.Open? }

  function Next(s: State, e: Event): State {
    match e
    case ReadDone(port, id, constructed) =>
      if s.lookups == 0 || id in s.sockets then s
      else
        var t := s.(lookups := s.lookups - 1, activePort := NormalizePort(port));
        if constructed then t.(ws := Some(id), sockets := t.sockets[id := Socket(true, Connecting, false)])
        else ScheduleReconnect(Disconnected(t))
    case TimerFires(t) =>
      if t !in s.timers then s else s.(timers := s.timers - {t}, reconnectTimer := None, lookups := s.lookups + 1)
    case OpenFires(id) =>
      if id !in s.sockets || !s.sockets[id].phase.Connecting? then s
      else
        var t := SetPhase(s, id, Open, true);
        if Heard(s, id) then t.(isConnected := true) else t
    case ErrorFires(id) =>
      if id !in s.sockets || s.sockets[id].phase.Closed? then s
      else
        var t := SetPhase(s, id, Closing, s.sockets[id].wasOpen);
        if Heard(s, id) then ScheduleReconnect(CloseSocket(Disconnected(t))) else t
    case CloseFires(id) =>
      if id !in s.sockets || s.sockets[id].phase.Closed? then s
      else
        var t := SetPhase(s, id, Closed, s.sockets[id].wasOpen);
        if Heard(s, id) then ScheduleReconnect(Disconnected(t)) else t
    case PeerCloses(id) =>
      if id !in s.sockets || s.sockets[id].phase.Closed? then s else SetPhase(s, id, Closing, s.sockets[id].wasOpen)
    case PortChanged(port) =>
      if NormalizePort(port) == s.activePort && CurrentIsOpen(s) then s
      else ScheduleReconnect(CloseSocket(Disconnected(s)))
  }

  function RunFrom(s: State, es: seq<Event>): State
    decreases |es|
  {
    if es == [] then s else RunFrom(Next(s, es[0]), es[1..])
  }

  function Run(es: seq<Event>): State { RunFrom(INITIAL, es) }

  // ---- invariant ----

  // The current socket can still deliver a close or an error to the worker.
  predicate Live(s: State) {
    s.ws.Some? && s.ws.value in s.sockets && s.sockets[s.ws.value].handlers && !s.sockets[s.ws.value].phase.Closed?
  }

  // Everything that will eventually lead to another connection attempt.
  function Pending(s: State): nat { |s.timers| + s.lookups + if Live(s) then 1 else 0 }

  // The timer variable and the current socket are as the browser holds them.
  predicate Shape(s: State) {
    && s.timers == (if s.reconnectTimer.Some? then {s.reconnectTimer.value} else {})
    && (s.ws.Some? ==> s.ws.value in s.sockets && s.sockets[s.ws.value].handlers)
  }

  predicate Inv(s: State) { Shape(s) && Pending(s) >= 1 }

  lemma ShapeStep(s: State, e: Event)
    requires Shape(s)
    ensures Shape(Next(s, e))
  { }

  lemma SocketEventPending(s: State, e: Event)
    requires Inv(s) && (e.OpenFires? || e.ErrorFires? || e.CloseFires? || e.PeerCloses?)
    ensures Pending(Next(s, e)) >= 1
  {
    var t := Next(s, e);
    if t.timers == {} { assert s.timers == {} && (Live(t) <==> Live(s)); }
  }

  lemma OtherEventPending(s: State, e: Event)
    requires Inv(s) && (e.ReadDone? || e.TimerFires? || e.PortChanged?)
    ensures Pending(Next(s, e)) >= 1
  {
    var t := Next(s, e);
    if t.timers != s.timers && !e.TimerFires? { assert s.nextTimer in t.timers; }
  }

  lemma InvStep(s: State, e: Event)
    requires Inv(s)
    ensures Inv(Next(s, e))
  {
    ShapeStep(s, e);
    if e.ReadDone? || e.TimerFires? || e.PortChanged? { OtherEventPending(s, e); } else { SocketEventPending(s, e); }
  }

  lemma {:induction false} InvFrom(s: State, es: seq<Event>)
    requires Inv(s)
    ensures Inv(RunFrom(s, es))
    decreases |es|
  {
    if es != [] {
      InvStep(s, es[0]);
      InvFrom(Next(s, es[0]), es[1..]);
    }
  }

  /** The worker never gets stuck: whatever the order of events, a timer is armed, or a storage read is
      outstanding, or the current socket still has its handlers and has not fired its close.  And the one timer
      variable always names the one armed timer. */
  lemma NeverStuck(es: seq<Event>)
    ensures var s := Run(es);
      && (s.timers != {} || s.lookups > 0 || Live(s))
      && |s.timers| <= 1
      && (forall t :: t in s.timers <==> s.reconnectTimer == Some(t))
  {
    InvFrom(INITIAL, es);
  }

  // ---- stale sockets ----

  predicate SameSocket(s: State, t: State, j: SocketId) {
    (j in s.sockets <==> j in t.sockets) && (j in s.sockets ==> s.sockets[j] == t.sockets[j])
  }

  // The same worker, up to one socket that is not current.
  ghost predicate AlikeBut(s: State, t: State, id: SocketId) {
    && s == t.(sockets := s.sockets)
    && (forall j :: j != id ==> SameSocket(s, t, j))
    && id in s.sockets && id in t.sockets && s.ws != Some(id)
  }

  predicate Of(e: Event, id: SocketId) {
    e == OpenFires(id) || e == ErrorFires(id) || e == CloseFires(id) || e == PeerCloses(id)
  }

  // The run without the events of one socket.
  function Silenced(es: seq<Event>, id: SocketId): seq<Event> {
    if es == [] then [] else (if Of(es[0], id) then [] else [es[0]]) + Silenced(es[1..], id)
  }

  lemma StaleStep(s: State, t: State, e: Event, id: SocketId)
    requires AlikeBut(s, t, id) && Of(e, id)
    ensures AlikeBut(Next(s, e), t, id)
  {
    forall j | j != id ensures SameSocket(Next(s, e), t, j) { assert SameSocket(s, t, j); }
  }

  lemma OtherSocketStep(s: State, t: State, e: Event, id: SocketId)
    requires AlikeBut(s, t, id) && !Of(e, id) && (e.OpenFires? || e.ErrorFires? || e.CloseFires? || e.PeerCloses?)
    ensures AlikeBut(Next(s, e), Next(t, e), id)
  {
    assert SameSocket(s, t, e.id);
    if s.ws.Some? { assert SameSocket(s, t, s.ws.value); }
    forall j | j != id ensures SameSocket(Next(s, e), Next(t, e), j) { assert SameSocket(s, t, j); }
  }

  lemma WorkerStep(s: State, t: State, e: Event, id: SocketId)
    requires AlikeBut(s, t, id) && (e.ReadDone? || e.TimerFires? || e.PortChanged?)
    ensures AlikeBut(Next(s, e), Next(t, e), id)
  {
    if e.ReadDone? && e.id != id { assert SameSocket(s, t, e.id); }
    if s.ws.Some? { assert SameSocket(s, t, s.ws.value); }
    forall j | j != id ensures SameSocket(Next(s, e), Next(t, e), j) { assert SameSocket(s, t, j); }
  }

  lemma {:induction false} AlikeFrom(s: State, t: State, es: seq<Event>, id: SocketId)
    requires AlikeBut(s, t, id)
    ensures AlikeBut(RunFrom(s, es), RunFrom(t, Silenced(es, id)), id)
    decreases |es|
  {
    if es != [] {
      var e := es[0];
      if Of(e, id) {
        StaleStep(s, t, e, id);
        AlikeFrom(Next(s, e), t, es[1..], id);
        assert Silenced(es, id) == Silenced(es[1..], id);
      } else {
        if e.ReadDone? || e.TimerFires? || e.PortChanged? {
          WorkerStep(s, t, e, id);
        } else {
          OtherSocketStep(s, t, e, id);
        }
        AlikeFrom(Next(s, e), Next(t, e), es[1..], id);
        assert Silenced(es, id)[0] == e && Silenced(es, id)[1..] == Silenced(es[1..], id);
      }
    }
  }

  /** A socket that is no longer current has lost its voice for good: leaving out every later event of it gives the
      same worker, timers, reads and other sockets at the end of any run. */
  lemma StaleSocketsIgnored(s: State, es: seq<Event>, id: SocketId)
    requires id in s.sockets && s.ws != Some(id)
    ensures AlikeBut(RunFrom(s, es), RunFrom(s, Silenced(es, id)), id)
  {
    AlikeFrom(s, s, es, id);
  }

  // ---- how many attempts are under way ----

  // A port change that is acted on although a storage read is still outstanding.
  predicate Overlaps(s: State, e: Event) {
    e.PortChanged? && s.lookups > 0 && !(NormalizePort(e.port) == s.activePort && CurrentIsOpen(s))
  }

  // Some prefix of the run is followed by an overlapping port change.
  predicate NoOverlap(s: State, es: seq<Event>)
    decreases |es|
  {
    es == [] || (!Overlaps(s, es[0]) && NoOverlap(Next(s, es[0]), es[1..]))
  }

  lemma PortChangedCount(s: State, port: Option<int>)
    requires Inv(s) && Pending(s) == 1
    ensures Pending(Next(s, PortChanged(port))) == 1 <==> !Overlaps(s, PortChanged(port))
  { }

  lemma ReadDoneCount(s: State, e: Event)
    requires Inv(s) && Pending(s) == 1 && e.ReadDone?
    ensures Pending(Next(s, e)) == 1
  { }

  lemma SocketEventCount(s: State, e: Event)
    requires Inv(s) && Pending(s) == 1 && (e.OpenFires? || e.ErrorFires? || e.CloseFires? || e.PeerCloses?)
    ensures Pending(Next(s, e)) == 1
  { }

  /** One step away from a single attempt under way: it stays a single one if and only if the step is not a
      port change during an outstanding read. */
  lemma SingleStaysIff(s: State, e: Event)
    requires Inv(s) && Pending(s) == 1
    ensures Pending(Next(s, e)) == 1 <==> !Overlaps(s, e)
  {
    match e
    case PortChanged(_) => PortChangedCount(s, e.port);
    case TimerFires(t) => if t in s.timers { assert Next(s, e).timers == {}; }
    case ReadDone(_, _, _) => ReadDoneCount(s, e);
    case _ => SocketEventCount(s, e);
  }

  // What the flag claims: the current socket has opened and has not yet fired its close.
  predicate Truthful(s: State) {
    s.isConnected ==> Live(s) && s.sockets[s.ws.value].wasOpen
  }

  /** One step away from a truthful flag: it stays truthful if and only if the step is not a storage answer
      that installs a new socket over the connected one. */
  lemma TruthfulStaysIff(s: State, e: Event)
    requires Inv(s) && Truthful(s)
    ensures Truthful(Next(s, e)) <==>
      !(s.isConnected && e.ReadDone? && e.constructed && s.lookups > 0 && e.id !in s.sockets)
  { }

  lemma {:induction false} SingleFrom(s: State, es: seq<Event>)
    requires Inv(s) && Pending(s) == 1 && Truthful(s) && NoOverlap(s, es)
    ensures var t := RunFrom(s, es); Inv(t) && Pending(t) == 1 && Truthful(t)
    decreases |es|
  {
    if es != [] {
      InvStep(s, es[0]);
      SingleStaysIff(s, es[0]);
      TruthfulStaysIff(s, es[0]);
      SingleFrom(Next(s, es[0]), es[1..]);
    }
  }

  /** On every run without a port change during an outstanding read there is always exactly one attempt under
      way, and `isConnected` implies that the current socket has opened and not closed. */
  lemma OneAttemptWithoutOverlap(es: seq<Event>)
    requires NoOverlap(INITIAL, es)
    ensures Pending(Run(es)) == 1 && Truthful(Run(es))
  {
    SingleFrom(INITIAL, es);
  }

  // Exactly one attempt is under way now and after every event.
  ghost predicate AlwaysOne(s: State, es: seq<Event>)
    decreases |es|
  {
    Pending(s) == 1 && (es == [] || AlwaysOne(Next(s, es[0]), es[1..]))
  }

  lemma {:induction false} AlwaysOneFrom(s: State, es: seq<Event>)
    requires Inv(s) && Pending(s) == 1
    ensures AlwaysOne(s, es) <==> NoOverlap(s, es)
    decreases |es|
  {
    if es != [] {
      SingleStaysIff(s, es[0]);
      InvStep(s, es[0]);
      if !Overlaps(s, es[0]) { AlwaysOneFrom(Next(s, es[0]), es[1..]); }
    }
  }

  // A storage answer puts a new socket in the place of a connected one.
  predicate Displaces(s: State, e: Event) {
    s.isConnected && e.ReadDone? && e.constructed && s.lookups > 0 && e.id !in s.sockets
  }

  ghost predicate NeverDisplaced(s: State, es: seq<Event>)
    decreases |es|
  {
    es == [] || (!Displaces(s, es[0]) && NeverDisplaced(Next(s, es[0]), es[1..]))
  }

  ghost predicate AlwaysTruthful(s: State, es: seq<Event>)
    decreases |es|
  {
    Truthful(s) && (es == [] || AlwaysTruthful(Next(s, es[0]), es[1..]))
  }

  lemma {:induction false} AlwaysTruthfulFrom(s: State, es: seq<Event>)
    requires Inv(s) && Truthful(s)
    ensures AlwaysTruthful(s, es) <==> NeverDisplaced(s, es)
    decreases |es|
  {
    if es != [] {
      TruthfulStaysIff(s, es[0]);
      InvStep(s, es[0]);
      if !Displaces(s, es[0]) { AlwaysTruthfulFrom(Next(s, es[0]), es[1..]); }
    }
  }

  /** Over a whole run: there is one attempt at every instant if and only if no port change is acted on during an
      outstanding read, and the flag is truthful at every instant if and only if no storage answer displaces a
      connected socket. */
  lemma WholeRunIff(es: seq<Event>)
    ensures AlwaysOne(INITIAL, es) <==> NoOverlap(INITIAL, es)
    ensures AlwaysTruthful(INITIAL, es) <==> NeverDisplaced(INITIAL, es)
  {
    AlwaysOneFrom(INITIAL, es);
    AlwaysTruthfulFrom(INITIAL, es);
  }

  /** A port change during the very first read shows the other side: two attempts run, and the second replaces
      a connected socket, which keeps its handlers and stays open, by one that has not connected. */
  lemma OverlapLeavesStaleFlag()
    ensures var es := [PortChanged(Some(9000)), TimerFires(0), ReadDone(Some(9000), 0, true), OpenFires(0),
                       ReadDone(Some(9000), 1, true)];
      var s := Run(es);
      s.isConnected && s.ws == Some(1) && s.sockets[1].phase.Connecting?
      && s.sockets[0].handlers && s.sockets[0].phase.Open?
  {
    var e0, e1, e2 := PortChanged(Some(9000)), TimerFires(0), ReadDone(Some(9000), 0, true);
    var e3, e4 := OpenFires(0), ReadDone(Some(9000), 1, true);
    var s1 := Next(INITIAL, e0);
    var s2 := Next(s1, e1);
    var s3 := Next(s2, e2);
    var s4 := Next(s3, e3);
    assert RunFrom(s4, [e4]) == RunFrom(Next(s4, e4), []);
    assert [e3, e4][1..] == [e4];
    assert RunFrom(s3, [e3, e4]) == RunFrom(s4, [e4]);
    assert [e2, e3, e4][1..] == [e3, e4];
    assert RunFrom(s2, [e2, e3, e4]) == RunFrom(s3, [e3, e4]);
    assert [e1, e2, e3, e4][1..] == [e2, e3, e4];
    assert RunFrom(s1, [e1, e2, e3, e4]) == RunFrom(s2, [e2, e3, e4]);
    assert [e0, e1, e2, e3, e4][1..] == [e1, e2, e3, e4];
  }

  // ---- coming back ----

  // Disconnected, with the one timer of the next attempt armed.
  predicate Waiting(s: State) {
    !s.isConnected && s.reconnectTimer.Some? && s.timers == {s.reconnectTimer.value}
  }

  // The port that the user has set, if it is one that may be used.
  predicate UsesPort(s: State, port: Option<int>) {
    if port.Some? && 1024 <= port.value <= 65535 then s.activePort == port.value else s.activePort == 8765
  }

  lemma ScheduleWaits(s: State)
    requires Shape(s) && !s.isConnected
    ensures var t := ScheduleReconnect(s); Waiting(t) && t.sockets == s.sockets && t.ws == s.ws
  { }

  lemma ClosedForGood(s: State)
    requires Shape(s)
    ensures var t := CloseSocket(s);
      && Shape(t) && t.ws == None && t.isConnected == s.isConnected && t.sockets.Keys == s.sockets.Keys
      && (s.ws.Some? ==> LetGo(s.sockets[s.ws.value], t.sockets[s.ws.value]))
  { }

  // The callbacks are detached and the socket is closing, or closed if it was.
  predicate LetGo(before: Socket, after: Socket) {
    !after.handlers && if before.phase.Closed? then after.phase.Closed? else after.phase.Closing?
  }

  lemma LossWaits(s: State, e: Event)
    requires Shape(s) && s.ws.Some? && (e == CloseFires(s.ws.value) || e == ErrorFires(s.ws.value))
    requires !s.sockets[s.ws.value].phase.Closed?
    ensures var t := Next(s, e);
      && Waiting(t) && t.sockets.Keys == s.sockets.Keys
      && (if e.CloseFires? then t.ws == s.ws && t.sockets[s.ws.value].phase.Closed?
          else t.ws == None && LetGo(s.sockets[s.ws.value], t.sockets[s.ws.value]))
  {
    var id := s.ws.value;
    var u := Disconnected(SetPhase(s, id, if e.CloseFires? then Closed else Closing, s.sockets[id].wasOpen));
    assert Heard(s, id) && Shape(u);
    if e.CloseFires? {
      ScheduleWaits(u);
    } else {
      ClosedForGood(u);
      ScheduleWaits(CloseSocket(u));
    }
  }

  lemma PortChangeWaits(s: State, port: Option<int>)
    requires Shape(s) && !(CurrentIsOpen(s) && UsesPort(s, port))
    ensures var t := Next(s, PortChanged(port));
      && Waiting(t) && t.sockets.Keys == s.sockets.Keys && t.ws == None
      && (s.ws.Some? ==> LetGo(s.sockets[s.ws.value], t.sockets[s.ws.value]))
  {
    ClosedForGood(Disconnected(s));
    ScheduleWaits(CloseSocket(Disconnected(s)));
  }

  lemma AttemptConnects(s: State, port: Option<int>, id: SocketId)
    requires Waiting(s) && id !in s.sockets
    ensures var t := Next(Next(Next(s, TimerFires(s.reconnectTimer.value)), ReadDone(port, id, true)), OpenFires(id));
      && t.isConnected && t.ws == Some(id) && CurrentIsOpen(t) && UsesPort(t, port)
      && t.timers == {} && t.reconnectTimer == None && t.lookups == s.lookups
  { }

  lemma RunFour(s: State, a: Event, b: Event, c: Event, d: Event)
    ensures RunFrom(s, [a, b, c, d]) == Next(Next(Next(Next(s, a), b), c), d)
  {
    var s1, s2, s3 := Next(s, a), Next(Next(s, a), b), Next(Next(Next(s, a), b), c);
    assert [a, b, c, d][1..] == [b, c, d] && [b, c, d][1..] == [c, d] && [c, d][1..] == [d] && [d][1..] == [];
    assert RunFrom(s3, [d]) == RunFrom(Next(s3, d), []);
    assert RunFrom(s2, [c, d]) == RunFrom(s3, [d]);
    assert RunFrom(s1, [b, c, d]) == RunFrom(s2, [c, d]);
  }

  /** What reconnecting is for: from any reachable state, when the current socket closes or fails, or the port is
      changed to one the worker is not connected on, then once the timer fires, the port is read and the new socket
      opens, the worker is connected on that socket, at the port that was read, with no timer left. */
  lemma ComesBack(es: seq<Event>, e: Event, port: Option<int>, id: SocketId)
    requires var s := Run(es);
      && id !in s.sockets
      && (|| (e == PortChanged(port) && !(CurrentIsOpen(s) && UsesPort(s, port)))
          || (s.ws.Some? && s.ws.value in s.sockets && !s.sockets[s.ws.value].phase.Closed?
              && (e == CloseFires(s.ws.value) || e == ErrorFires(s.ws.value))))
    ensures var s := Run(es);
      var timer := Next(s, e).reconnectTimer;
      && timer.Some?
      && var t := RunFrom(s, [e, TimerFires(timer.value), ReadDone(port, id, true), OpenFires(id)]);
         t.isConnected && t.ws == Some(id) && CurrentIsOpen(t) && UsesPort(t, port) && t.timers == {}
  {
    var s := Run(es);
    InvFrom(INITIAL, es);
    if e.PortChanged? { PortChangeWaits(s, port); } else { LossWaits(s, e); }
    var t := Next(s, e);
    AttemptConnects(t, port, id);
    RunFour(s, e, TimerFires(t.reconnectTimer.value), ReadDone(port, id, true), OpenFires(id));
  }

  /** A port change leaves an open connection alone if and only if it is on that port already. */
  lemma PortChangeKeepsIff(s: State, port: Option<int>)
    ensures Next(s, PortChanged(port)) == s <==> CurrentIsOpen(s) && UsesPort(s, port)
  { }

  /** A close begun by the other end is not noticed before its event: only the socket itself is closing. */
  lemma PeerCloseIsSilent(s: State, id: SocketId)
    requires id in s.sockets && !s.sockets[id].phase.Closed?
    ensures Next(s, PeerCloses(id)) == s.(sockets := s.sockets[id := s.sockets[id].(phase := Closing)])
  { }

  /** A socket that cannot be constructed costs no more than another wait. */
  lemma FailedConstructionWaits(es: seq<Event>, port: Option<int>, id: SocketId)
    requires var s := Run(es); s.lookups > 0 && id !in s.sockets
    ensures var t := Next(Run(es), ReadDone(port, id, false)); Waiting(t) && UsesPort(t, port)
  {
    InvFrom(INITIAL, es);
  }

  // ---- the worker ----

  class Worker {
    var ws: Option<SocketId>
    var isConnected: bool
    var activePort: int
    var reconnectTimer: Option<TimerId>
    var sockets: map<SocketId, Socket>
    var timers: set<TimerId>
    var lookups: nat
    var nextTimer: TimerId

    ghost function View(): State
      reads this
    {
      State(ws, isConnected, activePort, reconnectTimer, sockets, timers, lookups, nextTimer)
    }

    constructor ()
      ensures View() == INITIAL
    {
      ws, isConnected, activePort, reconnectTimer := None, false, DEFAULT_PORT, None;
      sockets, timers, lookups, nextTimer := map[], {}, 1, 0;
    }

    method Schedule()
      modifies this
      ensures View() == ScheduleReconnect(old(View()))
    {
      if reconnectTimer.Some? { timers := timers - {reconnectTimer.value}; }
      timers := timers + {nextTimer};
      reconnectTimer, nextTimer := Some(nextTimer), nextTimer + 1;
    }

    method CloseCurrent()
      modifies this
      ensures View() == CloseSocket(old(View()))
    {
      if ws.None? { return; }
      var stale := ws.value;
      ws := None;
      if stale in sockets {
        var phase := if sockets[stale].phase.Closed? then Closed else Closing;
        sockets := sockets[stale := sockets[stale].(handlers := false, phase := phase)];
      }
    }

    /** The answer of the storage read inside connectWebSocket. */
    method OnStorage(port: Option<int>, id: SocketId, constructed: bool)
      requires lookups > 0 && id !in sockets
      modifies this
      ensures View() == Next(old(View()), ReadDone(port, id, constructed))
    {
      lookups, activePort := lookups - 1, NormalizePort(port);
      if !constructed {
        isConnected := false;
        Schedule();
        return;
      }
      sockets, ws := sockets[id := Socket(true, Connecting, false)], Some(id);
    }

    method OnTimer(t: TimerId)
      requires t in timers
      modifies this
      ensures View() == Next(old(View()), TimerFires(t))
    {
      timers, reconnectTimer, lookups := timers - {t}, None, lookups + 1;
    }

    method OnOpen(id: SocketId)
      requires id in sockets && sockets[id].phase.Connecting?
      modifies this
      ensures View() == Next(old(View()), OpenFires(id))
    {
      sockets := sockets[id := sockets[id].(phase := Open, wasOpen := true)];
      if sockets[id].handlers && ws == Some(id) { isConnected := true; }
    }

    method OnError(id: SocketId)
      requires id in sockets && !sockets[id].phase.Closed?
      modifies this
      ensures View() == Next(old(View()), ErrorFires(id))
    {
      sockets := sockets[id := sockets[id].(phase := Closing)];
      if !(sockets[id].handlers && ws == Some(id)) { return; }
      isConnected := false;
      CloseCurrent();
      Schedule();
    }

    method OnClose(id: SocketId)
      requires id in sockets && !sockets[id].phase.Closed?
      modifies this
      ensures View() == Next(old(View()), CloseFires(id))
    {
      sockets := sockets[id := sockets[id].(phase := Closed)];
      if !(sockets[id].handlers && ws == Some(id)) { return; }
      isConnected := false;
      Schedule();
    }

    method OnPortChanged(port: Option<int>)
      modifies this
      ensures View() == Next(old(View()), PortChanged(port))
    {
      if NormalizePort(port) == activePort && ws.Some? && ws.value in sockets && sockets[ws.value].phase.Open? {
        return;
      }
      isConnected := false;
      CloseCurrent();
      Schedule();
    }

    // Can the browser deliver this event now?
    predicate Deliverable(e: Event)
      reads this
    {
      match e
      case ReadDone(_, id, _) => lookups > 0 && id !in sockets
      case TimerFires(t) => t in timers
      case OpenFires(id) => id in sockets && sockets[id].phase.Connecting?
      case ErrorFires(id) => id in sockets && !sockets[id].phase.Closed?
      case CloseFires(id) => id in sockets && !sockets[id].phase.Closed?
      case PeerCloses(id) => id in sockets && !sockets[id].phase.Closed?
      case PortChanged(_) => true
    }

    // One event: its handler runs, or, for a close by the other end, none yet.
    method Deliver(e: Event)
      modifies this
      ensures View() == Next(old(View()), e)
    {
      if !Deliverable(e) { return; }
      match e {
        case ReadDone(port, id, constructed) => OnStorage(port, id, constructed);
        case TimerFires(t) => OnTimer(t);
        case OpenFires(id) => OnOpen(id);
        case ErrorFires(id) => OnError(id);
        case CloseFires(id) => OnClose(id);
        case PeerCloses(id) => sockets := sockets[id := sockets[id].(phase := Closing)];
        case PortChanged(port) => OnPortChanged(port);
      }
    }

    /** Any sequence of handler calls on one worker is a run of the machine, so what holds of all runs holds of the
        worker's variables: it is never stuck. */
    method Replay(es: seq<Event>)
      modifies this
      ensures View() == RunFrom(old(View()), es)
      ensures old(View()) == INITIAL ==> timers != {} || lookups > 0 || Live(View())
    {
      ghost var start := View();
      var i := 0;
      while i < |es|
        invariant 0 <= i <= |es|
        invariant RunFrom(View(), es[i..]) == RunFrom(start, es)
      {
        assert es[i..][1..] == es[i + 1..];
        Deliver(es[i]);
        i := i + 1;
      }
      if start == INITIAL { NeverStuck(es); }
    }
  }
}
