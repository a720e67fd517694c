/** The loop owner of the desktop shell: callers hand coroutines to a loop that another thread may stop.

    Every statement that touches shared state is one event, so an event list is one interleaving of any
    number of `run()` calls, any number of `stop()` calls and the loop thread.  A disabled event changes
    nothing, which makes `Run` total and lets every theorem quantify over all event lists. */
module BackendRuntime {
  import opened Options

  type CallId = nat
  type StopId = nat

  datatype LoopPhase = Absent | Starting | Running | Draining | Closed
  datatype Fut = Pending | Done | Cancelled
  datatype Outcome = NotStarted | Refused | LoopClosed | Completed | WasCancelled | TimedOut

  // Where a `run()` call stands: the next statement it will execute.
  datatype CallPc =
    | AtLoop | AtStopping | AtStopped | AtClosed | AtSubmit
    | AtInsert | AtResult | AtCancel(o: Outcome) | AtDiscard(o: Outcome) | Left(o: Outcome)

  // Where a `stop()` call stands.  `gap` is a history variable: the callers that had read `_stopping` as
  // clear but had not yet inserted their future when this call copied `_inflight`.
  datatype StopPc =
    | AtGuard | AtFlag | AtSnapshot
    | AtCancelEach(todo: set<CallId>, gap: set<CallId>)
    | AtCallSoon(gap: set<CallId>) | AtWait(gap: set<CallId>)
    | StopSkipped | StopLeft(gap: set<CallId>) | StopRaised(gap: set<CallId>)
  {
    predicate PastFlag() { !AtGuard? && !AtFlag? && !StopSkipped? }
    predicate PastSnapshot() { PastFlag() && !AtSnapshot? }
    predicate CancelsDone() { PastSnapshot() && !AtCancelEach? }
  }

  // The fields of the runtime object itself, and what its loop has queued: `asked` counts the loop.stop handles not
  // yet run, and `callback` says that the done-callback of a finished wait, which stops the loop too, is left over.
  datatype Core = Core(loop: LoopPhase, stopping: bool, stopped: bool, asked: nat, callback: bool,
                       futs: map<CallId, Fut>, inflight: set<CallId>)

  // The task of `_startup`; it may outlive the session of the loop that waited for it.
  datatype StartTask = NotBegun | Entering | Entered | Failed

  // The task of `_shutdown`: before its first step, inside the lifespan's exit, after it, or over.
  datatype EndTask = NoTask | Created | Exiting | Exited | Over

  // What the loop thread does to the lifespan.  `started` is `_lifespan_started`; the rest are history variables:
  // how often the lifespan was entered, its exit begun and finished, how many stop requests were queued in all,
  // whether one of them broke off the startup, and how many were queued when the startup took its last step or, after
  // that, when its session ended: they run in the next turn at the latest.
  datatype Life = Life(startup: StartTask, started: bool, shutdown: EndTask, entries: nat, begun: nat, exits: nat,
                       requests: nat, broken: bool, queued: nat)

  datatype State = State(core: Core, life: Life, calls: map<CallId, CallPc>, stops: map<StopId, StopPc>)

  // Steps of the loop thread.  A session of the loop ends with the turn in which a queued stop or a done-callback
  // runs; `taken` is how many stops run in that turn.  A finished startup ends its session in one of two turns: the
  // one of its last step, if a stop runs there (`early`), which leaves its done-callback queued; otherwise the next
  // one, in which the callback runs, together with every stop queued by then.
  datatype LoopEvent =
    | Launch | Enter | FailStartup
    | StartupReturns(taken: nat, early: bool) | StartupRaises(taken: nat, early: bool)
    | StartupBroken(taken: nat) | Halt(taken: nat)
    | BeginShutdown | FinishExit | EscapeExit | FinishShutdown | CloseLoop | SetStopped

  datatype Event =
    | Loop(e: LoopEvent)
    | Call(c: CallId) | CallStep(c: CallId) | FutureDone(c: CallId) | Timeout(c: CallId)
    | Stop(k: StopId) | StopStep(k: StopId) | CancelOne(k: StopId, c: CallId) | StopTimeout(k: StopId)

  const INITIAL := State(Core(Absent, false, false, 0, false, map[], {}),
                         Life(NotBegun, false, NoTask, 0, 0, 0, 0, false, 0), map[], map[])

  // ---- the runtime's own fields, one function per critical section ----

  function CancelFuture(r: Core, c: CallId): Core {
    if c in r.futs && r.futs[c] == Pending then r.(futs := r.futs[c := Cancelled]) else r
  }

  function Submitted(r: Core, c: CallId): Core { r.(futs := r.futs[c := Pending]) }

  function Linked(r: Core, c: CallId): Core { r.(inflight := r.inflight + {c}) }

  function Unlinked(r: Core, c: CallId): Core { r.(inflight := r.inflight - {c}) }

  function Flagged(r: Core): Core { r.(stopping := true) }

  function StopAsked(r: Core): Core { r.(asked := r.asked + 1) }

  // ---- interleaving ----

  predicate InGap(pc: CallPc) { pc.AtStopped? || pc.AtClosed? || pc.AtSubmit? || pc.AtInsert? }

  // The next statement of call `c`, given the fields it can read.
  function CallPcAfter(r: Core, c: CallId, pc: CallPc): CallPc {
    match pc
    case AtLoop => if r.loop.Absent? then Left(NotStarted) else AtStopping
    case AtStopping => if r.stopping then Left(Refused) else AtStopped
    case AtStopped => if r.stopped then Left(Refused) else AtClosed
    case AtClosed => if r.loop.Closed? then Left(Refused) else AtSubmit
    case AtSubmit => if r.loop.Closed? then Left(LoopClosed) else AtInsert
    case AtInsert => AtResult
    case AtResult =>
      if c !in r.futs || r.futs[c] == Pending then AtResult
      else AtCancel(if r.futs[c] == Done then Completed else WasCancelled)
    case AtCancel(o) => AtDiscard(o)
    case AtDiscard(o) => Left(o)
    case Left(o) => Left(o)
  }

  // What that statement does to the shared fields.
  function CoreAfter(r: Core, c: CallId, pc: CallPc): Core {
    match pc
    case AtSubmit => if r.loop.Closed? then r else Submitted(r, c)
    case AtInsert => Linked(r, c)
    case AtCancel(_) => CancelFuture(r, c)
    case AtDiscard(_) => Unlinked(r, c)
    case _ => r
  }

  function CallNext(s: State, c: CallId): State
    requires c in s.calls
  {
    s.(core := CoreAfter(s.core, c, s.calls[c]), calls := s.calls[c := CallPcAfter(s.core, c, s.calls[c])])
  }

  function Gap(s: State): set<CallId> { set c | c in s.calls && InGap(s.calls[c]) }

  function Advance(s: State, k: StopId, pc: StopPc): State { s.(stops := s.stops[k := pc]) }

  function StopNext(s: State, k: StopId): State
    requires k in s.stops
  {
    var r := s.core;
    match s.stops[k]
    case AtGuard => Advance(s, k, if r.loop.Absent? || r.stopped then StopSkipped else AtFlag)
    case AtFlag => Advance(s.(core := Flagged(r)), k, AtSnapshot)
    case AtSnapshot => Advance(s, k, AtCancelEach(r.inflight, Gap(s)))
    case AtCancelEach(todo, gap) => if todo == {} then Advance(s, k, AtCallSoon(gap)) else s
    case AtCallSoon(gap) =>
      if r.loop.Closed? then Advance(s, k, StopRaised(gap))
      else Advance(s.(core := StopAsked(r), life := s.life.(requests := s.life.requests + 1)), k, AtWait(gap))
    case AtWait(gap) => if r.stopped then Advance(s, k, StopLeft(gap)) else s
    case _ => s
  }

  // A session ends: the loop moves on to `phase`, and `taken` of the queued stops are used up.
  function SessionEnds(r: Core, phase: LoopPhase, taken: nat, callback: bool): Core
    requires taken <= r.asked
  {
    r.(loop := phase, asked := r.asked - taken, callback := callback)
  }

  // The stops that run in the turn that ends the session of a finished startup.
  predicate LastTurn(r: Core, l: Life, taken: nat, early: bool) {
    taken <= r.asked && if early then 1 <= taken <= l.queued else l.queued <= taken
  }

  // A stop, or a left-over callback, ends the session of run_forever; what was queued before runs in its first turn.
  predicate CanHalt(r: Core, l: Life, taken: nat) {
    r.loop.Running? && l.queued <= taken <= r.asked && (taken >= 1 || r.callback)
  }

  function LoopCore(r: Core, l: Life, e: LoopEvent): Core {
    match e
    case Launch => if r.loop.Absent? then r.(loop := Starting) else r
    case StartupReturns(n, early) =>
      if r.loop.Starting? && l.startup.Entered? && LastTurn(r, l, n, early)
      then SessionEnds(r, Running, n, early) else r
    case StartupRaises(n, early) =>
      if r.loop.Starting? && l.startup.Failed? && LastTurn(r, l, n, early)
      then SessionEnds(r, Draining, n, early) else r
    case StartupBroken(n) =>
      if r.loop.Starting? && l.startup.Entering? && 1 <= n <= r.asked then SessionEnds(r, Draining, n, false) else r
    case Halt(n) => if CanHalt(r, l, n) then SessionEnds(r, Draining, n, false) else r
    // the shutdown task is over, or a stop breaks it off; its first step runs in any case
    case CloseLoop =>
      if r.loop.Draining? && (l.shutdown.Over? || ((r.asked >= 1 || r.callback) && !l.shutdown.Created?))
      then r.(loop := Closed) else r
    case SetStopped => if r.loop.Closed? then r.(stopped := true) else r
    case _ => r
  }

  function LoopLife(r: Core, l: Life, e: LoopEvent): Life {
    match e
    case Launch => if r.loop.Absent? then l.(startup := Entering) else l
    // while the loop turns, also in the shutdown's session when the startup was broken off
    case Enter =>
      if (r.loop.Starting? || r.loop.Draining?) && l.startup.Entering?
      then l.(startup := Entered, started := true, entries := l.entries + 1, queued := r.asked) else l
    case FailStartup =>
      if (r.loop.Starting? || r.loop.Draining?) && l.startup.Entering? then l.(startup := Failed, queued := r.asked)
      else l
    case StartupReturns(n, early) =>
      if r.loop.Starting? && l.startup.Entered? && LastTurn(r, l, n, early) then l.(queued := r.asked - n) else l
    case StartupRaises(n, early) =>
      if r.loop.Starting? && l.startup.Failed? && LastTurn(r, l, n, early) then l.(shutdown := Created) else l
    case StartupBroken(n) =>
      if r.loop.Starting? && l.startup.Entering? && 1 <= n <= r.asked
      then l.(shutdown := Created, broken := true) else l
    case Halt(n) => if CanHalt(r, l, n) then l.(shutdown := Created) else l
    case BeginShutdown =>
      if !r.loop.Draining? || !l.shutdown.Created? then l
      else if l.started then l.(started := false, begun := l.begun + 1, shutdown := Exiting)
      else l.(shutdown := Exited)
    // the exit returns, or raises an ordinary exception, which is logged
    case FinishExit =>
      if r.loop.Draining? && l.shutdown.Exiting? then l.(exits := l.exits + 1, shutdown := Exited) else l
    // an exception that is not an Exception ends the task inside the exit
    case EscapeExit => if r.loop.Draining? && l.shutdown.Exiting? then l.(shutdown := Over) else l
    case FinishShutdown => if r.loop.Draining? && l.shutdown.Exited? then l.(shutdown := Over) else l
    case _ => l
  }

  function Next(s: State, e: Event): State {
    var r := s.core;
    match e
    case Loop(le) => s.(core := LoopCore(r, s.life, le), life := LoopLife(r, s.life, le))
    case Call(c) => if c in s.calls then s else s.(calls := s.calls[c := AtLoop])
    case CallStep(c) => if c in s.calls then CallNext(s, c) else s
    case FutureDone(c) =>
      if !r.loop.Closed? && c in r.futs && r.futs[c] == Pending then s.(core := r.(futs := r.futs[c := Done])) else s
    // a wait that ran out looks at the future once more, and a finished one decides the answer
    case Timeout(c) =>
      if c in s.calls && s.calls[c] == AtResult && c in r.futs && r.futs[c] == Pending
      then s.(calls := s.calls[c := AtCancel(TimedOut)]) else s
    case Stop(k) => if k in s.stops then s else Advance(s, k, AtGuard)
    case StopStep(k) => if k in s.stops then StopNext(s, k) else s
    case CancelOne(k, c) =>
      if k in s.stops && s.stops[k].AtCancelEach? && c in s.stops[k].todo
      then Advance(s.(core := CancelFuture(r, c)), k, AtCancelEach(s.stops[k].todo - {c}, s.stops[k].gap))
      else s
    case StopTimeout(k) =>
      if k in s.stops && s.stops[k].AtWait? then Advance(s, k, StopLeft(s.stops[k].gap)) else s
  }

  function RunFrom(s: State, es: seq<Event>): State
    decreases |es|
  {
    if es == [] then s else RunFrom(Next(s, es[0]), es[1..])
  }

  function Run(es: seq<Event>): State { RunFrom(INITIAL, es) }

  lemma {:induction false} RunAppend(s: State, a: seq<Event>, b: seq<Event>)
    ensures RunFrom(s, a + b) == RunFrom(RunFrom(s, a), b)
    decreases |a|
  {
    if a == [] {
      assert a + b == b;
    } else {
      assert (a + b)[0] == a[0] && (a + b)[1..] == a[1..] + b;
      RunAppend(Next(s, a[0]), a[1..], b);
    }
  }

  // ---- invariant ----

  predicate InTable(pc: CallPc) { pc.AtResult? || pc.AtCancel? || pc.AtDiscard? }

  ghost predicate CallOk(s: State, c: CallId) {
    && (c in s.core.inflight <==> c in s.calls && InTable(s.calls[c]))
    && (c in s.core.futs ==> c in s.calls && (s.calls[c].AtInsert? || InTable(s.calls[c]) || s.calls[c].Left?))
    && (c in s.calls && (s.calls[c].AtInsert? || InTable(s.calls[c])) ==> c in s.core.futs)
    && (c in s.core.futs && s.core.futs[c] == Pending ==>
          s.calls[c].AtInsert? || s.calls[c].AtResult? || s.calls[c] == AtCancel(TimedOut))
  }

  ghost predicate CallsOk(s: State) { forall c :: CallOk(s, c) }

  ghost predicate StopOk(s: State, k: StopId)
    requires k in s.stops
  {
    && (s.stops[k].PastFlag() ==> s.core.stopping)
    && (s.stops[k].PastSnapshot() ==>
          && (forall c :: c in s.calls && InGap(s.calls[c]) ==> c in s.stops[k].gap)
          && (forall c :: c in s.core.futs && s.core.futs[c] == Pending ==>
                c in s.stops[k].gap || (s.stops[k].AtCancelEach? && c in s.stops[k].todo)))
  }

  ghost predicate LoopOk(s: State) {
    && (s.core.stopping ==> !s.core.loop.Absent?)
    && (s.core.stopped ==> s.core.loop.Closed?)
    && (forall k :: k in s.stops && s.stops[k].AtFlag? ==> !s.core.loop.Absent?)
    && (forall c :: c in s.calls && !s.calls[c].AtLoop? && s.calls[c] != Left(NotStarted) ==> !s.core.loop.Absent?)
    && LifeOk(s.core, s.life)
  }

  // Where the two tasks stand in each phase of the loop, and what that says about entries and exits.
  predicate LifeOk(r: Core, l: Life) {
    && (r.loop.Absent? <==> l.startup.NotBegun?)
    && (l.shutdown.NoTask? <==> r.loop.Absent? || r.loop.Starting? || r.loop.Running?)
    && (r.loop.Running? ==> l.startup.Entered?)
    && l.entries == Count(l.startup.Entered?)
    && l.entries == l.begun + Count(l.started)
    && l.exits <= l.begun
    && (l.shutdown.NoTask? || l.shutdown.Created? ==> l.begun == 0)
    && (l.shutdown.Exiting? ==> l.begun == 1 && l.exits == 0)
    && (l.shutdown.Exited? ==> l.begun == l.exits)
    && (r.loop.Closed? ==> !l.shutdown.Created?)
    && r.asked <= l.requests && (l.broken ==> l.requests >= 1)
    && (!l.shutdown.NoTask? && !l.broken ==> !l.startup.Entering? && (l.startup.Entered? ==> r.asked < l.requests))
    && (r.callback ==> r.asked < l.requests && !r.loop.Absent? && !r.loop.Starting?)
    && (r.callback && !r.loop.Running? ==> l.startup.Failed?)
    && ((r.loop.Starting? && !l.startup.Entering?) || r.loop.Running? ==> l.queued <= r.asked)
  }

  function Count(b: bool): nat { if b then 1 else 0 }

  ghost predicate Inv(s: State) {
    CallsOk(s) && LoopOk(s) && forall k :: k in s.stops ==> StopOk(s, k)
  }

  // An entered lifespan will not be exited any more.
  predicate Missed(r: Core, l: Life) {
    || (l.started && (r.loop.Draining? || r.loop.Closed?) && !l.shutdown.Created?)
    || (r.loop.Closed? && l.shutdown.Exiting?)
    || (l.shutdown.Over? && l.exits < l.begun)
  }

  lemma LifeStep(r: Core, l: Life, e: LoopEvent)
    requires LifeOk(r, l)
    ensures LifeOk(LoopCore(r, l, e), LoopLife(r, l, e))
  { }

  lemma InvLoopStep(s: State, e: LoopEvent)
    requires Inv(s)
    ensures Inv(Next(s, Loop(e)))
  {
    var t := Next(s, Loop(e));
    LifeStep(s.core, s.life, e);
    forall d ensures CallOk(t, d) { assert CallOk(s, d); }
    forall k | k in t.stops ensures StopOk(t, k) { assert StopOk(s, k); }
  }

  lemma CallStepKeepsCall(s: State, c: CallId, d: CallId)
    requires CallOk(s, d) && c in s.calls
    ensures CallOk(CallNext(s, c), d)
  { }

  lemma CallStepKeepsLoop(s: State, c: CallId)
    requires LoopOk(s) && c in s.calls
    ensures LoopOk(CallNext(s, c))
  { }

  lemma CallStepKeepsStop(s: State, c: CallId, k: StopId)
    requires Inv(s) && c in s.calls && k in s.stops
    ensures StopOk(CallNext(s, c), k)
  {
    assert StopOk(s, k);
  }

  lemma InvCallStep(s: State, c: CallId)
    requires Inv(s) && c in s.calls
    ensures Inv(CallNext(s, c))
  {
    forall d ensures CallOk(CallNext(s, c), d) { CallStepKeepsCall(s, c, d); }
    CallStepKeepsLoop(s, c);
    forall k | k in s.stops ensures StopOk(CallNext(s, c), k) { CallStepKeepsStop(s, c, k); }
  }

  lemma InvCallerEvent(s: State, e: Event)
    requires Inv(s) && (e.Call? || e.FutureDone? || e.Timeout?)
    ensures Inv(Next(s, e))
  {
    var t := Next(s, e);
    forall d ensures CallOk(t, d) { assert CallOk(s, d); }
    forall k | k in t.stops ensures StopOk(t, k) { assert k in s.stops ==> StopOk(s, k); }
  }

  lemma InvStopEvent(s: State, e: Event)
    requires Inv(s) && (e.Stop? || e.StopTimeout?)
    ensures Inv(Next(s, e))
  {
    var t := Next(s, e);
    forall d ensures CallOk(t, d) { assert CallOk(s, d); }
    forall k | k in t.stops ensures StopOk(t, k) { assert k in s.stops ==> StopOk(s, k); }
  }

  lemma InvOutsideStep(s: State, e: Event)
    requires Inv(s)
    requires e.Call? || e.FutureDone? || e.Timeout? || e.Stop? || e.StopTimeout?
    ensures Inv(Next(s, e))
  {
    if e.Stop? || e.StopTimeout? { InvStopEvent(s, e); } else { InvCallerEvent(s, e); }
  }

  lemma StopStepKeepsCalls(s: State, k: StopId)
    requires CallsOk(s) && k in s.stops
    ensures CallsOk(StopNext(s, k))
  {
    forall d ensures CallOk(StopNext(s, k), d) { assert CallOk(s, d); }
  }

  lemma LifeKept(r: Core, l: Life)
    requires LifeOk(r, l)
    ensures LifeOk(Flagged(r), l) && LifeOk(StopAsked(r), l.(requests := l.requests + 1))
  { }

  lemma StopStepKeepsLoop(s: State, k: StopId)
    requires LoopOk(s) && k in s.stops
    ensures LoopOk(StopNext(s, k))
  {
    LifeKept(s.core, s.life);
    var t := StopNext(s, k);
    assert LifeOk(t.core, t.life);
  }

  lemma StopStepKeepsStop(s: State, k: StopId, j: StopId)
    requires Inv(s) && k in s.stops && j in s.stops
    ensures StopOk(StopNext(s, k), j)
  {
    assert StopOk(s, j) && StopOk(s, k);
    forall c | c in s.core.futs ensures CallOk(s, c) { }
  }

  lemma InvStopStep(s: State, k: StopId)
    requires Inv(s) && k in s.stops
    ensures Inv(StopNext(s, k))
  {
    StopStepKeepsCalls(s, k);
    StopStepKeepsLoop(s, k);
    forall j | j in s.stops ensures StopOk(StopNext(s, k), j) { StopStepKeepsStop(s, k, j); }
  }

  lemma InvCancelStep(s: State, k: StopId, c: CallId)
    requires Inv(s)
    ensures Inv(Next(s, CancelOne(k, c)))
  {
    var t := Next(s, CancelOne(k, c));
    forall d ensures CallOk(t, d) { assert CallOk(s, d); }
    forall j | j in t.stops ensures StopOk(t, j) { assert StopOk(s, j); }
  }

  lemma InvStep(s: State, e: Event)
    requires Inv(s)
    ensures Inv(Next(s, e))
  {
    match e
    case CallStep(c) => if c in s.calls { InvCallStep(s, c); }
    case StopStep(k) => if k in s.stops { InvStopStep(s, k); }
    case CancelOne(k, c) => InvCancelStep(s, k, c);
    case Call(_) => InvOutsideStep(s, e);
    case FutureDone(_) => InvOutsideStep(s, e);
    case Timeout(_) => InvOutsideStep(s, e);
    case Stop(_) => InvOutsideStep(s, e);
    case StopTimeout(_) => InvOutsideStep(s, e);
    case Loop(le) => InvLoopStep(s, le);
  }

  lemma {:induction false} InvFrom(s: State, es: seq<Event>)
    requires Inv(s)
    ensures Inv(RunFrom(s, es))
    decreases |es|
  {
    if es != [] {
      InvStep(s, es[0]);
      InvFrom(Next(s, es[0]), es[1..]);
    }
  }

  lemma InvInitial()
    ensures Inv(INITIAL) && !Missed(INITIAL.core, INITIAL.life)
  {
    forall c ensures CallOk(INITIAL, c) { }
  }

  /** Every reachable state of every interleaving satisfies the invariant. */
  lemma InvRun(es: seq<Event>)
    ensures Inv(Run(es))
  {
    InvInitial();
    InvFrom(INITIAL, es);
  }

  // ---- what stop() guarantees ----

  /** However stops interrupt the loop, the lifespan's exit is begun at most once, only after an enter, and
      finished at most once. */
  lemma LifespanExitsOnce(es: seq<Event>)
    ensures var l := Run(es).life; l.exits <= l.begun <= l.entries <= 1
  {
    InvRun(es);
  }

  // ---- when a closed loop has left the lifespan open ----

  // The three steps that leave it open: the startup enters after the shutdown looked, a stop closes the loop inside
  // the exit, or an exception that is not an Exception escapes the exit.
  predicate LeavesOpen(r: Core, l: Life, e: LoopEvent) {
    r.loop.Draining? &&
    match e
    case Enter => l.startup.Entering? && !l.shutdown.Created?
    case CloseLoop => l.shutdown.Exiting? && r.asked >= 1
    case EscapeExit => l.shutdown.Exiting?
    case _ => false
  }

  predicate SomeLeaveOpen(s: State, es: seq<Event>)
    decreases |es|
  {
    es != [] &&
    ((es[0].Loop? && LeavesOpen(s.core, s.life, es[0].e)) || SomeLeaveOpen(Next(s, es[0]), es[1..]))
  }

  lemma MissedStep(s: State, e: Event)
    requires LifeOk(s.core, s.life)
    ensures Missed(Next(s, e).core, Next(s, e).life) <==>
      Missed(s.core, s.life) || (e.Loop? && LeavesOpen(s.core, s.life, e.e))
  { }

  lemma {:induction false} MissedFrom(s: State, es: seq<Event>)
    requires Inv(s)
    ensures var t := RunFrom(s, es); Missed(t.core, t.life) <==> Missed(s.core, s.life) || SomeLeaveOpen(s, es)
    decreases |es|
  {
    if es != [] {
      MissedStep(s, es[0]);
      InvStep(s, es[0]);
      MissedFrom(Next(s, es[0]), es[1..]);
    }
  }

  lemma OpenFrom(s: State, es: seq<Event>)
    requires Inv(s) && !Missed(s.core, s.life) && RunFrom(s, es).core.loop.Closed?
    ensures var l := RunFrom(s, es).life; l.exits < l.entries <==> SomeLeaveOpen(s, es)
  {
    InvFrom(s, es);
    MissedFrom(s, es);
  }

  /** Closing the loop does not wait for the exit: a closed loop has an entered lifespan whose exit never finished if
      and only if the startup entered after the shutdown had looked, a stop request closed the loop inside the exit,
      or a fatal exception escaped the exit. */
  lemma LeftOpenIff(es: seq<Event>)
    requires Run(es).core.loop.Closed?
    ensures Run(es).life.exits < Run(es).life.entries <==> SomeLeaveOpen(INITIAL, es)
  {
    InvInitial();
    OpenFrom(INITIAL, es);
  }

  predicate NoEscape(es: seq<Event>) { forall i :: 0 <= i < |es| ==> es[i] != Loop(EscapeExit) }

  lemma RequestsGrow(s: State, e: Event)
    ensures Next(s, e).life.requests >= s.life.requests && (s.life.broken ==> Next(s, e).life.broken)
  { }

  lemma {:induction false} OpenNeedsStops(s: State, es: seq<Event>)
    requires Inv(s) && NoEscape(es)
    ensures var l := RunFrom(s, es).life;
      && l.requests >= s.life.requests && (s.life.broken ==> l.broken)
      && (SomeLeaveOpen(s, es) ==> l.broken || l.requests >= 2)
    decreases |es|
  {
    if es != [] {
      assert es[0] != Loop(EscapeExit);
      assert forall i :: 0 <= i < |es[1..]| ==> es[1..][i] == es[i + 1];
      InvStep(s, es[0]);
      RequestsGrow(s, es[0]);
      OpenNeedsStops(Next(s, es[0]), es[1..]);
    }
  }

  lemma OneStopFrom(s: State, es: seq<Event>)
    requires Inv(s) && !Missed(s.core, s.life) && NoEscape(es)
    requires var t := RunFrom(s, es); t.core.loop.Closed? && t.life.requests <= 1 && !t.life.broken
    ensures RunFrom(s, es).life.exits == RunFrom(s, es).life.entries
  {
    InvFrom(s, es);
    OpenFrom(s, es);
    OpenNeedsStops(s, es);
  }

  /** Stopped once, after the startup came through, the runtime exits its lifespan before its loop closes, unless a
      fatal exception escapes the exit. */
  lemma OneStopExits(es: seq<Event>)
    requires Run(es).core.loop.Closed? && NoEscape(es)
    requires Run(es).life.requests <= 1 && !Run(es).life.broken
    ensures Run(es).life.exits == Run(es).life.entries
  {
    InvInitial();
    OneStopFrom(INITIAL, es);
  }

  // One stop() call up to its wait, with nobody in the table.
  function AskStop(k: StopId): seq<Event> {
    var e := StopStep(k);
    [Stop(k), e, e] + [e, e, e]
  }

  function Asked(s: State, k: StopId): State {
    State(StopAsked(Flagged(s.core)), s.life.(requests := s.life.requests + 1), s.calls, s.stops[k := AtWait(Gap(s))])
  }

  lemma Ahead(s: State, e: Event, es: seq<Event>)
    ensures RunFrom(s, [e] + es) == RunFrom(Next(s, e), es)
  {
    assert ([e] + es)[1..] == es;
  }

  lemma RunOne(s: State, e: Event)
    ensures RunFrom(s, [e]) == Next(s, e)
  {
    assert [e] == [e] + [];
    Ahead(s, e, []);
  }

  lemma RunTwo(s: State, a: Event, b: Event)
    ensures RunFrom(s, [a, b]) == Next(Next(s, a), b)
  {
    assert [a, b] == [a] + [b];
    Ahead(s, a, [b]);
    RunOne(Next(s, a), b);
  }

  lemma RunThree(s: State, a: Event, b: Event, c: Event)
    ensures RunFrom(s, [a, b, c]) == Next(Next(Next(s, a), b), c)
  {
    assert [a, b, c] == [a] + [b, c];
    Ahead(s, a, [b, c]);
    RunTwo(Next(s, a), b, c);
  }

  lemma SetStopTwice(m: map<StopId, StopPc>, k: StopId, x: StopPc, y: StopPc)
    ensures m[k := x][k := y] == m[k := y]
  { }

  // The statements of an undisturbed stop() call with nobody in the table, up to its snapshot and up to its wait.
  lemma StopReachesSnapshot(s: State, k: StopId)
    requires k !in s.stops && !s.core.loop.Absent? && !s.core.stopped
    ensures var e := StopStep(k);
      Next(Next(Next(s, Stop(k)), e), e) == Advance(s.(core := Flagged(s.core)), k, AtSnapshot)
  {
    assert Next(s, Stop(k)) == Advance(s, k, AtGuard);
    SetStopTwice(s.stops, k, AtGuard, AtFlag);
    assert StopNext(Advance(s, k, AtGuard), k) == Advance(s, k, AtFlag);
    SetStopTwice(s.stops, k, AtFlag, AtSnapshot);
  }

  // `s` once the call `k`, with the gap it found, has asked the loop to stop.
  function Requested(s: State, k: StopId, gap: set<CallId>): State {
    Advance(s.(core := StopAsked(s.core), life := s.life.(requests := s.life.requests + 1)), k, AtWait(gap))
  }

  lemma StopRequests(s: State, k: StopId)
    requires k in s.stops && s.stops[k].AtSnapshot? && s.core.inflight == {} && !s.core.loop.Closed?
    ensures var e := StopStep(k); Next(Next(Next(s, e), e), e) == Requested(s, k, Gap(s))
  {
    var gap := Gap(s);
    assert StopNext(s, k) == Advance(s, k, AtCancelEach({}, gap));
    SetStopTwice(s.stops, k, AtCancelEach({}, gap), AtCallSoon(gap));
    assert StopNext(Advance(s, k, AtCancelEach({}, gap)), k) == Advance(s, k, AtCallSoon(gap));
    SetStopTwice(s.stops, k, AtCallSoon(gap), AtWait(gap));
  }

  lemma StopAsks(s: State, k: StopId)
    requires k !in s.stops && s.core.inflight == {} && !s.core.stopped
    requires !s.core.loop.Absent? && !s.core.loop.Closed?
    ensures RunFrom(s, AskStop(k)) == Asked(s, k)
  {
    var e := StopStep(k);
    var t := Advance(s.(core := Flagged(s.core)), k, AtSnapshot);
    StopReachesSnapshot(s, k);
    RunThree(s, Stop(k), e, e);
    StopRequests(t, k);
    RunThree(t, e, e, e);
    RunAppend(s, [Stop(k), e, e], [e, e, e]);
    assert Gap(t) == Gap(s);
    SetStopTwice(s.stops, k, AtSnapshot, AtWait(Gap(s)));
  }

  function LoopRun(s: State, les: seq<LoopEvent>): State
    decreases |les|
  {
    if les == [] then s else LoopRun(Next(s, Loop(les[0])), les[1..])
  }

  function Loops(les: seq<LoopEvent>): (es: seq<Event>)
    ensures |es| == |les|
  {
    seq(|les|, i requires 0 <= i < |les| => Loop(les[i]))
  }

  lemma {:induction false} LoopsRun(s: State, les: seq<LoopEvent>)
    ensures RunFrom(s, Loops(les)) == LoopRun(s, les)
    decreases |les|
  {
    if les != [] {
      assert Loops(les) == [Loop(les[0])] + Loops(les[1..]);
      Ahead(s, Loop(les[0]), Loops(les[1..]));
      LoopsRun(Next(s, Loop(les[0])), les[1..]);
    }
  }

  // Three segments of a run: loop steps, a stop() call up to its wait, loop steps again.
  lemma AroundAStop(s: State, before: seq<LoopEvent>, k: StopId, after: seq<LoopEvent>)
    requires var t := LoopRun(s, before);
      k !in t.stops && t.core.inflight == {} && !t.core.stopped && !t.core.loop.Absent? && !t.core.loop.Closed?
    ensures RunFrom(s, Loops(before) + AskStop(k) + Loops(after)) == LoopRun(Asked(LoopRun(s, before), k), after)
  {
    LoopsRun(s, before);
    RunAppend(s, Loops(before), AskStop(k));
    StopAsks(LoopRun(s, before), k);
    RunAppend(s, Loops(before) + AskStop(k), Loops(after));
    LoopsRun(Asked(LoopRun(s, before), k), after);
  }

  lemma Turn(s: State, e: LoopEvent, les: seq<LoopEvent>)
    ensures LoopRun(s, [e] + les) == LoopRun(Next(s, Loop(e)), les)
  {
    assert ([e] + les)[1..] == les;
  }

  lemma LateEnter(s: State)
    requires s.core.loop.Starting? && s.core.asked == 1 && s.life.startup.Entering? && !s.life.started
    ensures var t := LoopRun(s, [StartupBroken(1), BeginShutdown, Enter, FinishShutdown, CloseLoop]);
      && t.core.loop.Closed? && t.life.entries == s.life.entries + 1
      && t.life.begun == s.life.begun && t.life.exits == s.life.exits
  {
    var s1 := Next(s, Loop(StartupBroken(1)));
    var s2 := Next(s1, Loop(BeginShutdown));
    var s3 := Next(s2, Loop(Enter));
    assert s2.core.loop.Draining? && s2.life.startup.Entering? && s2.life.shutdown.Exited?;
    assert [StartupBroken(1), BeginShutdown, Enter, FinishShutdown, CloseLoop]
        == [StartupBroken(1)] + ([BeginShutdown] + ([Enter] + [FinishShutdown, CloseLoop]));
    Turn(s, StartupBroken(1), [BeginShutdown] + ([Enter] + [FinishShutdown, CloseLoop]));
    Turn(s1, BeginShutdown, [Enter] + [FinishShutdown, CloseLoop]);
    Turn(s2, Enter, [FinishShutdown, CloseLoop]);
    EndOver(s3);
  }

  lemma EndOver(s: State)
    requires s.core.loop.Draining? && s.life.shutdown.Exited?
    ensures var t := LoopRun(s, [FinishShutdown, CloseLoop]);
      t.core == s.core.(loop := Closed) && t.life == s.life.(shutdown := Over) && t.stops == s.stops
  {
    assert [FinishShutdown, CloseLoop] == [FinishShutdown] + ([CloseLoop] + []);
    Turn(s, FinishShutdown, [CloseLoop] + []);
    Turn(Next(s, Loop(FinishShutdown)), CloseLoop, []);
  }

  /** A stop that arrives while the startup is suspended: the shutdown finds nothing to exit, the startup enters the
      lifespan after that, and the loop closes on it. */
  lemma StopDuringStartup()
    ensures var es := Loops([Launch]) + AskStop(0)
                    + Loops([StartupBroken(1), BeginShutdown, Enter, FinishShutdown, CloseLoop]);
      Run(es).core.loop.Closed? && Run(es).life.entries == 1 && Run(es).life.begun == 0
  {
    Turn(INITIAL, Launch, []);
    assert [Launch] + [] == [Launch];
    AroundAStop(INITIAL, [Launch], 0, [StartupBroken(1), BeginShutdown, Enter, FinishShutdown, CloseLoop]);
    LateEnter(Asked(Next(INITIAL, Loop(Launch)), 0));
  }

  lemma Started(s: State)
    requires s.core.loop.Absent? && s.life.startup.NotBegun? && s.core.asked == 0
    ensures LoopRun(s, [Launch, Enter, StartupReturns(0, false)])
      == s.(core := s.core.(loop := Running, callback := false),
            life := s.life.(startup := Entered, started := true, entries := s.life.entries + 1, queued := 0))
  {
    var s1 := Next(s, Loop(Launch));
    var s2 := Next(s1, Loop(Enter));
    assert [Launch, Enter, StartupReturns(0, false)] == [Launch] + ([Enter] + ([StartupReturns(0, false)] + []));
    Turn(s, Launch, [Enter] + ([StartupReturns(0, false)] + []));
    Turn(s1, Enter, [StartupReturns(0, false)] + []);
    Turn(s2, StartupReturns(0, false), []);
  }

  lemma ExitBegun(s: State)
    requires s.core.loop.Running? && s.core.asked == 1 && s.life.started && s.life.queued <= 1
    ensures LoopRun(s, [Halt(1), BeginShutdown])
      == s.(core := s.core.(loop := Draining, asked := 0, callback := false),
            life := s.life.(started := false, begun := s.life.begun + 1, shutdown := Exiting))
  {
    var s1 := Next(s, Loop(Halt(1)));
    assert [Halt(1), BeginShutdown] == [Halt(1)] + ([BeginShutdown] + []);
    Turn(s, Halt(1), [BeginShutdown] + []);
    Turn(s1, BeginShutdown, []);
  }

  // Up to a suspended exit: the loop is started, stopped once, and its shutdown begun.
  const ExitRun: seq<Event> :=
    Loops([Launch, Enter, StartupReturns(0, false)]) + AskStop(0) + Loops([Halt(1), BeginShutdown])

  lemma StoppedOnceBegins(a: State)
    requires a.core.loop.Running? && a.core.asked == 0 && a.life.started && a.life.queued == 0
    requires a.life.begun == 0 && a.life.exits == 0 && a.life.entries == 1
    requires a.stops == map[] && a.core.inflight == {} && !a.core.stopped
    ensures var s := LoopRun(Asked(a, 0), [Halt(1), BeginShutdown]);
      && s.core.loop.Draining? && s.life.shutdown.Exiting? && s.life.begun == 1 && s.life.exits == 0
      && s.life.entries == 1 && 1 !in s.stops && 0 in s.stops && s.stops[0].AtWait?
      && s.core.inflight == {} && !s.core.stopped
  {
    ExitBegun(Asked(a, 0));
  }

  predicate Untouched(s: State) {
    && s.core.loop.Absent? && s.core.asked == 0 && s.core.inflight == {} && !s.core.stopped && s.stops == map[]
    && s.life.startup.NotBegun? && s.life.entries == 0 && s.life.begun == 0 && s.life.exits == 0
  }

  lemma ExitReachedFrom(i: State)
    requires Untouched(i)
    ensures var s := RunFrom(i, ExitRun);
      && s.core.loop.Draining? && s.life.shutdown.Exiting? && s.life.begun == 1 && s.life.exits == 0
      && s.life.entries == 1 && 1 !in s.stops && 0 in s.stops && s.stops[0].AtWait?
      && s.core.inflight == {} && !s.core.stopped
  {
    var up := [Launch, Enter, StartupReturns(0, false)];
    Started(i);
    AroundAStop(i, up, 0, [Halt(1), BeginShutdown]);
    StoppedOnceBegins(LoopRun(i, up));
  }

  lemma ExitReached()
    ensures var s := Run(ExitRun);
      && s.core.loop.Draining? && s.life.shutdown.Exiting? && s.life.begun == 1 && s.life.exits == 0
      && s.life.entries == 1 && 1 !in s.stops && 0 in s.stops && s.stops[0].AtWait?
      && s.core.inflight == {} && !s.core.stopped
  {
    ExitReachedFrom(INITIAL);
  }

  /** A second stop that arrives while the exit is suspended: the loop closes and the exit stays unfinished. */
  lemma StopDuringExit()
    ensures var s := Run(ExitRun + AskStop(1) + [Loop(CloseLoop)]);
      s.core.loop.Closed? && s.life.begun == 1 && s.life.exits == 0
  {
    ExitReached();
    var s, e := Run(ExitRun), Loop(CloseLoop);
    StopAsks(s, 1);
    RunAppend(INITIAL, ExitRun, AskStop(1));
    RunAppend(INITIAL, ExitRun + AskStop(1), [e]);
    RunOne(Asked(s, 1), e);
  }

  // ---- lives that nothing disturbs ----

  lemma ShutDown(s: State)
    requires s.core.loop.Draining? && s.life.shutdown.Exiting?
    ensures var t := LoopRun(s, [FinishExit] + [FinishShutdown, CloseLoop]);
      && t.core == s.core.(loop := Closed) && t.stops == s.stops
      && t.life == s.life.(exits := s.life.exits + 1, shutdown := Over)
  {
    Turn(s, FinishExit, [FinishShutdown, CloseLoop]);
    EndOver(Next(s, Loop(FinishExit)));
  }

  lemma LetGo(s: State)
    requires s.core.loop.Closed? && 0 in s.stops && s.stops[0].AtWait?
    ensures var t := Next(Next(s, Loop(SetStopped)), StopStep(0));
      t.core == s.core.(stopped := true) && t.life == s.life && 0 in t.stops && t.stops[0].StopLeft?
  { }

  lemma EndsCleanly(s: State)
    requires s.core.loop.Draining? && s.life.shutdown.Exiting? && s.life.entries == 1 && s.life.exits == 0
    requires 0 in s.stops && s.stops[0].AtWait?
    ensures var t := RunFrom(s, Loops([FinishExit] + [FinishShutdown, CloseLoop]) + [Loop(SetStopped), StopStep(0)]);
      && t.core.loop.Closed? && t.core.stopped && t.life.entries == 1 && t.life.exits == 1
      && 0 in t.stops && t.stops[0].StopLeft?
  {
    var last := [FinishExit] + [FinishShutdown, CloseLoop];
    ShutDown(s);
    LoopsRun(s, last);
    RunAppend(s, Loops(last), [Loop(SetStopped), StopStep(0)]);
    RunTwo(LoopRun(s, last), Loop(SetStopped), StopStep(0));
    LetGo(LoopRun(s, last));
  }

  /** A runtime that is started and stopped once, without interference: the lifespan is entered and exited, the loop
      closes, and the waiting stop() call returns. */
  lemma StopsCleanly()
    ensures
      var s := Run(ExitRun
                   + (Loops([FinishExit] + [FinishShutdown, CloseLoop]) + [Loop(SetStopped), StopStep(0)]));
      && s.core.loop.Closed? && s.core.stopped && s.life.entries == 1 && s.life.exits == 1
      && 0 in s.stops && s.stops[0].StopLeft?
  {
    ExitReached();
    EndsCleanly(Run(ExitRun));
    RunAppend(INITIAL, ExitRun,
              Loops([FinishExit] + [FinishShutdown, CloseLoop]) + [Loop(SetStopped), StopStep(0)]);
  }

  /** A startup that fails still closes the loop, with nothing entered and nothing to exit. */
  lemma FailedStartupCloses(s: State)
    requires s == INITIAL
    ensures var t := LoopRun(s, [Launch, FailStartup, StartupRaises(0, false), BeginShutdown]
                                + [FinishShutdown, CloseLoop]);
      t.core.loop.Closed? && t.life.entries == 0 && t.life.begun == 0 && t.life.exits == 0
  {
    var s1 := Next(s, Loop(Launch));
    var s2 := Next(s1, Loop(FailStartup));
    var s3 := Next(s2, Loop(StartupRaises(0, false)));
    var end := [FinishShutdown, CloseLoop];
    assert [Launch, FailStartup, StartupRaises(0, false), BeginShutdown] + end
        == [Launch] + ([FailStartup] + ([StartupRaises(0, false)] + ([BeginShutdown] + end)));
    Turn(s, Launch, [FailStartup] + ([StartupRaises(0, false)] + ([BeginShutdown] + end)));
    Turn(s1, FailStartup, [StartupRaises(0, false)] + ([BeginShutdown] + end));
    Turn(s2, StartupRaises(0, false), [BeginShutdown] + end);
    Turn(s3, BeginShutdown, end);
    EndOver(Next(s3, Loop(BeginShutdown)));
  }

  /** A startup that a stop broke off goes on in the session of the shutdown: it can still enter the lifespan, or
      fail. */
  lemma BrokenStartupGoesOn(s: State)
    requires s.core.loop.Draining? && s.life.startup.Entering?
    ensures var l := Next(s, Loop(Enter)).life; l.startup.Entered? && l.started && l.entries == s.life.entries + 1
    ensures var l := Next(s, Loop(FailStartup)).life;
      l.startup.Failed? && l.started == s.life.started && l.entries == s.life.entries
  { }

  // ---- which stops bring the loop down ----

  lemma {:induction false} RequestsGrowFrom(s: State, es: seq<Event>)
    ensures RunFrom(s, es).life.requests >= s.life.requests
    decreases |es|
  {
    if es != [] {
      RequestsGrow(s, es[0]);
      RequestsGrowFrom(Next(s, es[0]), es[1..]);
    }
  }

  lemma StillRunning(s: State, e: Event)
    requires s.core.loop.Running? && s.core.asked == 0 && !s.core.callback
    requires Next(s, e).life.requests == s.life.requests
    ensures Next(s, e).core.loop.Running? && Next(s, e).core.asked == 0 && !Next(s, e).core.callback
  { }

  lemma {:induction false} RunsOn(s: State, es: seq<Event>)
    requires s.core.loop.Running? && s.core.asked == 0 && !s.core.callback
    requires RunFrom(s, es).life.requests == s.life.requests
    ensures RunFrom(s, es).core.loop.Running?
    decreases |es|
  {
    if es != [] {
      RequestsGrow(s, es[0]);
      RequestsGrowFrom(Next(s, es[0]), es[1..]);
      StillRunning(s, es[0]);
      RunsOn(Next(s, es[0]), es[1..]);
    }
  }

  // The loop can leave run_forever without any further stop request.
  ghost predicate ComesDown(s: State) {
    exists more :: RunFrom(s, more).life.requests == s.life.requests && !RunFrom(s, more).core.loop.Running?
  }

  /** A running loop can come down without a further stop request if and only if a stop is still queued or the
      done-callback of the startup's wait was left over. */
  lemma ComesDownIff(es: seq<Event>)
    requires Run(es).core.loop.Running?
    ensures ComesDown(Run(es)) <==> Run(es).core.asked >= 1 || Run(es).core.callback
  {
    InvRun(es);
    var s := Run(es);
    if s.core.asked >= 1 || s.core.callback {
      var e := Loop(Halt(s.core.asked));
      RunOne(s, e);
    } else if ComesDown(s) {
      var more :| RunFrom(s, more).life.requests == s.life.requests && !RunFrom(s, more).core.loop.Running?;
      RunsOn(s, more);
    }
  }

  /** The stops queued when the startup's session ends are lost, the loop running on until somebody asks again, if and
      only if all of them ran in the turn of the done-callback, rather than one in the turn before or one later. */
  lemma SwallowedIff(es: seq<Event>, taken: nat, early: bool)
    requires var s := Run(es);
      s.core.loop.Starting? && s.life.startup.Entered? && LastTurn(s.core, s.life, taken, early)
    ensures !ComesDown(Run(es + [Loop(StartupReturns(taken, early))])) <==> !early && taken == Run(es).core.asked
  {
    var e := Loop(StartupReturns(taken, early));
    RunAppend(INITIAL, es, [e]);
    RunOne(Run(es), e);
    ComesDownIff(es + [e]);
  }

  // One stop() call up to its wait while the startup is suspended, then the startup's last step.
  lemma AskedWhileStarting(after: seq<LoopEvent>)
    ensures var b := Asked(Next(INITIAL, Loop(Launch)), 0);
      && Run(Loops([Launch]) + AskStop(0) + Loops([Enter] + after)) == LoopRun(Next(b, Loop(Enter)), after)
      && b.core.loop.Starting? && b.core.asked == 1 && b.core.stopping && b.life.startup.Entering?
      && b.stops[0].AtWait?
  {
    Turn(INITIAL, Launch, []);
    assert [Launch] + [] == [Launch];
    AroundAStop(INITIAL, [Launch], 0, [Enter] + after);
    Turn(Asked(Next(INITIAL, Loop(Launch)), 0), Enter, after);
  }

  /** A stop that runs in the turn of the done-callback is swallowed: the loop runs on, its stop() call waits, every
      caller is refused, and only a further stop() call can end it. */
  lemma StopSwallowed()
    ensures var s := Run(Loops([Launch]) + AskStop(0) + Loops([Enter] + [StartupReturns(1, false)]));
      s.core.loop.Running? && s.core.stopping && 0 in s.stops && s.stops[0].AtWait? && !ComesDown(s)
  {
    var after := [StartupReturns(1, false)];
    AskedWhileStarting(after);
    var b := Next(Asked(Next(INITIAL, Loop(Launch)), 0), Loop(Enter));
    assert after == [StartupReturns(1, false)] + [];
    Turn(b, StartupReturns(1, false), []);
    ComesDownIff(Loops([Launch]) + AskStop(0) + Loops([Enter] + after));
  }

  /** The same stop one turn earlier is not lost: it leaves the done-callback behind, which ends the next session. */
  lemma StopCarriedOver()
    ensures var s := Run(Loops([Launch]) + AskStop(0) + Loops([Enter] + [StartupReturns(1, true), Halt(0)]));
      s.core.loop.Draining? && s.core.asked == 0 && s.life.requests == 1 && s.life.shutdown.Created?
  {
    var after := [StartupReturns(1, true), Halt(0)];
    AskedWhileStarting(after);
    var b := Next(Asked(Next(INITIAL, Loop(Launch)), 0), Loop(Enter));
    assert after == [StartupReturns(1, true)] + ([Halt(0)] + []);
    Turn(b, StartupReturns(1, true), [Halt(0)] + []);
    Turn(Next(b, Loop(StartupReturns(1, true))), Halt(0), []);
  }

  /** Once every caller has returned or raised, nothing is left in the table. */
  lemma InflightEmptyWhenAllLeft(es: seq<Event>)
    requires forall c :: c in Run(es).calls ==> Run(es).calls[c].Left?
    ensures Run(es).core.inflight == {}
  {
    InvRun(es);
    var s := Run(es);
    forall c ensures c !in s.core.inflight { assert CallOk(s, c); }
  }

  /** When a stop() call has finished its cancel loop, whoever still waits on an unfinished future was
      between its `_stopping` check and its insert when that call copied the table. */
  lemma OnlyTheGapIsMissed(es: seq<Event>, k: StopId, c: CallId)
    requires k in Run(es).stops && Run(es).stops[k].CancelsDone()
    requires c in Run(es).core.futs && Run(es).core.futs[c] == Pending
    ensures c in Run(es).stops[k].gap
  {
    InvRun(es);
    assert StopOk(Run(es), k);
  }

  lemma GapStep(s: State, e: Event, k: StopId)
    requires k in s.stops && s.stops[k].PastSnapshot()
    ensures var t := Next(s, e); k in t.stops && t.stops[k].PastSnapshot() && t.stops[k].gap == s.stops[k].gap
  { }

  lemma {:induction false} GapStable(s: State, es: seq<Event>, k: StopId)
    requires k in s.stops && s.stops[k].PastSnapshot()
    ensures k in RunFrom(s, es).stops && RunFrom(s, es).stops[k].PastSnapshot()
    ensures RunFrom(s, es).stops[k].gap == s.stops[k].gap
    decreases |es|
  {
    if es != [] {
      GapStep(s, es[0], k);
      GapStable(Next(s, es[0]), es[1..], k);
    }
  }

  /** Every future in the table at the snapshot is no longer pending once the cancel loop is over, whatever
      every other thread does meanwhile. */
  lemma SnapshotReleased(es: seq<Event>, more: seq<Event>, k: StopId, c: CallId)
    requires k in Run(es).stops && Run(es).stops[k].AtSnapshot? && c in Run(es).core.inflight
    requires var u := Run(es + [StopStep(k)] + more); k in u.stops && u.stops[k].CancelsDone()
    ensures var u := Run(es + [StopStep(k)] + more); c in u.core.futs ==> u.core.futs[c] != Pending
  {
    var s := Run(es);
    var t := Next(s, StopStep(k));
    InvRun(es);
    assert CallOk(s, c);
    RunAppend(INITIAL, es, [StopStep(k)]);
    RunAppend(INITIAL, es + [StopStep(k)], more);
    assert RunFrom(s, [StopStep(k)]) == t;
    GapStable(t, more, k);
    var u := Run(es + [StopStep(k)] + more);
    if c in u.core.futs && u.core.futs[c] == Pending {
      OnlyTheGapIsMissed(es + [StopStep(k)] + more, k, c);
    }
  }

  // ---- how a caller is answered ----

  // The answer that a call has settled on.
  function Answer(pc: CallPc): Option<Outcome> {
    match pc
    case AtCancel(o) => Some(o)
    case AtDiscard(o) => Some(o)
    case Left(o) => Some(o)
    case _ => None
  }

  // What an answer says about the caller's future.
  predicate AnswerOk(s: State, c: CallId) {
    c in s.calls ==>
    match Answer(s.calls[c])
    case None => true
    case Some(Completed) => c in s.core.futs && s.core.futs[c] == Done
    case Some(WasCancelled) => c in s.core.futs && s.core.futs[c] == Cancelled
    case Some(TimedOut) => c in s.core.futs && (s.core.futs[c] == Pending ==> s.calls[c].AtCancel?)
    case Some(Refused) => s.calls[c].Left? && c !in s.core.futs && (s.core.stopping || s.core.loop.Closed?)
    case Some(LoopClosed) => s.calls[c].Left? && c !in s.core.futs && s.core.loop.Closed?
    case Some(NotStarted) => s.calls[c].Left? && c !in s.core.futs
  }

  lemma AnswerCallStep(s: State, d: CallId, c: CallId)
    requires CallOk(s, c) && AnswerOk(s, c) && d in s.calls && (s.core.stopped ==> s.core.loop.Closed?)
    ensures AnswerOk(CallNext(s, d), c)
  { }

  lemma AnswerStopStep(s: State, e: Event, c: CallId)
    requires CallOk(s, c) && AnswerOk(s, c) && (e.StopStep? || e.CancelOne?)
    ensures AnswerOk(Next(s, e), c)
  { }

  lemma AnswerStep(s: State, e: Event, c: CallId)
    requires CallOk(s, c) && LoopOk(s) && AnswerOk(s, c)
    ensures AnswerOk(Next(s, e), c)
  {
    if e.CallStep? {
      if e.c in s.calls { AnswerCallStep(s, e.c, c); }
    } else if e.StopStep? || e.CancelOne? {
      AnswerStopStep(s, e, c);
    }
  }

  lemma {:induction false} AnswerFrom(s: State, es: seq<Event>, c: CallId)
    requires Inv(s) && AnswerOk(s, c)
    ensures AnswerOk(RunFrom(s, es), c)
    decreases |es|
  {
    if es != [] {
      assert CallOk(s, c);
      AnswerStep(s, es[0], c);
      InvStep(s, es[0]);
      AnswerFrom(Next(s, es[0]), es[1..], c);
    }
  }

  /** In every run a call that answers with a result has a finished future, one that raises the cancellation a
      cancelled one, one that timed out leaves no unfinished future behind, and one that was turned away has no future
      at all, with the runtime stopping or its loop closed. */
  lemma AnswersAreTrue(es: seq<Event>, c: CallId)
    ensures AnswerOk(Run(es), c)
  {
    InvInitial();
    AnswerFrom(INITIAL, es, c);
  }

  // Still waiting on a cancelled future, or on its way out with the cancellation.
  predicate OnItsWayOut(s: State, c: CallId) {
    && c in s.core.futs && s.core.futs[c] == Cancelled
    && c in s.calls && (s.calls[c].AtResult? || Answer(s.calls[c]) == Some(WasCancelled))
  }

  lemma ReleasedCallStep(s: State, d: CallId, c: CallId)
    requires CallOk(s, d) && OnItsWayOut(s, c) && d in s.calls
    ensures OnItsWayOut(CallNext(s, d), c)
  { }

  lemma ReleasedStopStep(s: State, e: Event, c: CallId)
    requires OnItsWayOut(s, c) && (e.StopStep? || e.CancelOne?)
    ensures OnItsWayOut(Next(s, e), c)
  { }

  lemma ReleasedStep(s: State, e: Event, c: CallId)
    requires Inv(s) && OnItsWayOut(s, c)
    ensures OnItsWayOut(Next(s, e), c)
  {
    if e.CallStep? {
      if e.c in s.calls {
        assert CallOk(s, e.c);
        ReleasedCallStep(s, e.c, c);
      }
    } else if e.StopStep? || e.CancelOne? {
      ReleasedStopStep(s, e, c);
    }
  }

  lemma {:induction false} ReleasedFrom(s: State, es: seq<Event>, c: CallId)
    requires Inv(s) && OnItsWayOut(s, c)
    ensures OnItsWayOut(RunFrom(s, es), c)
    decreases |es|
  {
    if es != [] {
      ReleasedStep(s, es[0], c);
      InvStep(s, es[0]);
      ReleasedFrom(Next(s, es[0]), es[1..], c);
    }
  }

  /** A caller whose future a stop() call cancels while it waits can only leave with that cancellation: not with a
      result and not by its timeout. */
  lemma ReleasedRaises(es: seq<Event>, k: StopId, c: CallId, more: seq<Event>)
    requires var s := Run(es);
      && k in s.stops && s.stops[k].AtCancelEach? && c in s.stops[k].todo
      && c in s.calls && s.calls[c].AtResult? && c in s.core.futs && s.core.futs[c] == Pending
    ensures var t := Run(es + ([CancelOne(k, c)] + more));
      c in t.calls && (t.calls[c].Left? ==> t.calls[c] == Left(WasCancelled))
  {
    var s, e := Run(es), CancelOne(k, c);
    InvRun(es);
    InvStep(s, e);
    RunAppend(INITIAL, es, [e] + more);
    Ahead(s, e, more);
    ReleasedFrom(Next(s, e), more, c);
  }

  predicate NotYetPastFlag(s: State, c: CallId) {
    c !in s.calls || s.calls[c].AtLoop? || s.calls[c].AtStopping? || s.calls[c] == Left(Refused)
  }

  lemma RefusedCall(s: State, d: CallId, c: CallId)
    requires s.core.stopping && !s.core.loop.Absent? && NotYetPastFlag(s, c) && d in s.calls
    ensures CallNext(s, d).core.stopping && !CallNext(s, d).core.loop.Absent?
    ensures NotYetPastFlag(CallNext(s, d), c)
  { }

  lemma RefusedStop(s: State, e: Event, c: CallId)
    requires s.core.stopping && !s.core.loop.Absent? && NotYetPastFlag(s, c)
    requires e.StopStep? || e.CancelOne? || e.StopTimeout?
    ensures Next(s, e).core.stopping && !Next(s, e).core.loop.Absent?
    ensures NotYetPastFlag(Next(s, e), c)
  { }

  lemma RefusedStep(s: State, e: Event, c: CallId)
    requires s.core.stopping && !s.core.loop.Absent? && NotYetPastFlag(s, c)
    ensures Next(s, e).core.stopping && !Next(s, e).core.loop.Absent?
    ensures NotYetPastFlag(Next(s, e), c)
  {
    if e.CallStep? {
      if e.c in s.calls { RefusedCall(s, e.c, c); }
    } else if e.StopStep? || e.CancelOne? || e.StopTimeout? {
      RefusedStop(s, e, c);
    }
  }

  lemma {:induction false} RefusedFrom(s: State, es: seq<Event>, c: CallId)
    requires s.core.stopping && !s.core.loop.Absent? && NotYetPastFlag(s, c)
    ensures NotYetPastFlag(RunFrom(s, es), c)
    decreases |es|
  {
    if es != [] {
      RefusedStep(s, es[0], c);
      RefusedFrom(Next(s, es[0]), es[1..], c);
    }
  }

  /** A caller whose first check follows the stopping flag can only be answered with RuntimeStopped. */
  lemma LateCallersRefused(es: seq<Event>, more: seq<Event>, c: CallId)
    requires Run(es).core.stopping && NotYetPastFlag(Run(es), c)
    ensures c in Run(es + more).calls && Run(es + more).calls[c].Left? ==> Run(es + more).calls[c] == Left(Refused)
  {
    InvRun(es);
    RunAppend(INITIAL, es, more);
    RefusedFrom(Run(es), more, c);
  }

  // ---- who can be stranded, exactly ----

  // stop() has cancelled all it saw and the loop is gone, yet `c` still waits for a result.
  predicate Stranded(s: State, k: StopId, c: CallId) {
    && k in s.stops && s.stops[k].CancelsDone() && s.core.loop.Closed?
    && c in s.calls && s.calls[c] == AtResult && c in s.core.futs && s.core.futs[c] == Pending
  }

  // Between the check and the insert, with a future that can still end up unfinished.
  predicate CanSlip(s: State, c: CallId) {
    && c in s.calls && InGap(s.calls[c])
    && (if s.calls[c].AtInsert? then c in s.core.futs && s.core.futs[c] == Pending else !s.core.loop.Closed?)
  }

  lemma StrandedStep(s: State, k: StopId, c: CallId, e: Event)
    requires Inv(s) && Stranded(s, k, c)
    requires e != Timeout(c) && !(e.CancelOne? && e.c == c)
    ensures Stranded(Next(s, e), k, c)
  {
    assert CallOk(s, c);
  }

  // Neither the caller's own timeout nor a further stop() call's cancel of its future.
  predicate LeftAlone(es: seq<Event>, c: CallId) {
    forall i :: 0 <= i < |es| ==> es[i] != Timeout(c) && !(es[i].CancelOne? && es[i].c == c)
  }

  lemma {:induction false} StrandedFrom(s: State, es: seq<Event>, k: StopId, c: CallId)
    requires Inv(s) && Stranded(s, k, c) && LeftAlone(es, c)
    ensures Stranded(RunFrom(s, es), k, c)
    decreases |es|
  {
    if es != [] {
      assert es[0] != Timeout(c) && !(es[0].CancelOne? && es[0].c == c);
      StrandedStep(s, k, c, es[0]);
      InvStep(s, es[0]);
      assert forall i :: 0 <= i < |es[1..]| ==> es[1..][i] == es[i + 1];
      StrandedFrom(Next(s, es[0]), es[1..], k, c);
    }
  }

  /** A stranded caller is released by nothing but its own timeout or a cancel of a further stop() call: without
      these it waits on, however long the run and whatever else happens. */
  lemma StrandedUntilTimeout(es: seq<Event>, more: seq<Event>, k: StopId, c: CallId)
    requires Stranded(Run(es), k, c) && LeftAlone(more, c)
    ensures Stranded(Run(es + more), k, c)
  {
    InvRun(es);
    RunAppend(INITIAL, es, more);
    StrandedFrom(Run(es), more, k, c);
  }

  predicate CannotSlip(s: State, c: CallId) {
    && c in s.calls
    && (|| (c in s.core.futs && s.core.futs[c] != Pending)
        || (s.core.loop.Closed? && c !in s.core.futs && !s.calls[c].AtInsert? && !InTable(s.calls[c])))
  }

  lemma CannotSlipCall(s: State, d: CallId, c: CallId)
    requires CallOk(s, c) && CannotSlip(s, c) && d in s.calls
    ensures CannotSlip(CallNext(s, d), c)
  { }

  lemma CannotSlipStop(s: State, e: Event, c: CallId)
    requires CallOk(s, c) && CannotSlip(s, c) && (e.StopStep? || e.CancelOne?)
    ensures CannotSlip(Next(s, e), c)
  { }

  lemma CannotSlipStep(s: State, e: Event, c: CallId)
    requires CallOk(s, c) && CannotSlip(s, c)
    ensures CannotSlip(Next(s, e), c)
  {
    if e.CallStep? {
      if e.c in s.calls { CannotSlipCall(s, e.c, c); }
    } else if e.StopStep? || e.CancelOne? {
      CannotSlipStop(s, e, c);
    }
  }

  lemma {:induction false} CannotSlipFrom(s: State, es: seq<Event>, c: CallId)
    requires Inv(s) && CannotSlip(s, c)
    ensures CannotSlip(RunFrom(s, es), c)
    decreases |es|
  {
    if es != [] {
      CannotSlipStep(s, es[0], c);
      InvStep(s, es[0]);
      CannotSlipFrom(Next(s, es[0]), es[1..], c);
    }
  }

  // Equal as far as caller `c` can be affected.
  predicate SameFor(s: State, t: State, c: CallId) {
    && c in s.calls && c in t.calls && s.calls[c] == t.calls[c]
    && c in s.core.futs && c in t.core.futs && s.core.futs[c] == t.core.futs[c]
  }

  lemma {:induction false} ParkCaller(s: State, c: CallId) returns (es: seq<Event>)
    requires Inv(s) && CanSlip(s, c)
    ensures var t := RunFrom(s, es);
      && c in t.calls && t.calls[c] == AtResult && c in t.core.futs && t.core.futs[c] == Pending
      && t.stops == s.stops && t.core.loop == s.core.loop
    decreases if s.calls[c].AtStopped? then 3 else if s.calls[c].AtClosed? then 2
              else if s.calls[c].AtSubmit? then 1 else 0
  {
    var t := Next(s, CallStep(c));
    if s.calls[c].AtInsert? {
      es := [CallStep(c)];
      assert RunFrom(s, es) == RunFrom(t, []);
    } else {
      InvStep(s, CallStep(c));
      var rest := ParkCaller(t, c);
      es := [CallStep(c)] + rest;
      assert es[1..] == rest;
    }
  }

  lemma {:induction false} CancelAll(s: State, k: StopId, c: CallId) returns (es: seq<Event>)
    requires k in s.stops && s.stops[k].AtCancelEach? && c !in s.stops[k].todo
    requires c in s.calls && c in s.core.futs
    ensures var t := RunFrom(s, es);
      k in t.stops && t.stops[k].AtCallSoon? && t.core.loop == s.core.loop && SameFor(s, t, c)
    decreases |s.stops[k].todo|
  {
    var todo := s.stops[k].todo;
    if todo == {} {
      es := [StopStep(k)];
      assert RunFrom(s, es) == RunFrom(Next(s, StopStep(k)), []);
    } else {
      var d :| d in todo;
      var t := Next(s, CancelOne(k, d));
      var rest := CancelAll(t, k, c);
      es := [CancelOne(k, d)] + rest;
      assert es[1..] == rest;
    }
  }

  // How many steps the loop is from closed.
  function ToClosed(r: Core, l: Life): nat {
    match r.loop
    case Absent => 9
    case Starting => if l.startup.Entering? then 9 else 8
    case Running => 5 + Count(r.asked == 0 && !r.callback)
    case Draining => (match l.shutdown case Created => 4 case Exiting => 3 case Exited => 2 case _ => 1)
    case Closed => 0
  }

  // A step that takes the loop closer to closed, asking it to stop where it must be asked.
  function Closer(s: State, k: StopId): Event {
    match s.core.loop
    case Starting =>
      var early, n := s.life.queued >= 1, Count(s.life.queued >= 1);
      Loop(match s.life.startup
           case Entering => FailStartup case Entered => StartupReturns(n, early) case _ => StartupRaises(n, early))
    case Running =>
      if s.core.asked == 0 && !s.core.callback then StopStep(k) else Loop(Halt(s.core.asked))
    case _ =>
      Loop(match s.life.shutdown
           case Created => BeginShutdown case Exiting => FinishExit case Exited => FinishShutdown case _ => CloseLoop)
  }

  // The stop() call `k` has cancelled what it saw, and if the loop still has to be stopped its request counts.
  predicate CanClose(s: State, k: StopId) {
    && k in s.stops && s.stops[k].CancelsDone() && !s.core.loop.Absent? && LifeOk(s.core, s.life)
    && (s.core.loop.Starting? || s.core.loop.Running? ==>
          s.stops[k].AtCallSoon? || s.core.asked >= 1 || s.core.callback)
  }

  // What a step towards closed does to the loop, phase by phase.
  lemma CloserStarting(r: Core, l: Life, e: LoopEvent)
    requires LifeOk(r, l) && r.loop.Starting?
    requires var early, n := l.queued >= 1, Count(l.queued >= 1);
      e == (match l.startup
            case Entering => FailStartup case Entered => StartupReturns(n, early) case _ => StartupRaises(n, early))
    ensures var r', l' := LoopCore(r, l, e), LoopLife(r, l, e);
      && ToClosed(r', l') < ToClosed(r, l) && !r'.loop.Absent?
      && (r'.loop.Starting? ==> r'.asked == r.asked)
      && (r'.loop.Running? && r.asked >= 1 ==> r'.callback || r'.asked >= 1)
  { }

  lemma CloserEnding(r: Core, l: Life, e: LoopEvent)
    requires LifeOk(r, l) && r.loop.Draining?
    requires e == (match l.shutdown
                   case Created => BeginShutdown case Exiting => FinishExit
                   case Exited => FinishShutdown case _ => CloseLoop)
    ensures var r', l' := LoopCore(r, l, e), LoopLife(r, l, e);
      ToClosed(r', l') < ToClosed(r, l) && (r'.loop.Draining? || r'.loop.Closed?)
  { }

  // A loop step leaves the calls, the stops and the futures alone.
  lemma LoopStepSame(s: State, e: LoopEvent, c: CallId)
    requires c in s.calls && c in s.core.futs
    ensures var t := Next(s, Loop(e));
      SameFor(s, t, c) && t.stops == s.stops && t.core == LoopCore(s.core, s.life, e)
  { }

  lemma CloserStep(s: State, k: StopId, c: CallId)
    requires CanClose(s, k) && !s.core.loop.Closed? && c in s.calls && c in s.core.futs
    ensures var t := Next(s, Closer(s, k));
      CanClose(t, k) && SameFor(s, t, c) && ToClosed(t.core, t.life) < ToClosed(s.core, s.life)
  {
    var e := Closer(s, k);
    if e.Loop? {
      LifeStep(s.core, s.life, e.e);
      LoopStepSame(s, e.e, c);
      if s.core.loop.Starting? { CloserStarting(s.core, s.life, e.e); }
      if s.core.loop.Draining? { CloserEnding(s.core, s.life, e.e); }
    }
  }

  // The steps that take the loop from any phase to closed.
  lemma {:induction false} ShutLoop(s: State, k: StopId, c: CallId) returns (es: seq<Event>)
    requires CanClose(s, k) && c in s.calls && c in s.core.futs
    ensures var t := RunFrom(s, es);
      k in t.stops && t.stops[k].CancelsDone() && t.core.loop.Closed? && SameFor(s, t, c)
    decreases ToClosed(s.core, s.life)
  {
    if s.core.loop.Closed? {
      es := [];
    } else {
      var e := Closer(s, k);
      CloserStep(s, k, c);
      var rest := ShutLoop(Next(s, e), k, c);
      es := [e] + rest;
      assert es[1..] == rest;
    }
  }

  lemma SlipWitness(s: State, k: StopId, c: CallId) returns (es: seq<Event>)
    requires Inv(s) && k in s.stops && s.stops[k].AtSnapshot? && CanSlip(s, c)
    ensures Stranded(RunFrom(Next(s, StopStep(k)), es), k, c)
  {
    assert StopOk(s, k) && CallOk(s, c);
    InvStep(s, StopStep(k));
    var t := Next(s, StopStep(k));
    var park := ParkCaller(t, c);
    var t1 := RunFrom(t, park);
    var cancel := CancelAll(t1, k, c);
    var t2 := RunFrom(t1, cancel);
    InvFrom(t, park);
    InvFrom(t1, cancel);
    var shut := ShutLoop(t2, k, c);
    RunAppend(t, park, cancel);
    RunAppend(t, park + cancel, shut);
    es := park + cancel + shut;
  }

  /** The exact reach of stop(): at the instant it copies the table, a caller can still end up waiting on
      the dead loop if and only if it is between its check and its insert with an unfinished future. */
  lemma StrandedIffInTheGap(es: seq<Event>, k: StopId, c: CallId)
    requires k in Run(es).stops && Run(es).stops[k].AtSnapshot?
    ensures (exists more :: Stranded(RunFrom(Next(Run(es), StopStep(k)), more), k, c)) <==> CanSlip(Run(es), c)
  {
    var s := Run(es);
    var t := Next(s, StopStep(k));
    InvRun(es);
    InvStep(s, StopStep(k));
    if CanSlip(s, c) {
      var more := SlipWitness(s, k, c);
    }
    if more :| Stranded(RunFrom(t, more), k, c) {
      InvFrom(t, more);
      GapStable(t, more, k);
      assert StopOk(RunFrom(t, more), k);
      assert c in Gap(s);
      if !CanSlip(s, c) {
        assert CallOk(s, c);
        CannotSlipFrom(t, more, c);
        assert false;
      }
    }
  }

  // Up to the snapshot of a stop() call, with one caller past its check.
  const GapRun: seq<Event> := [Loop(Launch), Call(0), CallStep(0), CallStep(0)] + [Stop(0), StopStep(0), StopStep(0)]

  lemma CallerAdmitted()
    ensures var s := Run([Loop(Launch), Call(0), CallStep(0), CallStep(0)]);
      && s.calls == map[0 := AtStopped] && s.stops == map[] && s.core.loop.Starting? && !s.core.stopped
  {
    var s1 := Next(INITIAL, Loop(Launch));
    var s2 := Next(s1, Call(0));
    var s3 := Next(s2, CallStep(0));
    assert [Loop(Launch), Call(0), CallStep(0), CallStep(0)]
        == [Loop(Launch)] + ([Call(0)] + ([CallStep(0)] + ([CallStep(0)] + [])));
    Ahead(INITIAL, Loop(Launch), [Call(0)] + ([CallStep(0)] + ([CallStep(0)] + [])));
    Ahead(s1, Call(0), [CallStep(0)] + ([CallStep(0)] + []));
    Ahead(s2, CallStep(0), [CallStep(0)] + []);
    Ahead(s3, CallStep(0), []);
  }

  lemma GapReached()
    ensures 0 in Run(GapRun).stops && Run(GapRun).stops[0].AtSnapshot? && CanSlip(Run(GapRun), 0)
  {
    CallerAdmitted();
    RunAppend(INITIAL, [Loop(Launch), Call(0), CallStep(0), CallStep(0)], [Stop(0), StopStep(0), StopStep(0)]);
    var s := Run([Loop(Launch), Call(0), CallStep(0), CallStep(0)]);
    RunThree(s, Stop(0), StopStep(0), StopStep(0));
    StopReachesSnapshot(s, 0);
  }

  /** A caller that had passed its check when stop() copied the table can be left waiting on the dead loop. */
  lemma CallerCanBeStranded()
    ensures exists more :: Stranded(Run(GapRun + more), 0, 0)
  {
    GapReached();
    StrandedIffInTheGap(GapRun, 0, 0);
    var more :| Stranded(RunFrom(Next(Run(GapRun), StopStep(0)), more), 0, 0);
    RunAppend(INITIAL, GapRun, [StopStep(0)] + more);
    Ahead(Run(GapRun), StopStep(0), more);
    assert Stranded(Run(GapRun + ([StopStep(0)] + more)), 0, 0);
  }

  // ---- the object itself ----

  // `r` once every future of `todo` has been cancelled.
  function Released(r: Core, todo: set<CallId>): Core {
    r.(futs := map c | c in r.futs :: if c in todo && r.futs[c] == Pending then Cancelled else r.futs[c])
  }

  class RuntimeObject {
    var loop: LoopPhase
    var stopping: bool
    var stopped: bool
    var asked: nat
    var callback: bool
    var futs: map<CallId, Fut>
    var inflight: set<CallId>

    ghost function View(): Core
      reads this
    {
      Core(loop, stopping, stopped, asked, callback, futs, inflight)
    }

    constructor ()
      ensures View() == INITIAL.core
    {
      loop, stopping, stopped, asked := Absent, false, false, 0;
      callback := false;
      futs, inflight := map[], {};
    }

    /** The refusal test of run(), read in one go when nothing interferes. */
    method Admits() returns (ok: bool)
      ensures ok <==> !stopping && !stopped && !loop.Closed?
    {
      ok := !(stopping || stopped || loop.Closed?);
    }

    /** Hands the coroutine to the loop; a closed loop raises instead and leaves no future behind. */
    method Submit(c: CallId) returns (ok: bool)
      modifies this
      ensures ok <==> !old(loop).Closed?
      ensures View() == CoreAfter(old(View()), c, AtSubmit)
    {
      ok := !loop.Closed?;
      if ok { futs := futs[c := Pending]; }
    }

    method Insert(c: CallId)
      modifies this
      ensures View() == CoreAfter(old(View()), c, AtInsert)
    {
      inflight := inflight + {c};
    }

    method Cancel(c: CallId)
      modifies this`futs
      ensures View() == CancelFuture(old(View()), c)
    {
      if c in futs && futs[c] == Pending { futs := futs[c := Cancelled]; }
    }

    method Discard(c: CallId)
      modifies this`inflight
      ensures View() == Unlinked(old(View()), c)
    {
      inflight := inflight - {c};
    }

    /** run() with only the loop thread interfering, which finishes the future in time or does not: turned away without
        a trace, or, however the wait ends, with its future finished, nothing left in the table and every other future
        untouched. */
    method RunCoroutine(c: CallId, finishes: bool) returns (o: Outcome)
      requires c !in futs && c !in inflight
      modifies this
      ensures o in {NotStarted, Refused, Completed, TimedOut}
      ensures o.NotStarted? <==> old(loop).Absent?
      ensures o.Refused? <==> !old(loop).Absent? && (old(stopping) || old(stopped) || old(loop).Closed?)
      ensures o.NotStarted? || o.Refused? ==> View() == old(View())
      ensures o.Completed? ==> finishes
      ensures o.TimedOut? ==> !finishes
      ensures o.Completed? ==> View() == old(View()).(futs := old(futs)[c := Done])
      ensures o.TimedOut? ==> View() == old(View()).(futs := old(futs)[c := Cancelled])
    {
      if loop.Absent? { return NotStarted; }
      var admitted := Admits();
      if !admitted { return Refused; }
      var _ := Submit(c);
      Insert(c);
      if finishes { futs := futs[c := Done]; }
      o := if finishes then Completed else TimedOut;
      Cancel(c);
      Discard(c);
    }

    /** stop() run without interference: work is refused, everyone in the table is released, the loop is
        asked to stop, and a loop that is already closed makes the request raise. */
    method Stop() returns (raised: bool)
      modifies this
      ensures old(loop).Absent? || old(stopped) ==> View() == old(View()) && !raised
      ensures !old(loop).Absent? && !old(stopped) ==>
        && raised == old(loop).Closed?
        && View() == (var r := Released(Flagged(old(View())), old(inflight)); if raised then r else StopAsked(r))
    {
      raised := false;
      if loop.Absent? || stopped { return; }
      stopping := true;
      var pending := inflight;
      ghost var start := View();
      while pending != {}
        invariant pending <= inflight == start.inflight
        invariant View() == Released(start, inflight - pending)
        decreases |pending|
      {
        var c :| c in pending;
        ReleaseOneMore(start, inflight - pending, c);
        assert inflight - pending + {c} == inflight - (pending - {c});
        Cancel(c);
        pending := pending - {c};
      }
      assert inflight - pending == inflight;
      if loop.Closed? { raised := true; } else { asked := asked + 1; }
    }
  }

  // One call from its entry to its return, its wait ended by the loop thread or by the timeout.
  function WholeCall(c: CallId, done: bool): seq<Event> {
    var e := CallStep(c);
    [Call(c), e, e] + [e, e, e] + [e] + if done then [FutureDone(c), e, e, e] else [Timeout(c), e, e]
  }

  lemma SetTwice(m: map<CallId, CallPc>, c: CallId, x: CallPc, y: CallPc)
    ensures m[c := x][c := y] == m[c := y]
  { }

  lemma CallChecks(s: State, c: CallId)
    requires c !in s.calls && !s.core.loop.Absent? && !s.core.stopping && !s.core.stopped
    ensures var e := CallStep(c); Next(Next(Next(s, Call(c)), e), e) == s.(calls := s.calls[c := AtStopped])
  {
    assert Next(s, Call(c)) == s.(calls := s.calls[c := AtLoop]);
    SetTwice(s.calls, c, AtLoop, AtStopping);
    assert CallNext(s.(calls := s.calls[c := AtLoop]), c) == s.(calls := s.calls[c := AtStopping]);
    SetTwice(s.calls, c, AtStopping, AtStopped);
  }

  lemma CallSubmits(s: State, c: CallId)
    requires c in s.calls && s.calls[c] == AtStopped && !s.core.loop.Closed? && !s.core.stopped
    ensures var e := CallStep(c);
      Next(Next(Next(s, e), e), e) == s.(core := Submitted(s.core, c), calls := s.calls[c := AtInsert])
  {
    assert CallNext(s, c) == s.(calls := s.calls[c := AtClosed]);
    SetTwice(s.calls, c, AtClosed, AtSubmit);
    assert CallNext(s.(calls := s.calls[c := AtClosed]), c) == s.(calls := s.calls[c := AtSubmit]);
    SetTwice(s.calls, c, AtSubmit, AtInsert);
  }

  lemma CallEnters(s: State, c: CallId)
    requires c !in s.calls && !s.core.loop.Absent? && !s.core.loop.Closed? && !s.core.stopping && !s.core.stopped
    ensures var e := CallStep(c);
      RunFrom(s, [Call(c), e, e] + [e, e, e] + [e])
      == s.(core := Linked(Submitted(s.core, c), c), calls := s.calls[c := AtResult])
  {
    var e := CallStep(c);
    var t := s.(calls := s.calls[c := AtStopped]);
    var u := s.(core := Submitted(s.core, c), calls := s.calls[c := AtInsert]);
    CallChecks(s, c);
    CallSubmits(t, c);
    SetTwice(s.calls, c, AtStopped, AtInsert);
    SetTwice(s.calls, c, AtInsert, AtResult);
    assert CallNext(u, c) == s.(core := Linked(Submitted(s.core, c), c), calls := s.calls[c := AtResult]);
    RunThree(s, Call(c), e, e);
    RunThree(t, e, e, e);
    RunOne(u, e);
    RunAppend(s, [Call(c), e, e], [e, e, e]);
    RunAppend(s, [Call(c), e, e] + [e, e, e], [e]);
  }

  lemma CallLeaves(s: State, c: CallId, done: bool)
    requires c in s.calls && s.calls[c] == AtResult && c in s.core.futs && s.core.futs[c] == Pending
    requires !s.core.loop.Closed?
    ensures var e := CallStep(c);
      var t := RunFrom(s, if done then [FutureDone(c), e, e, e] else [Timeout(c), e, e]);
      && t.core == s.core.(futs := s.core.futs[c := if done then Done else Cancelled],
                           inflight := s.core.inflight - {c})
      && c in t.calls && t.calls[c] == Left(if done then Completed else TimedOut)
  {
    var e := CallStep(c);
    var s1 := Next(s, if done then FutureDone(c) else Timeout(c));
    if done {
      var s2 := Next(s1, e);
      assert [FutureDone(c), e, e, e] == [FutureDone(c)] + ([e] + ([e] + ([e] + [])));
      Ahead(s, FutureDone(c), [e] + ([e] + ([e] + [])));
      Ahead(s1, e, [e] + ([e] + []));
      Ahead(s2, e, [e] + []);
      Ahead(Next(s2, e), e, []);
    } else {
      assert [Timeout(c), e, e] == [Timeout(c)] + ([e] + ([e] + []));
      Ahead(s, Timeout(c), [e] + ([e] + []));
      Ahead(s1, e, [e] + []);
      Ahead(Next(s1, e), e, []);
    }
  }

  /** The object's run() and the machine agree: a whole call with no other thread in between leaves the shared fields
      as `RuntimeObject.RunCoroutine` does. */
  lemma CallIsStepwise(s: State, c: CallId, done: bool)
    requires Inv(s) && c !in s.calls
    requires !s.core.loop.Absent? && !s.core.loop.Closed? && !s.core.stopping && !s.core.stopped
    ensures var t := RunFrom(s, WholeCall(c, done));
      && t.core == s.core.(futs := s.core.futs[c := if done then Done else Cancelled])
      && c in t.calls && t.calls[c] == Left(if done then Completed else TimedOut)
  {
    var e := CallStep(c);
    var enter := [Call(c), e, e] + [e, e, e] + [e];
    assert CallOk(s, c);
    CallEnters(s, c);
    var t := s.(core := Linked(Submitted(s.core, c), c), calls := s.calls[c := AtResult]);
    RunAppend(s, enter, if done then [FutureDone(c), e, e, e] else [Timeout(c), e, e]);
    CallLeaves(t, c, done);
  }

  /** A loop that closes between a caller's last check and its hand-over makes the hand-over raise, and leaves no
      future. */
  lemma HandOver(s: State, c: CallId)
    requires c in s.calls && s.calls[c] == AtSubmit
    ensures Next(s, CallStep(c)) ==
      if s.core.loop.Closed? then s.(calls := s.calls[c := Left(LoopClosed)])
      else s.(core := s.core.(futs := s.core.futs[c := Pending]), calls := s.calls[c := AtInsert])
  { }

  lemma CallChecksFail(s: State, c: CallId)
    requires c in s.calls && s.calls[c] == AtStopping
    requires s.core.stopping || s.core.stopped || s.core.loop.Closed?
    ensures var e := CallStep(c); Next(Next(Next(s, e), e), e) == s.(calls := s.calls[c := Left(Refused)])
  {
    if !s.core.stopping {
      assert CallNext(s, c) == s.(calls := s.calls[c := AtStopped]);
      SetTwice(s.calls, c, AtStopped, Left(Refused));
      if !s.core.stopped {
        assert CallNext(CallNext(s, c), c) == s.(calls := s.calls[c := AtStopped][c := AtClosed]);
        SetTwice(s.calls, c, AtStopped, AtClosed);
        SetTwice(s.calls, c, AtClosed, Left(Refused));
      }
    }
    SetTwice(s.calls, c, Left(Refused), Left(Refused));
  }

  /** And a call that is turned away: before the start with its own error, and once the runtime is stopping, stopped or
      its loop closed, with RuntimeStopped; the shared fields stay as they are. */
  lemma CallTurnedAway(s: State, c: CallId)
    requires c !in s.calls
    requires s.core.loop.Absent? || s.core.stopping || s.core.stopped || s.core.loop.Closed?
    ensures var e := CallStep(c);
      RunFrom(s, [Call(c), e] + [e, e, e])
      == s.(calls := s.calls[c := Left(if s.core.loop.Absent? then NotStarted else Refused)])
  {
    var e := CallStep(c);
    var t := s.(calls := s.calls[c := if s.core.loop.Absent? then Left(NotStarted) else AtStopping]);
    SetTwice(s.calls, c, AtLoop, t.calls[c]);
    assert Next(Next(s, Call(c)), e) == t;
    RunTwo(s, Call(c), e);
    RunThree(t, e, e, e);
    RunAppend(s, [Call(c), e], [e, e, e]);
    if s.core.loop.Absent? {
      SetTwice(s.calls, c, Left(NotStarted), Left(NotStarted));
      assert Next(t, e) == t;
    } else {
      CallChecksFail(t, c);
      SetTwice(s.calls, c, AtStopping, Left(Refused));
    }
  }

  lemma {:induction false} ReleaseOneMore(r: Core, todo: set<CallId>, c: CallId)
    ensures CancelFuture(Released(r, todo), c) == Released(r, todo + {c})
  {
    var a := CancelFuture(Released(r, todo), c);
    assert a.futs == Released(r, todo + {c}).futs;
  }

  // Cancelling futures one at a time, in the order listed.
  function CancelEach(r: Core, cs: seq<CallId>): Core
    decreases |cs|
  {
    if cs == [] then r else CancelFuture(CancelEach(r, cs[..|cs| - 1]), cs[|cs| - 1])
  }

  function Members(cs: seq<CallId>): set<CallId> { set c | c in cs }

  lemma MembersAppend(cs: seq<CallId>)
    requires cs != []
    ensures Members(cs) == Members(cs[..|cs| - 1]) + {cs[|cs| - 1]}
  {
    assert cs == cs[..|cs| - 1] + [cs[|cs| - 1]];
  }

  lemma ReleaseNone(r: Core)
    ensures Released(r, {}) == r
  {
    assert Released(r, {}).futs == r.futs;
  }

  /** The uninterrupted object and the interleaved machine agree: cancelling a set one future at a time, in any
      order and with any repeats, is one release of that set. */
  lemma {:induction false} ReleaseIsStepwise(r: Core, cs: seq<CallId>)
    ensures CancelEach(r, cs) == Released(r, Members(cs))
    decreases |cs|
  {
    if cs == [] {
      ReleaseNone(r);
      assert Members(cs) == {};
    } else {
      ReleaseIsStepwise(r, cs[..|cs| - 1]);
      ReleaseOneMore(r, Members(cs[..|cs| - 1]), cs[|cs| - 1]);
      MembersAppend(cs);
    }
  }

  lemma ReleasedTwice(r: Core, a: set<CallId>, b: set<CallId>)
    ensures Released(Released(r, a), b) == Released(r, a + b)
  {
    assert Released(Released(r, a), b).futs == Released(r, a + b).futs;
  }

  lemma CancelIsRelease(r: Core, c: CallId)
    ensures CancelFuture(r, c) == Released(r, {c})
  {
    assert CancelFuture(r, c).futs == Released(r, {c}).futs;
  }

  // The cancel loop of one stop() call, over the copied futures in some order.
  function Cancels(k: StopId, cs: seq<CallId>): (es: seq<Event>)
    ensures |es| == |cs|
  {
    seq(|cs|, i requires 0 <= i < |cs| => CancelOne(k, cs[i]))
  }

  predicate NoRepeats(cs: seq<CallId>) { forall i, j :: 0 <= i < j < |cs| ==> cs[i] != cs[j] }

  lemma MembersRest(cs: seq<CallId>)
    requires cs != [] && NoRepeats(cs)
    ensures NoRepeats(cs[1..]) && Members(cs[1..]) == Members(cs) - {cs[0]} && cs[0] in Members(cs)
  {
    forall c | c in cs && c != cs[0] ensures c in cs[1..] {
      var i :| 0 <= i < |cs| && cs[i] == c;
      assert cs[1..][i - 1] == c;
    }
  }

  lemma CancelTurn(s: State, k: StopId, todo: set<CallId>, c: CallId, gap: set<CallId>)
    requires k in s.stops && s.stops[k] == AtCancelEach(todo, gap) && c in todo
    ensures Next(s, CancelOne(k, c)) == Advance(s.(core := Released(s.core, {c})), k, AtCancelEach(todo - {c}, gap))
  {
    CancelIsRelease(s.core, c);
  }

  lemma {:induction false} CancelsRun(s: State, k: StopId, cs: seq<CallId>, gap: set<CallId>)
    requires k in s.stops && NoRepeats(cs) && s.stops[k] == AtCancelEach(Members(cs), gap)
    ensures RunFrom(s, Cancels(k, cs)) == Advance(s.(core := Released(s.core, Members(cs))), k, AtCancelEach({}, gap))
    decreases |cs|
  {
    if cs == [] {
      ReleaseNone(s.core);
      assert Members(cs) == {};
      assert s.stops[k := AtCancelEach({}, gap)] == s.stops;
    } else {
      var c, rest := cs[0], cs[1..];
      MembersRest(cs);
      assert Cancels(k, cs) == [CancelOne(k, c)] + Cancels(k, rest);
      Ahead(s, CancelOne(k, c), Cancels(k, rest));
      CancelTurn(s, k, Members(cs), c, gap);
      CancelsRun(Next(s, CancelOne(k, c)), k, rest, gap);
      ReleasedTwice(s.core, {c}, Members(rest));
      assert {c} + Members(rest) == Members(cs);
      SetStopTwice(s.stops, k, AtCancelEach(Members(rest), gap), AtCancelEach({}, gap));
    }
  }

  // One stop() call from its entry to its wait, or to its raise on a closed loop.
  function WholeStop(k: StopId, cs: seq<CallId>): seq<Event> {
    var e := StopStep(k);
    [Stop(k), e, e] + [e] + Cancels(k, cs) + [e, e]
  }

  lemma StopCopies(s: State, k: StopId, cs: seq<CallId>)
    requires k !in s.stops && !s.core.loop.Absent? && !s.core.stopped && Members(cs) == s.core.inflight
    ensures var e := StopStep(k);
      RunFrom(s, [Stop(k), e, e] + [e]) == Advance(s.(core := Flagged(s.core)), k, AtCancelEach(Members(cs), Gap(s)))
  {
    var e := StopStep(k);
    var t := Advance(s.(core := Flagged(s.core)), k, AtSnapshot);
    StopReachesSnapshot(s, k);
    RunThree(s, Stop(k), e, e);
    RunAppend(s, [Stop(k), e, e], [e]);
    RunOne(t, e);
    assert Gap(t) == Gap(s);
    SetStopTwice(s.stops, k, AtSnapshot, AtCancelEach(Members(cs), Gap(s)));
  }

  lemma StopEnds(s: State, k: StopId, gap: set<CallId>)
    requires k in s.stops && s.stops[k] == AtCancelEach({}, gap)
    ensures var t := Next(Next(s, StopStep(k)), StopStep(k));
      && k in t.stops
      && if s.core.loop.Closed? then t.core == s.core && t.stops[k] == StopRaised(gap)
         else t.core == StopAsked(s.core) && t.stops[k] == AtWait(gap)
  {
    assert StopNext(s, k) == Advance(s, k, AtCallSoon(gap));
  }

  /** The object's stop() and the machine agree: a whole call with no other thread in between refuses work, releases
      everyone in the table and asks the loop to stop, or raises on a closed one, as `RuntimeObject.Stop` does. */
  lemma StopIsStepwise(s: State, k: StopId, cs: seq<CallId>)
    requires k !in s.stops && !s.core.loop.Absent? && !s.core.stopped
    requires NoRepeats(cs) && Members(cs) == s.core.inflight
    ensures var t := RunFrom(s, WholeStop(k, cs));
      var released := Released(Flagged(s.core), s.core.inflight);
      && k in t.stops
      && if s.core.loop.Closed? then t.core == released && t.stops[k].StopRaised?
         else t.core == StopAsked(released) && t.stops[k].AtWait?
  {
    var e, gap := StopStep(k), Gap(s);
    var t := Advance(s.(core := Flagged(s.core)), k, AtCancelEach(Members(cs), gap));
    var u := Advance(t.(core := Released(t.core, Members(cs))), k, AtCancelEach({}, gap));
    StopCopies(s, k, cs);
    CancelsRun(t, k, cs, gap);
    StopEnds(u, k, gap);
    RunTwo(u, e, e);
    RunAppend(s, [Stop(k), e, e] + [e], Cancels(k, cs));
    RunAppend(s, [Stop(k), e, e] + [e] + Cancels(k, cs), [e, e]);
  }

  /** A stop() call that has asked waits until the loop thread is done, or its time runs out; neither changes anything
      else. */
  lemma StopWaits(s: State, k: StopId, gap: set<CallId>)
    requires k in s.stops && s.stops[k] == AtWait(gap)
    ensures Next(s, StopStep(k)) == if s.core.stopped then Advance(s, k, StopLeft(gap)) else s
    ensures Next(s, StopTimeout(k)) == Advance(s, k, StopLeft(gap))
  { }

  /** A stop() call on a runtime that was never started, or is stopped already, leaves at once and changes nothing. */
  lemma StopSkips(s: State, k: StopId)
    requires k !in s.stops && (s.core.loop.Absent? || s.core.stopped)
    ensures Next(Next(s, Stop(k)), StopStep(k)) == Advance(s, k, StopSkipped)
  {
    SetStopTwice(s.stops, k, AtGuard, StopSkipped);
  }
}
