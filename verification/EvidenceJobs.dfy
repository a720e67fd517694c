/** The bounded table of evidence jobs behind the desktop bridge: starts, polls, worker completions, clock
    reads and the close of the bridge interleave at the granularity of the lock's critical sections. */
module EvidenceJobs {

  type JobId = nat
  type ThreadId = nat

  const MAX_JOBS := 4
  const TTL := 300.0

  datatype Fut = Unfinished | Finished | Dropped
  {
    predicate IsDone() { !Unfinished? }
  }

  // What the world answers inside the start section: is the read adapter configured, and what do the pool
  // creation (only attempted when there is no pool) and the submit do.
  datatype Pool = Accepts | Broken | CannotCreate(runtimeError: bool)
  datatype World = World(configured: bool, pool: Pool)

  datatype StartAnswer = Queued(id: JobId) | QueueFull | Unavailable | Raised
  datatype StartPc = HasNow(now: real) | Answered(a: StartAnswer)

  // A finished job delivers its result, one that the close has cancelled a failure.
  datatype PollAnswer = NotFound | StillPending | Delivered(cancelled: bool)
  datatype PollPc = AtLookup | AtDone | AtPop | Replied(r: PollAnswer)
  datatype Poll = Poll(id: JobId, pc: PollPc)

  // The fields of the bridge guarded by the lock, and the futures they refer to.
  datatype Core = Core(jobs: map<JobId, real>, closed: bool, pool: bool, futures: map<JobId, Fut>)

  datatype State = State(core: Core, clock: real, starts: map<ThreadId, StartPc>, polls: map<ThreadId, Poll>,
                         closers: map<ThreadId, set<JobId>>)

  datatype Event =
    | Tick(d: real) | ReadClock(t: ThreadId) | StartSection(t: ThreadId, id: JobId, w: World)
    | WorkerDone(id: JobId)
    | NewPoll(t: ThreadId, id: JobId) | PollStep(t: ThreadId)
    | CloseSection(t: ThreadId) | CloseCancel(t: ThreadId, id: JobId, took: bool)

  const INITIAL := State(Core(map[], false, false, map[]), 0.0, map[], map[], map[])

  // ---- critical sections ----

  predicate Expired(c: Core, id: JobId, now: real)
    requires id in c.jobs
  {
    id in c.futures && c.futures[id].IsDone() && now - c.jobs[id] > TTL
  }

  function Swept(c: Core, now: real): Core {
    c.(jobs := map id | id in c.jobs && !Expired(c, id, now) :: c.jobs[id])
  }

  function StartAnswerOf(c: Core, now: real, id: JobId, w: World): StartAnswer {
    if c.closed then Unavailable
    else if |Swept(c, now).jobs| >= MAX_JOBS then QueueFull
    else if !w.configured then Unavailable
    else if !c.pool && w.pool.CannotCreate? then (if w.pool.runtimeError then Unavailable else Raised)
    else if w.pool.Broken? then Unavailable
    else Queued(id)
  }

  function StartCore(c: Core, now: real, id: JobId, w: World): Core {
    if c.closed then c else
    var s := Swept(c, now);
    var created := |s.jobs| < MAX_JOBS && w.configured && (c.pool || !w.pool.CannotCreate?);
    match StartAnswerOf(c, now, id, w)
    case Queued(_) => s.(pool := true, jobs := s.jobs[id := now], futures := s.futures[id := Unfinished])
    case _ => s.(pool := c.pool || created)
  }

  function PollPcAfter(c: Core, id: JobId, pc: PollPc): PollPc {
    match pc
    case AtLookup => if id in c.jobs then AtDone else Replied(NotFound)
    case AtDone => if id in c.futures && c.futures[id].IsDone() then AtPop else Replied(StillPending)
    case AtPop => Replied(Delivered(id in c.futures && c.futures[id].Dropped?))
    case Replied(r) => Replied(r)
  }

  function PollCore(c: Core, id: JobId, pc: PollPc): Core {
    if pc.AtPop? then c.(jobs := c.jobs - {id}) else c
  }

  function CloseCore(c: Core): Core {
    if c.closed then c else c.(closed := true, pool := false, jobs := map[])
  }

  // ---- interleaving ----

  function Next(s: State, e: Event): State {
    var c := s.core;
    match e
    case Tick(d) => if d >= 0.0 then s.(clock := s.clock + d) else s
    case ReadClock(t) => if t in s.starts then s else s.(starts := s.starts[t := HasNow(s.clock)])
    case StartSection(t, id, w) =>
      // uuid4 never repeats: an id that was ever used is not offered again
      if t in s.starts && s.starts[t].HasNow? && id !in c.futures
      then s.(core := StartCore(c, s.starts[t].now, id, w),
              starts := s.starts[t := Answered(StartAnswerOf(c, s.starts[t].now, id, w))])
      else s
    case WorkerDone(id) =>
      if id in c.futures && c.futures[id].Unfinished? then s.(core := c.(futures := c.futures[id := Finished])) else s
    case NewPoll(t, id) => if t in s.polls then s else s.(polls := s.polls[t := Poll(id, AtLookup)])
    case PollStep(t) =>
      if t !in s.polls then s
      else s.(core := PollCore(c, s.polls[t].id, s.polls[t].pc),
              polls := s.polls[t := Poll(s.polls[t].id, PollPcAfter(c, s.polls[t].id, s.polls[t].pc))])
    case CloseSection(t) =>
      if t in s.closers then s
      else s.(core := CloseCore(c), closers := s.closers[t := if c.closed then {} else c.jobs.Keys])
    case CloseCancel(t, id, took) =>
      if t in s.closers && id in s.closers[t] && took && id in c.futures && c.futures[id].Unfinished?
      then s.(core := c.(futures := c.futures[id := Dropped])) else s
  }

  function RunFrom(s: State, es: seq<Event>): State
    decreases |es|
  {
    if es == [] then s else RunFrom(Next(s, es[0]), es[1..])
  }

  function Run(es: seq<Event>): State { RunFrom(INITIAL, es) }

  lemma {:induction false} RunAppend(s: State, a: seq<Event>, b: seq<Event>)
    ensures RunFrom(s, a + b) == RunFrom(RunFrom(s, a), b)
    decreases |a|
  {
    if a == [] {
      assert a + b == b;
    } else {
      assert (a + b)[0] == a[0] && (a + b)[1..] == a[1..] + b;
      RunAppend(Next(s, a[0]), a[1..], b);
    }
  }

  // ---- invariant ----

  ghost predicate Inv(s: State) {
    && |s.core.jobs| <= MAX_JOBS
    && s.core.jobs.Keys <= s.core.futures.Keys
    && (s.core.closed ==> s.core.jobs == map[] && !s.core.pool)
    && (forall id :: id in s.core.jobs ==> s.core.jobs[id] <= s.clock)
    && (forall t :: t in s.starts && s.starts[t].HasNow? ==> s.starts[t].now <= s.clock)
    && (forall t :: t in s.polls && (s.polls[t].pc.AtDone? || s.polls[t].pc.AtPop?) ==> s.polls[t].id in s.core.futures)
    && (forall t :: t in s.polls && s.polls[t].pc.AtPop? ==> s.core.futures[s.polls[t].id].IsDone())
  }

  lemma SubsetSize<T>(a: set<T>, b: set<T>)
    requires a <= b
    ensures |a| <= |b|
  {
    if a != {} {
      var x :| x in a;
      SubsetSize(a - {x}, b - {x});
    }
  }

  lemma SweptShrinks(c: Core, now: real)
    ensures Swept(c, now).jobs.Keys <= c.jobs.Keys && |Swept(c, now).jobs| <= |c.jobs|
  {
    SubsetSize(Swept(c, now).jobs.Keys, c.jobs.Keys);
  }

  lemma StartStep(s: State, e: Event)
    requires Inv(s) && e.StartSection?
    ensures Inv(Next(s, e))
  {
    if e.t in s.starts && s.starts[e.t].HasNow? { SweptShrinks(s.core, s.starts[e.t].now); }
  }

  lemma WithoutShrinks<K, V>(m: map<K, V>, k: K)
    ensures (m - {k}).Keys <= m.Keys && |m - {k}| <= |m|
  {
    SubsetSize((m - {k}).Keys, m.Keys);
  }

  lemma PollKeepsInv(s: State, e: Event)
    requires Inv(s) && e.PollStep?
    ensures Inv(Next(s, e))
  {
    if e.t in s.polls && s.polls[e.t].pc.AtPop? {
      PopKeepsInv(s, e.t);
    }
  }

  lemma PopKeepsInv(s: State, t: ThreadId)
    requires Inv(s) && t in s.polls && s.polls[t].pc.AtPop?
    ensures Inv(Next(s, PollStep(t)))
  {
    WithoutShrinks(s.core.jobs, s.polls[t].id);
    assert Next(s, PollStep(t)).core == s.core.(jobs := s.core.jobs - {s.polls[t].id});
  }

  lemma FutureStep(s: State, e: Event)
    requires Inv(s) && (e.WorkerDone? || e.CloseCancel?)
    ensures Inv(Next(s, e))
  { }

  lemma OtherStep(s: State, e: Event)
    requires Inv(s) && (e.Tick? || e.ReadClock? || e.NewPoll? || e.CloseSection?)
    ensures Inv(Next(s, e))
  { }

  lemma InvStep(s: State, e: Event)
    requires Inv(s)
    ensures Inv(Next(s, e))
  {
    if e.StartSection? { StartStep(s, e); }
    else if e.PollStep? { PollKeepsInv(s, e); }
    else if e.WorkerDone? || e.CloseCancel? { FutureStep(s, e); }
    else { OtherStep(s, e); }
  }

  lemma {:induction false} InvFrom(s: State, es: seq<Event>)
    requires Inv(s)
    ensures Inv(RunFrom(s, es))
    decreases |es|
  {
    if es != [] {
      InvStep(s, es[0]);
      InvFrom(Next(s, es[0]), es[1..]);
    }
  }

  /** In every reachable state the table holds at most four jobs, and none once the bridge is closed. */
  lemma TableBounded(es: seq<Event>)
    ensures Inv(Run(es))
    ensures |Run(es).core.jobs| <= MAX_JOBS
    ensures Run(es).core.closed ==> Run(es).core.jobs == map[] && !Run(es).core.pool
  {
    InvFrom(INITIAL, es);
  }

  // ---- theorems ----

  lemma ClosedStep(s: State, e: Event)
    requires Inv(s) && s.core.closed
    ensures Next(s, e).core.closed && Next(s, e).core.futures.Keys == s.core.futures.Keys
  { }

  lemma {:induction false} ClosedFrom(s: State, es: seq<Event>)
    requires Inv(s) && s.core.closed
    ensures RunFrom(s, es).core.closed && RunFrom(s, es).core.futures.Keys == s.core.futures.Keys
    decreases |es|
  {
    if es != [] {
      InvStep(s, es[0]);
      ClosedStep(s, es[0]);
      ClosedFrom(Next(s, es[0]), es[1..]);
    }
  }

  /** Closed is absorbing: no later event reopens the bridge, fills the table or submits another job. */
  lemma ClosedAbsorbs(es: seq<Event>, more: seq<Event>)
    requires Run(es).core.closed
    ensures var u := Run(es + more);
      && u.core.closed && u.core.jobs == map[] && !u.core.pool
      && u.core.futures.Keys == Run(es).core.futures.Keys
  {
    TableBounded(es);
    RunAppend(INITIAL, es, more);
    ClosedFrom(Run(es), more);
    TableBounded(es + more);
  }

  /** The only ways out of the table: the close, a poll that saw the job finished, or a start that found it
      finished and more than the time-to-live old.  An unfinished job leaves only through the close. */
  lemma LeavesOnly(es: seq<Event>, e: Event, id: JobId)
    requires id in Run(es).core.jobs && id !in Next(Run(es), e).core.jobs
    ensures var s := Run(es);
      || e.CloseSection?
      || (&& id in s.core.futures && s.core.futures[id].IsDone()
          && (|| (e.PollStep? && e.t in s.polls && s.polls[e.t] == Poll(id, AtPop))
              || (e.StartSection? && e.t in s.starts && s.starts[e.t].HasNow?
                  && s.starts[e.t].now - s.core.jobs[id] > TTL && s.clock - s.core.jobs[id] > TTL)))
  {
    TableBounded(es);
  }

  lemma SameSizeSubset<T>(a: set<T>, b: set<T>)
    requires a <= b && |a| >= |b|
    ensures a == b
  {
    if a != b {
      var x :| x in b && x !in a;
      SubsetSize(a, b - {x});
    }
  }

  /** In any reachable state a start is refused for a full queue exactly when the bridge is open and holds four
      jobs, each of them unfinished or within its time to live by this caller's clock reading. */
  lemma FullIffFourKept(es: seq<Event>, t: ThreadId, id: JobId, w: World)
    requires var s := Run(es); t in s.starts && s.starts[t].HasNow? && id !in s.core.futures
    ensures var s := Run(es);
      Next(s, StartSection(t, id, w)).starts[t] == Answered(QueueFull) <==>
        && !s.core.closed && |s.core.jobs| == MAX_JOBS
        && forall j :: j in s.core.jobs ==> !Expired(s.core, j, s.starts[t].now)
  {
    var c, now := Run(es).core, Run(es).starts[t].now;
    TableBounded(es);
    SweptShrinks(c, now);
    if |Swept(c, now).jobs| >= MAX_JOBS {
      SameSizeSubset(Swept(c, now).jobs.Keys, c.jobs.Keys);
      assert forall j :: j in c.jobs ==> j in Swept(c, now).jobs.Keys;
    } else if forall j :: j in c.jobs ==> !Expired(c, j, now) {
      assert Swept(c, now).jobs == c.jobs;
    }
  }

  // The jobs a start section keeps: unfinished, or at most 300 seconds old.
  function Kept(c: Core, now: real): set<JobId> {
    set j | j in c.jobs && !(j in c.futures && !c.futures[j].Unfinished? && now - c.jobs[j] > 300.0)
  }

  lemma SweptKeeps(c: Core, now: real)
    ensures Swept(c, now).jobs.Keys == Kept(c, now) && |Swept(c, now).jobs| == |Kept(c, now)|
    ensures forall j :: j in Kept(c, now) ==> Swept(c, now).jobs[j] == c.jobs[j]
  {
    assert |Swept(c, now).jobs| == |Swept(c, now).jobs.Keys|;
  }

  lemma AnswerIs(c: Core, now: real, id: JobId, w: World)
    ensures var a, room := StartAnswerOf(c, now, id, w), !c.closed && |Kept(c, now)| < 4;
      var creates := c.pool || !w.pool.CannotCreate?;
      && (a == QueueFull <==> !c.closed && !room)
      && (a == Queued(id) <==> room && w.configured && creates && !w.pool.Broken?)
      && (a == Raised <==> room && w.configured && !creates && !w.pool.runtimeError)
      && (a == Unavailable <==>
            c.closed || (room && (!w.configured || w.pool.Broken? || (!creates && w.pool.runtimeError))))
  {
    SweptKeeps(c, now);
  }

  lemma CoreIs(c: Core, now: real, id: JobId, w: World)
    requires !c.closed
    ensures var s, queued := StartCore(c, now, id, w), StartAnswerOf(c, now, id, w).Queued?;
      && s.jobs.Keys == Kept(c, now) + (if queued then {id} else {})
      && (forall j :: j in Kept(c, now) && j != id ==> s.jobs[j] == c.jobs[j])
      && s.futures == (if queued then c.futures[id := Unfinished] else c.futures)
      && (queued ==> s.jobs[id] == now)
      && (s.pool <==> c.pool || (|Kept(c, now)| < 4 && w.configured && !w.pool.CannotCreate?))
  {
    SweptKeeps(c, now);
  }

  /** Every answer of a start, with its reason, in the order in which the reasons are looked at: a closed bridge, a full
      table, an adapter that is not configured, a pool that cannot be created or is broken.  A job enters the table,
      under the time its caller read, exactly when it is answered as queued; what had expired leaves it. */
  lemma StartAnswers(es: seq<Event>, t: ThreadId, id: JobId, w: World)
    requires var s := Run(es); t in s.starts && s.starts[t].HasNow? && id !in s.core.futures
    ensures var s, u := Run(es), Next(Run(es), StartSection(t, id, w));
      var now := s.starts[t].now;
      var room := !s.core.closed && |Kept(s.core, now)| < 4;
      var creates := s.core.pool || !w.pool.CannotCreate?;
      && (u.starts[t] == Answered(QueueFull) <==> !s.core.closed && !room)
      && (u.starts[t] == Answered(Queued(id)) <==> room && w.configured && creates && !w.pool.Broken?)
      && (u.starts[t] == Answered(Raised) <==> room && w.configured && !creates && !w.pool.runtimeError)
      && (u.starts[t] == Answered(Unavailable) <==>
            s.core.closed || (room && (!w.configured || w.pool.Broken? || (!creates && w.pool.runtimeError))))
  {
    AnswerIs(Run(es).core, Run(es).starts[t].now, id, w);
  }

  /** What a start leaves behind: a pool that was there or has just been created stays. */
  lemma StartStores(es: seq<Event>, t: ThreadId, id: JobId, w: World)
    requires var s := Run(es); t in s.starts && s.starts[t].HasNow? && id !in s.core.futures
    ensures var s, u := Run(es), Next(Run(es), StartSection(t, id, w));
      var now, queued := s.starts[t].now, u.starts[t] == Answered(Queued(id));
      && (s.core.closed ==> u.core == s.core)
      && (!s.core.closed ==>
            && u.core.jobs.Keys == Kept(s.core, now) + (if queued then {id} else {})
            && (forall j :: j in Kept(s.core, now) ==> u.core.jobs[j] == s.core.jobs[j])
            && u.core.futures == (if queued then s.core.futures[id := Unfinished] else s.core.futures)
            && (queued ==> u.core.jobs[id] == now)
            && (u.core.pool <==>
                  s.core.pool || (|Kept(s.core, now)| < 4 && w.configured && !w.pool.CannotCreate?)))
  {
    var s := Run(es);
    TableBounded(es);
    if !s.core.closed { CoreIs(s.core, s.starts[t].now, id, w); }
  }

  /** Finished and expired jobs never block: with a configured adapter and an accepting pool the new job is
      queued, and the swept table holds nothing else. */
  lemma ExpiredNeverBlock(es: seq<Event>, t: ThreadId, id: JobId, w: World)
    requires var s := Run(es);
      && t in s.starts && s.starts[t].HasNow? && id !in s.core.futures && !s.core.closed
      && (forall j :: j in s.core.jobs ==> Expired(s.core, j, s.starts[t].now))
    requires w.configured && w.pool.Accepts?
    ensures var u := Next(Run(es), StartSection(t, id, w));
      u.starts[t] == Answered(Queued(id)) && u.core.jobs == map[id := Run(es).starts[t].now]
  {
    var s := Run(es);
    assert Swept(s.core, s.starts[t].now).jobs == map[];
  }

  /** How long a finished job is kept: the first start to read the clock `d` seconds later, with room or without, still
      finds it in the table exactly up to 300 seconds after it was queued. */
  lemma KeptForFiveMinutes(es: seq<Event>, id: JobId, d: real, t: ThreadId, other: JobId, w: World)
    requires var s := Run(es);
      && id in s.core.jobs && id in s.core.futures && s.core.futures[id].Finished? && d >= 0.0
      && t !in s.starts && other !in s.core.futures
    ensures var s := Run(es);
      var u := Next(Next(Next(s, Tick(d)), ReadClock(t)), StartSection(t, other, w));
      && id in s.core.jobs && s.core.jobs[id] <= s.clock && u.clock == s.clock + d
      && (id in u.core.jobs <==> s.clock + d - s.core.jobs[id] <= 300.0)
  {
    TableBounded(es);
    var s := Run(es);
    var s2 := Next(Next(s, Tick(d)), ReadClock(t));
    assert s2.core == s.core && s2.starts[t] == HasNow(s.clock + d);
    CoreIs(s.core, s.clock + d, other, w);
  }

  // The cancels of one close, for jobs in any order; `cancel()` takes on all but the running ones.
  function Cancels(t: ThreadId, ids: seq<JobId>, running: set<JobId>): (es: seq<Event>)
    ensures |es| == |ids|
  {
    seq(|ids|, i requires 0 <= i < |ids| => CloseCancel(t, ids[i], ids[i] !in running))
  }

  // The futures once the held jobs among `ids` have been cancelled, unless they are running.
  function Cancelled(futures: map<JobId, Fut>, ids: set<JobId>, running: set<JobId>): map<JobId, Fut> {
    map id | id in futures ::
      if id in ids && id !in running && futures[id].Unfinished? then Dropped else futures[id]
  }

  function Members(ids: seq<JobId>): set<JobId> { set id | id in ids }

  lemma {:induction false} CancelsRun(s: State, t: ThreadId, ids: seq<JobId>, running: set<JobId>)
    requires t in s.closers && Members(ids) <= s.closers[t]
    ensures var u := RunFrom(s, Cancels(t, ids, running));
      u.core == s.core.(futures := Cancelled(s.core.futures, Members(ids), running))
    decreases |ids|
  {
    if ids == [] {
      assert Cancelled(s.core.futures, Members(ids), running) == s.core.futures;
    } else {
      var e := CloseCancel(t, ids[0], ids[0] !in running);
      var s1 := Next(s, e);
      assert ids[0] in Members(ids) && Members(ids) == {ids[0]} + Members(ids[1..]);
      assert Cancels(t, ids, running) == [e] + Cancels(t, ids[1..], running);
      Ahead(s, e, Cancels(t, ids[1..], running));
      CancelsRun(s1, t, ids[1..], running);
      assert s1.core == s.core.(futures := Cancelled(s.core.futures, {ids[0]}, running)) by {
        assert s1.core.futures == Cancelled(s.core.futures, {ids[0]}, running);
      }
      CancelledTwice(s.core.futures, {ids[0]}, Members(ids[1..]), running);
    }
  }

  lemma CancelledTwice(futures: map<JobId, Fut>, a: set<JobId>, b: set<JobId>, running: set<JobId>)
    ensures Cancelled(Cancelled(futures, a, running), b, running) == Cancelled(futures, a + b, running)
  { }

  /** The first close empties the table, closes the bridge for good, and cancels every job that was in the table and had
      not begun to run, in whatever order it comes to them; no other job's future changes. */
  lemma CloseCancelsAll(es: seq<Event>, t: ThreadId, ids: seq<JobId>, running: set<JobId>)
    requires var s := Run(es); !s.core.closed && t !in s.closers && Members(ids) == s.core.jobs.Keys
    ensures var s, u := Run(es), RunFrom(Run(es), [CloseSection(t)] + Cancels(t, ids, running));
      && u.core.closed && !u.core.pool && u.core.jobs == map[] && u.core.futures.Keys == s.core.futures.Keys
      && forall id :: id in s.core.futures ==>
           u.core.futures[id] == if id in s.core.jobs && id !in running && s.core.futures[id].Unfinished? then Dropped
                                 else s.core.futures[id]
  {
    var s := Run(es);
    Ahead(s, CloseSection(t), Cancels(t, ids, running));
    CancelsRun(Next(s, CloseSection(t)), t, ids, running);
  }

  lemma GoneStep(s: State, e: Event, id: JobId)
    requires Inv(s) && id in s.core.futures && id !in s.core.jobs
    ensures id in Next(s, e).core.futures && id !in Next(s, e).core.jobs
  { }

  lemma {:induction false} GoneFrom(s: State, es: seq<Event>, id: JobId)
    requires Inv(s) && id in s.core.futures && id !in s.core.jobs
    ensures id !in RunFrom(s, es).core.jobs
    decreases |es|
  {
    if es != [] {
      InvStep(s, es[0]);
      GoneStep(s, es[0], id);
      GoneFrom(Next(s, es[0]), es[1..], id);
    }
  }

  /** A job that left the table never returns to it. */
  lemma NeverComesBack(es: seq<Event>, more: seq<Event>, id: JobId)
    requires id in Run(es).core.futures && id !in Run(es).core.jobs
    ensures id !in Run(es + more).core.jobs
  {
    TableBounded(es);
    RunAppend(INITIAL, es, more);
    GoneFrom(Run(es), more, id);
  }

  /** A poll hands something out only for a future that is done: the result of one that finished, and a failure for one
      that was cancelled. */
  lemma DeliveredIsDone(es: seq<Event>, t: ThreadId, cancelled: bool)
    requires t in Run(es).polls
    requires Next(Run(es), PollStep(t)).polls[t].pc == Replied(Delivered(cancelled)) != Run(es).polls[t].pc
    ensures var s := Run(es);
      && s.polls[t].id in s.core.futures
      && s.core.futures[s.polls[t].id] == if cancelled then Dropped else Finished
  {
    TableBounded(es);
  }

  /** How a poll that runs alone is answered, whatever state it arrives in: not found exactly if the job is not in the
      table, pending exactly if it is unfinished; else it gets what the future holds and the job is gone. */
  lemma PollAnswers(es: seq<Event>, t: ThreadId, id: JobId)
    requires t !in Run(es).polls
    ensures var s := Run(es);
      var u := Next(Next(Next(Next(s, NewPoll(t, id)), PollStep(t)), PollStep(t)), PollStep(t));
      && t in u.polls && (id in s.core.jobs ==> id in s.core.futures)
      && (u.polls[t].pc == Replied(NotFound) <==> id !in s.core.jobs)
      && (u.polls[t].pc == Replied(StillPending) <==> id in s.core.jobs && s.core.futures[id].Unfinished?)
      && (u.polls[t].pc == Replied(Delivered(false)) <==> id in s.core.jobs && s.core.futures[id].Finished?)
      && (u.polls[t].pc == Replied(Delivered(true)) <==> id in s.core.jobs && s.core.futures[id].Dropped?)
      && u.core == (if id in s.core.jobs && !s.core.futures[id].Unfinished?
                    then s.core.(jobs := s.core.jobs - {id}) else s.core)
  {
    TableBounded(es);
    var s := Run(es);
    var s1 := Next(s, NewPoll(t, id));
    var s2 := Next(s1, PollStep(t));
    assert s1.core == s.core && s1.polls[t] == Poll(id, AtLookup);
    assert s2.core == s.core && s2.polls[t] == Poll(id, if id in s.core.jobs then AtDone else Replied(NotFound));
  }

  // Poll `t` has not found its job and, the job being gone, never will.
  predicate Misses(s: State, t: ThreadId) {
    t in s.polls && (s.polls[t].pc == AtLookup || s.polls[t].pc == Replied(NotFound))
  }

  lemma MissedStep(s: State, e: Event, t: ThreadId)
    requires Misses(s, t) && s.polls[t].id !in s.core.jobs
    ensures Misses(Next(s, e), t) && Next(s, e).polls[t].id == s.polls[t].id
  { }

  lemma {:induction false} MissedFrom(s: State, es: seq<Event>, t: ThreadId)
    requires Inv(s) && Misses(s, t) && s.polls[t].id in s.core.futures && s.polls[t].id !in s.core.jobs
    ensures Misses(RunFrom(s, es), t)
    decreases |es|
  {
    if es != [] {
      InvStep(s, es[0]);
      GoneStep(s, es[0], s.polls[t].id);
      MissedStep(s, es[0], t);
      MissedFrom(Next(s, es[0]), es[1..], t);
    }
  }

  predicate HasDelivered(s: State, t: ThreadId) {
    t in s.polls && s.polls[t].pc.Replied? && s.polls[t].pc.r.Delivered?
  }

  lemma FinishDelivery(s: State, u: ThreadId) returns (es: seq<Event>)
    requires Inv(s) && u in s.polls && (s.polls[u].pc.AtDone? || s.polls[u].pc.AtPop?)
    requires s.core.futures[s.polls[u].id].IsDone()
    ensures HasDelivered(RunFrom(s, es), u)
  {
    var e := PollStep(u);
    es := if s.polls[u].pc.AtPop? then [e] else [e, e];
    assert RunFrom(s, es) == RunFrom(Next(s, e), es[1..]);
    if s.polls[u].pc.AtDone? {
      assert es[1..] == [e] && [e][1..] == [];
      assert RunFrom(Next(s, e), [e]) == RunFrom(Next(Next(s, e), e), []);
    }
  }

  /** Lookup and removal are separate sections, so a result can be handed out twice.  At the moment poll `t`
      removes a job, another unanswered poll `u` of the same job can still deliver it if and only if it had
      already looked the job up. */
  lemma SecondDeliveryIff(es: seq<Event>, t: ThreadId, u: ThreadId)
    requires var s := Run(es);
      && t in s.polls && s.polls[t].pc.AtPop? && u in s.polls && u != t
      && s.polls[u].id == s.polls[t].id && !s.polls[u].pc.Replied?
    ensures (exists more :: HasDelivered(RunFrom(Next(Run(es), PollStep(t)), more), u))
            <==> !Run(es).polls[u].pc.AtLookup?
  {
    TableBounded(es);
    var s := Run(es);
    var s1 := Next(s, PollStep(t));
    InvStep(s, PollStep(t));
    if s.polls[u].pc.AtLookup? {
      forall more ensures !HasDelivered(RunFrom(s1, more), u) { MissedFrom(s1, more, u); }
    } else {
      var more := FinishDelivery(s1, u);
      assert exists m :: HasDelivered(RunFrom(Next(Run(es), PollStep(t)), m), u);
    }
  }

  lemma Ahead(s: State, e: Event, es: seq<Event>)
    ensures RunFrom(s, [e] + es) == RunFrom(Next(s, e), es)
  {
    assert ([e] + es)[1..] == es;
  }

  lemma JobDone(s: State, id: JobId)
    requires s == INITIAL
    ensures var t := RunFrom(s, [ReadClock(0), StartSection(0, id, World(true, Accepts)), WorkerDone(id)]);
      id in t.core.jobs && t.core.futures == map[id := Finished] && t.polls == map[]
  {
    var w := World(true, Accepts);
    var s1 := Next(s, ReadClock(0));
    var s2 := Next(s1, StartSection(0, id, w));
    assert Swept(s1.core, 0.0).jobs == map[];
    assert [ReadClock(0), StartSection(0, id, w), WorkerDone(id)]
        == [ReadClock(0)] + ([StartSection(0, id, w)] + ([WorkerDone(id)] + []));
    Ahead(s, ReadClock(0), [StartSection(0, id, w)] + ([WorkerDone(id)] + []));
    Ahead(s1, StartSection(0, id, w), [WorkerDone(id)] + []);
    Ahead(s2, WorkerDone(id), []);
    assert Next(s2, WorkerDone(id)).core.futures == map[id := Finished];
  }

  // Two polls of one job in step with each other, from after their arrival.
  lemma PollsInStep(s: State, id: JobId)
    requires id in s.core.futures && s.core.futures[id].IsDone() && id in s.core.jobs
    requires 0 in s.polls && 1 in s.polls && s.polls[0] == Poll(id, AtLookup) && s.polls[1] == Poll(id, AtLookup)
    ensures var u := RunFrom(s, [PollStep(0), PollStep(1), PollStep(0), PollStep(1), PollStep(0), PollStep(1)]);
      HasDelivered(u, 0) && HasDelivered(u, 1)
  {
    var a, b := PollStep(0), PollStep(1);
    var s1 := Next(Next(s, a), b);
    var s2 := Next(Next(s1, a), b);
    assert s1.core == s.core && s1.polls[0] == Poll(id, AtDone) && s1.polls[1] == Poll(id, AtDone);
    assert s2.core == s.core && s2.polls[0] == Poll(id, AtPop) && s2.polls[1] == Poll(id, AtPop);
    assert [a, b, a, b, a, b] == [a] + ([b] + ([a] + ([b] + ([a] + ([b] + [])))));
    Ahead(s, a, [b] + ([a] + ([b] + ([a] + ([b] + [])))));
    Ahead(Next(s, a), b, [a] + ([b] + ([a] + ([b] + []))));
    Ahead(s1, a, [b] + ([a] + ([b] + [])));
    Ahead(Next(s1, a), b, [a] + ([b] + []));
    Ahead(s2, a, [b] + []);
    Ahead(Next(s2, a), b, []);
  }

  /** One finished job, and two polls that each look it up before either removes it: both get its result. */
  lemma DeliveredTwice(id: JobId)
    ensures var es := [ReadClock(0), StartSection(0, id, World(true, Accepts)), WorkerDone(id)]
                    + [NewPoll(0, id), NewPoll(1, id)]
                    + [PollStep(0), PollStep(1), PollStep(0), PollStep(1), PollStep(0), PollStep(1)];
      HasDelivered(Run(es), 0) && HasDelivered(Run(es), 1)
  {
    var start := [ReadClock(0), StartSection(0, id, World(true, Accepts)), WorkerDone(id)];
    var arrive := [NewPoll(0, id), NewPoll(1, id)];
    var s := Run(start);
    JobDone(INITIAL, id);
    assert arrive == [NewPoll(0, id)] + ([NewPoll(1, id)] + []);
    Ahead(s, NewPoll(0, id), [NewPoll(1, id)] + []);
    Ahead(Next(s, NewPoll(0, id)), NewPoll(1, id), []);
    RunAppend(INITIAL, start, arrive);
    PollsInStep(Run(start + arrive), id);
    RunAppend(INITIAL, start + arrive, [PollStep(0), PollStep(1), PollStep(0), PollStep(1), PollStep(0), PollStep(1)]);
  }

  // ---- the table object ----

  class JobTable {
    var jobs: map<JobId, real>
    var closed: bool
    var pool: bool
    var futures: map<JobId, Fut>

    ghost function View(): Core
      reads this
    {
      Core(jobs, closed, pool, futures)
    }

    constructor ()
      ensures View() == INITIAL.core
    {
      jobs, closed, pool, futures := map[], false, false, map[];
    }

    /** Drops every finished job older than the time-to-live, one entry of the copied item list at a time. */
    method Sweep(now: real)
      modifies this`jobs
      ensures View() == Swept(old(View()), now)
    {
      ghost var start := View();
      var items := jobs.Keys;
      while items != {}
        invariant items <= start.jobs.Keys
        invariant View() == start.(jobs := jobs)
        invariant forall id :: id in jobs <==> id in start.jobs && (id in items || !Expired(start, id, now))
        invariant forall id :: id in jobs ==> jobs[id] == start.jobs[id]
        decreases |items|
      {
        var id :| id in items;
        if id in futures && futures[id].IsDone() && now - jobs[id] > TTL {
          jobs := jobs - {id};
        }
        items := items - {id};
      }
    }

    /** The locked part of start_evidence_pack. */
    method StartSection(now: real, id: JobId, w: World) returns (a: StartAnswer)
      requires id !in futures
      modifies this
      ensures a == StartAnswerOf(old(View()), now, id, w)
      ensures View() == StartCore(old(View()), now, id, w)
    {
      if closed { return Unavailable; }
      Sweep(now);
      if |jobs| >= MAX_JOBS { return QueueFull; }
      if !w.configured { return Unavailable; }
      if !pool {
        if w.pool.CannotCreate? { return if w.pool.runtimeError then Unavailable else Raised; }
        pool := true;
      }
      if w.pool.Broken? { return Unavailable; }
      jobs, futures := jobs[id := now], futures[id := Unfinished];
      a := Queued(id);
    }

    /** A poll whose two sections run without interference: not found, still pending, or delivered and gone. */
    method Poll(id: JobId) returns (r: PollAnswer)
      requires jobs.Keys <= futures.Keys
      modifies this`jobs
      ensures r == if id !in old(jobs) then NotFound
                   else if futures[id].Unfinished? then StillPending else Delivered(futures[id].Dropped?)
      ensures jobs == if r.Delivered? then old(jobs) - {id} else old(jobs)
    {
      if id !in jobs { return NotFound; }
      if !futures[id].IsDone() { return StillPending; }
      jobs := jobs - {id};
      r := Delivered(futures[id].Dropped?);
    }

    /** The close: empties the table under the lock, then cancels what it held, except jobs that are running; only the
        first call acts. */
    method Close(running: set<JobId>)
      modifies this
      ensures old(closed) ==> View() == old(View())
      ensures !old(closed) ==>
        && closed && !pool && jobs == map[] && futures.Keys == old(futures).Keys
        && (forall id :: id in futures ==>
              futures[id] == if id in old(jobs) && id !in running && old(futures)[id].Unfinished? then Dropped
                             else old(futures)[id])
    {
      if closed { return; }
      var held := jobs.Keys;
      ghost var before := futures;
      closed, pool, jobs := true, false, map[];
      ghost var all := held;
      while held != {}
        invariant held <= all
        invariant closed && !pool && jobs == map[] && futures.Keys == before.Keys
        invariant forall id :: id in futures ==>
          futures[id] == if id in all - held && id !in running && before[id].Unfinished? then Dropped else before[id]
        decreases |held|
      {
        var id :| id in held;
        if id in futures && futures[id].Unfinished? && id !in running { futures := futures[id := Dropped]; }
        held := held - {id};
      }
    }
  }
}
