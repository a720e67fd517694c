/** The bounded drop-oldest queue between the backend loop, which sends, and the flush thread, which drains.
    `put_nowait` and `get_nowait` are the atomic steps.  All sends run on the loop thread and contain no
    suspension point, so there is one producer; message `n` is the n-th one handed to send_text. */
module PushQueue {

  const MAX_QUEUE := 5000
  const MAX_BATCH := 500

  // The producer: idle, its first put found the queue full, or about to put again after dropping.
  datatype Producer = Idle | FoundFull | Retrying

  // `hand` is what the drainer has collected for its next batch; `lost` lists the messages that reached the
  // queue's front door and were given up.
  datatype State = State(queue: seq<nat>, sent: nat, producer: Producer, hand: seq<nat>,
                         batches: seq<seq<nat>>, dropped: seq<nat>)

  datatype Event = Send | DropOldest | PutAgain | Take | Flush

  const INITIAL := State([], 0, Idle, [], [], [])

  function Next(s: State, e: Event): State {
    match e
    case Send =>
      if !s.producer.Idle? then s
      else if |s.queue| < MAX_QUEUE then s.(queue := s.queue + [s.sent], sent := s.sent + 1)
      else s.(producer := FoundFull, sent := s.sent + 1)
    case DropOldest =>
      if !s.producer.FoundFull? then s
      else if s.queue == [] then s.(producer := Retrying)
      else s.(producer := Retrying, queue := s.queue[1..], dropped := s.dropped + [s.queue[0]])
    case PutAgain =>
      if !s.producer.Retrying? || s.sent == 0 then s
      else if |s.queue| < MAX_QUEUE then s.(producer := Idle, queue := s.queue + [s.sent - 1])
      else s.(producer := Idle, dropped := s.dropped + [s.sent - 1])
    case Take =>
      if |s.hand| < MAX_BATCH && s.queue != [] then s.(queue := s.queue[1..], hand := s.hand + [s.queue[0]]) else s
    case Flush =>
      if s.hand != [] && (|s.hand| == MAX_BATCH || s.queue == [])
      then s.(hand := [], batches := s.batches + [s.hand]) else s
  }

  function RunFrom(s: State, es: seq<Event>): State
    decreases |es|
  {
    if es == [] then s else RunFrom(Next(s, es[0]), es[1..])
  }

  function Run(es: seq<Event>): State { RunFrom(INITIAL, es) }

  function Flat(bs: seq<seq<nat>>): seq<nat> {
    if bs == [] then [] else Flat(bs[..|bs| - 1]) + bs[|bs| - 1]
  }

  // What the drainer has taken, in the order it took it.
  function Taken(s: State): seq<nat> { Flat(s.batches) + s.hand }

  // The messages that have entered the queue: all sent ones, except one the producer still holds.
  function Entered(s: State): int { if s.producer.Idle? then s.sent else s.sent - 1 }

  // Everything before this message has left the queue.
  function Front(s: State): int { Entered(s) - |s.queue| }

  predicate Increasing(q: seq<nat>) { forall i, j :: 0 <= i < j < |q| ==> q[i] < q[j] }

  // Everything below `front` was taken or dropped, each message once, in order.
  ghost predicate Ledger(taken: seq<nat>, dropped: seq<nat>, front: int) {
    && Increasing(taken) && Increasing(dropped)
    && |taken| + |dropped| == front
    && (forall m: nat :: m < front <==> m in taken || m in dropped)
    && (forall m :: m in dropped ==> m !in taken)
  }

  predicate Consecutive(q: seq<nat>, front: int) { forall i :: 0 <= i < |q| ==> q[i] == front + i }

  predicate AllBefore(dropped: seq<nat>, sent: nat) { forall m :: m in dropped ==> m + 1 < sent }

  predicate BatchesOk(bs: seq<seq<nat>>) { forall i :: 0 <= i < |bs| ==> 1 <= |bs[i]| <= MAX_BATCH }

  ghost predicate Inv(s: State) {
    && |s.queue| <= MAX_QUEUE
    && (s.producer.Retrying? ==> |s.queue| < MAX_QUEUE)
    && (!s.producer.Idle? ==> s.sent > 0)
    && Front(s) >= 0
    && Consecutive(s.queue, Front(s))
    && Ledger(Taken(s), s.dropped, Front(s))
    && AllBefore(s.dropped, s.sent)
    && |s.hand| <= MAX_BATCH
    && BatchesOk(s.batches)
  }

  lemma AppendIncreasing(q: seq<nat>, x: nat)
    requires Increasing(q) && forall m :: m in q ==> m < x
    ensures Increasing(q + [x])
  {
    forall i, j | 0 <= i < j < |q + [x]| ensures (q + [x])[i] < (q + [x])[j] {
      assert q[i] in q;
    }
  }

  lemma LedgerTake(taken: seq<nat>, dropped: seq<nat>, front: nat)
    requires Ledger(taken, dropped, front)
    ensures Ledger(taken + [front], dropped, front + 1)
  {
    AppendIncreasing(taken, front);
  }

  lemma LedgerDrop(taken: seq<nat>, dropped: seq<nat>, front: nat)
    requires Ledger(taken, dropped, front)
    ensures Ledger(taken, dropped + [front], front + 1)
  {
    AppendIncreasing(dropped, front);
  }

  lemma PopFirst(q: seq<nat>, front: int)
    requires Consecutive(q, front) && q != []
    ensures q[0] == front && Consecutive(q[1..], front + 1)
  { }

  lemma TakeStep(s: State)
    requires Inv(s)
    ensures Inv(Next(s, Take))
  {
    if |s.hand| < MAX_BATCH && s.queue != [] {
      PopFirst(s.queue, Front(s));
      LedgerTake(Taken(s), s.dropped, Front(s));
      assert Taken(Next(s, Take)) == Taken(s) + [s.queue[0]];
    }
  }

  lemma DropStep(s: State)
    requires Inv(s)
    ensures Inv(Next(s, DropOldest))
  {
    if s.producer.FoundFull? && s.queue != [] {
      PopFirst(s.queue, Front(s));
      LedgerDrop(Taken(s), s.dropped, Front(s));
    }
  }

  lemma FlushStep(s: State)
    requires Inv(s)
    ensures Inv(Next(s, Flush))
  {
    var t := Next(s, Flush);
    if t != s {
      assert t.batches[..|t.batches| - 1] == s.batches;
      assert Taken(t) == Taken(s);
    }
  }

  lemma PutStep(s: State, e: Event)
    requires Inv(s) && (e.Send? || e.PutAgain?)
    ensures Inv(Next(s, e))
  {
    var t := Next(s, e);
    assert Taken(t) == Taken(s) && Front(t) == Front(s);
  }

  lemma InvStep(s: State, e: Event)
    requires Inv(s)
    ensures Inv(Next(s, e))
  {
    match e
    case Take => TakeStep(s);
    case DropOldest => DropStep(s);
    case Flush => FlushStep(s);
    case _ => PutStep(s, e);
  }

  lemma {:induction false} InvFrom(s: State, es: seq<Event>)
    requires Inv(s)
    ensures Inv(RunFrom(s, es))
    decreases |es|
  {
    if es != [] {
      InvStep(s, es[0]);
      InvFrom(Next(s, es[0]), es[1..]);
    }
  }

  /** At every instant the queue is a gap-free run of message numbers, at most 5000 of them, that ends with
      the newest message to have entered it; what the drainer took is in sending order. */
  lemma QueueIsFreshestRun(es: seq<Event>)
    ensures var s := Run(es);
      && |s.queue| <= 5000
      && (forall i :: 0 <= i < |s.queue| ==> s.queue[i] == Entered(s) - |s.queue| + i)
      && Increasing(Taken(s))
      && (forall i :: 0 <= i < |s.batches| ==> 1 <= |s.batches[i]| <= 500)
  {
    InvFrom(INITIAL, es);
  }

  /** Nothing is lost silently or doubled: every message that entered is in exactly one of the queue, the
      drainer's takings and the dropped ones, and the three counts add up. */
  lemma Conserved(es: seq<Event>)
    ensures var s := Run(es);
      && |Taken(s)| + |s.dropped| + |s.queue| == Entered(s)
      && (forall m: nat :: m < Entered(s) <==> m in Taken(s) || m in s.dropped || m in s.queue)
      && (forall m :: m in s.queue ==> m !in Taken(s) && m !in s.dropped)
      && (forall m :: m in s.dropped ==> m !in Taken(s))
  {
    InvFrom(INITIAL, es);
    var s := Run(es);
    forall m: nat | Front(s) <= m < Entered(s) ensures m in s.queue { assert s.queue[m - Front(s)] == m; }
  }

  /** A message is dropped only after a newer one was sent, and everything dropped is older than everything
      still queued: the freshest state always survives. */
  lemma NewestNeverDropped(es: seq<Event>)
    ensures var s := Run(es);
      && (forall m :: m in s.dropped ==> m + 1 < s.sent)
      && (forall m, q :: m in s.dropped && q in s.queue ==> m < q)
  {
    InvFrom(INITIAL, es);
  }

  /** What one send does if nothing comes between: with room the message joins the queue, and on a full queue the oldest
      one is dropped for it. */
  lemma SendAlone(es: seq<Event>)
    requires Run(es).producer.Idle?
    ensures var s := Run(es);
      var t := if |s.queue| < 5000 then Next(s, Send) else Next(Next(Next(s, Send), DropOldest), PutAgain);
      && t.producer.Idle? && t.sent == s.sent + 1
      && t.queue == (if |s.queue| < 5000 then s.queue else s.queue[1..]) + [s.sent]
      && t.dropped == s.dropped + (if |s.queue| < 5000 then [] else s.queue[..1])
  {
    InvFrom(INITIAL, es);
    SendFrom(Run(es));
  }

  lemma SendFrom(s: State)
    requires s.producer.Idle? && |s.queue| <= MAX_QUEUE
    ensures var t := if |s.queue| < MAX_QUEUE then Next(s, Send) else Next(Next(Next(s, Send), DropOldest), PutAgain);
      && t.producer.Idle? && t.sent == s.sent + 1
      && t.queue == (if |s.queue| < MAX_QUEUE then s.queue else s.queue[1..]) + [s.sent]
      && t.dropped == s.dropped + (if |s.queue| < MAX_QUEUE then [] else s.queue[..1])
  {
    if |s.queue| == MAX_QUEUE {
      var u := Next(Next(s, Send), DropOldest);
      assert u.producer.Retrying? && u.queue == s.queue[1..] && u.sent == s.sent + 1;
      assert u.dropped == s.dropped + [s.queue[0]];
      assert s.queue[..1] == [s.queue[0]];
    }
  }

  /** A send that has found the queue full always comes through, whatever the drainer does in between: it makes room, or
      finds some made, and its message joins the queue. */
  lemma HeldMessageGetsIn(es: seq<Event>)
    ensures var s := Run(es);
      && (s.producer.FoundFull? ==>
            && Next(s, DropOldest).producer.Retrying?
            && Next(s, DropOldest).queue == if s.queue == [] then [] else s.queue[1..])
      && (s.producer.Retrying? ==>
            && Next(s, PutAgain).producer.Idle?
            && Next(s, PutAgain).queue == s.queue + [s.sent - 1] && Next(s, PutAgain).dropped == s.dropped)
  {
    InvFrom(INITIAL, es);
  }

  // The drainer's events for a batch of `n` messages.
  function DrainOf(n: nat): seq<Event> { if n == 0 then [Flush] else [Take] + DrainOf(n - 1) }

  lemma Ahead(s: State, e: Event, es: seq<Event>)
    ensures RunFrom(s, [e] + es) == RunFrom(Next(s, e), es)
  {
    assert ([e] + es)[1..] == es;
  }

  // `s` once everything in hand and the next `n` messages have been flushed.
  function Drained(s: State, n: nat): State
    requires n <= |s.queue|
  {
    s.(queue := s.queue[n..], hand := [], batches := s.batches + [s.hand + s.queue[..n]])
  }

  lemma TakeTurn(s: State, n: nat)
    requires 0 < n <= |s.queue| && |s.hand| < MAX_BATCH
    ensures Next(s, Take) == s.(queue := s.queue[1..], hand := s.hand + [s.queue[0]])
    ensures Drained(Next(s, Take), n - 1) == Drained(s, n)
  {
    var q := s.queue;
    assert q[1..][n - 1..] == q[n..];
    assert (s.hand + [q[0]]) + q[1..][..n - 1] == s.hand + q[..n];
  }

  lemma {:induction false} DrainFrom(s: State, n: nat)
    requires n <= |s.queue| && 1 <= |s.hand| + n <= MAX_BATCH
    requires |s.hand| + n == MAX_BATCH || n == |s.queue|
    ensures RunFrom(s, DrainOf(n)) == Drained(s, n)
    decreases n
  {
    if n == 0 {
      assert s.hand + s.queue[..0] == s.hand && [Flush] == [Flush] + [];
      Ahead(s, Flush, []);
    } else {
      TakeTurn(s, n);
      Ahead(s, Take, DrainOf(n - 1));
      DrainFrom(Next(s, Take), n - 1);
    }
  }

  /** A drain that nothing interrupts flushes the oldest messages as one batch, 500 of them or all there are. */
  lemma DrainAlone(es: seq<Event>)
    requires Run(es).hand == [] && Run(es).queue != []
    ensures var s := Run(es);
      var n := if |s.queue| < 500 then |s.queue| else 500;
      RunFrom(s, DrainOf(n)) == s.(queue := s.queue[n..], batches := s.batches + [s.queue[..n]])
  {
    var s := Run(es);
    var n := if |s.queue| < 500 then |s.queue| else 500;
    DrainFrom(s, n);
    assert [] + s.queue[..n] == s.queue[..n];
  }

  /** What has been collected is flushed as a batch exactly when it is full or the queue has run empty. */
  lemma FlushesIff(s: State)
    ensures var flushes := s.hand != [] && (|s.hand| == 500 || s.queue == []);
      Next(s, Flush) == if flushes then s.(hand := [], batches := s.batches + [s.hand]) else s
  { }

  // ---- the channel object ----

  class Channel<T> {
    var queue: seq<T>

    constructor ()
      ensures queue == []
    {
      queue := [];
    }

    method PutNowait(x: T) returns (ok: bool)
      modifies this
      ensures ok <==> |old(queue)| < 5000
      ensures queue == if ok then old(queue) + [x] else old(queue)
    {
      ok := |queue| < MAX_QUEUE;
      if ok { queue := queue + [x]; }
    }

    method GetNowait() returns (x: seq<T>)
      modifies this
      ensures x == if old(queue) == [] then [] else old(queue)[..1]
      ensures x + queue == old(queue)
    {
      x := if queue == [] then [] else queue[..1];
      if queue != [] { queue := queue[1..]; }
    }

    /** Without interference the newest message always gets in, and costs a full queue its oldest one. */
    method SendText(x: T)
      requires |queue| <= 5000
      modifies this
      ensures queue == (if |old(queue)| < 5000 then old(queue) else old(queue)[1..]) + [x]
      ensures |queue| <= 5000
    {
      var ok := PutNowait(x);
      if !ok {
        var oldest := GetNowait();
        assert old(queue) == oldest + queue;
        ok := PutNowait(x);
      }
    }

    /** Without interference a drain takes the oldest messages, up to one batch, and leaves the rest. */
    method Drain() returns (items: seq<T>)
      modifies this
      ensures items + queue == old(queue)
      ensures |items| == if |old(queue)| < 500 then |old(queue)| else 500
    {
      items := GetNowait();
      if items == [] { return; }
      var more := items;
      while more != [] && |items| < MAX_BATCH
        invariant items + queue == old(queue)
        invariant 1 <= |items| <= MAX_BATCH
        invariant more == [] ==> queue == []
        decreases |queue|, |more|
      {
        more := GetNowait();
        items := items + more;
      }
    }
  }
}
