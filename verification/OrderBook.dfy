/** The in-memory limit order book fed by the stress harness.  Prices are integer cents.  Both sides are kept
    by rank, the price for asks and the negated price for bids, so that the best level of a side is the one of
    least rank and the two mirrored matching loops are one. */
module OrderBook {
  import opened Options

  datatype OrderId = Syn(tick: nat) | Mkt(tick: nat)

  datatype Order = Order(id: OrderId, remaining: real)
  datatype Level = Level(total: real, orders: seq<Order>)
  type Side = map<int, Level>

  datatype Fill = Fill(id: OrderId, rank: int, size: real)
  datatype Kind = Limit | Market | Ioc | Fok | PostOnly

  // ---- the reference: one queue per side, in price-time priority ----

  datatype Resting = Resting(rank: int, order: Order)

  datatype Matched = Matched(fills: seq<Fill>, rest: seq<Resting>, left: real, gone: seq<OrderId>)

  predicate Crosses(rank: int, limit: Option<int>) { limit.None? || rank <= limit.value }

  // Fill from the head of the queue while something is wanted and the head is within the limit.
  function Consume(q: seq<Resting>, limit: Option<int>, want: real): Matched
    decreases |q|
  {
    if q == [] || want <= 0.0 || !Crosses(q[0].rank, limit) then Matched([], q, want, [])
    else
      var rank, o := q[0].rank, q[0].order;
      if want < o.remaining then
        Matched([Fill(o.id, rank, want)], [Resting(rank, o.(remaining := o.remaining - want))] + q[1..], 0.0, [])
      else
        var m := Consume(q[1..], limit, want - o.remaining);
        Matched([Fill(o.id, rank, o.remaining)] + m.fills, m.rest, m.left, [o.id] + m.gone)
  }

  // A new order goes behind all orders of the same or a better rank.
  function Insert(q: seq<Resting>, e: Resting): seq<Resting> {
    if q == [] || e.rank < q[0].rank then [e] + q else [q[0]] + Insert(q[1..], e)
  }

  // The volume within a limit.
  function Available(q: seq<Resting>, limit: Option<int>): real {
    if q == [] || !Crosses(q[0].rank, limit) then 0.0 else q[0].order.remaining + Available(q[1..], limit)
  }

  predicate CanFill(q: seq<Resting>, limit: Option<int>, size: real) {
    q != [] && Crosses(q[0].rank, limit) && Available(q, limit) >= size
  }

  // ---- levels keyed by rank ----

  function Sum(os: seq<Order>): real {
    if os == [] then 0.0 else os[0].remaining + Sum(os[1..])
  }

  predicate LevelOk(l: Level) {
    l.total == Sum(l.orders) && forall i :: 0 <= i < |l.orders| ==> l.orders[i].remaining > 0.0
  }

  predicate SideOk(s: Side) { forall r :: r in s ==> LevelOk(s[r]) && s[r].orders != [] }

  predicate IsBest(s: Side, r: int) { r in s && forall q :: q in s ==> r <= q }

  lemma Pick<T>(a: set<T>) returns (x: T)
    requires a != {}
    ensures x in a
  {
    x :| x in a;
  }

  lemma BestExists(s: Side)
    requires s != map[]
    ensures exists r :: IsBest(s, r)
    decreases |s|
  {
    var x := Pick(s.Keys);
    var rest := s - {x};
    if rest == map[] {
      assert s.Keys == rest.Keys + {x};
      assert IsBest(s, x);
    } else {
      BestExists(rest);
      var r :| IsBest(rest, r);
      forall q | q in s ensures (if x <= r then x else r) <= q { assert q == x || q in rest; }
      assert IsBest(s, if x <= r then x else r);
    }
  }

  ghost function Best(s: Side): (r: int)
    requires s != map[]
    ensures IsBest(s, r)
  {
    BestExists(s);
    var r :| IsBest(s, r);
    r
  }

  function Tagged(r: int, os: seq<Order>): (q: seq<Resting>)
    ensures |q| == |os| && forall i :: 0 <= i < |os| ==> q[i] == Resting(r, os[i])
  {
    seq(|os|, i requires 0 <= i < |os| => Resting(r, os[i]))
  }

  // The side read level by level, best first, and within a level in arrival order.
  ghost function Queue(s: Side): seq<Resting>
    decreases |s|
  {
    if s == map[] then [] else var r := Best(s); Tagged(r, s[r].orders) + Queue(s - {r})
  }

  lemma QueueHead(s: Side, r: int)
    requires IsBest(s, r)
    ensures Queue(s) == Tagged(r, s[r].orders) + Queue(s - {r})
  {
    assert Best(s) == r;
  }

  // Replacing or adding the best level changes only the head of the queue.
  lemma QueueReplace(s: Side, r: int, l: Level)
    requires forall q :: q in s ==> r <= q
    ensures Queue(s[r := l]) == Tagged(r, l.orders) + Queue(s - {r})
  {
    QueueHead(s[r := l], r);
    assert s[r := l] - {r} == s - {r};
  }

  // ---- matching ----

  function Prepend(fills: seq<Fill>, gone: seq<OrderId>, m: Matched): Matched {
    m.(fills := fills + m.fills, gone := gone + m.gone)
  }

  // One turn of the inner loop: the oldest order of the best level gives what it can.
  function Served(o: Order, take: real): seq<Order> {
    if o.remaining - take <= 0.0 then [] else [o.(remaining := o.remaining - take)]
  }

  lemma ConsumeNothing(q: seq<Resting>, limit: Option<int>)
    ensures Consume(q, limit, 0.0) == Matched([], q, 0.0, [])
  { }

  lemma ServePart(r: int, os: seq<Order>, tail: seq<Resting>, limit: Option<int>, want: real)
    requires os != [] && 0.0 < want < os[0].remaining && Crosses(r, limit)
    ensures var q := Tagged(r, [os[0].(remaining := os[0].remaining - want)] + os[1..]) + tail;
      && Consume(Tagged(r, os) + tail, limit, want) == Matched([Fill(os[0].id, r, want)], q, 0.0, [])
      && Consume(q, limit, 0.0) == Matched([], q, 0.0, [])
  {
    var o := os[0].(remaining := os[0].remaining - want);
    TaggedCons(r, os, tail);
    TaggedCons(r, [o] + os[1..], tail);
    assert ([o] + os[1..])[1..] == os[1..];
    ConsumeNothing(Tagged(r, [o] + os[1..]) + tail, limit);
  }

  lemma ServeWhole(r: int, os: seq<Order>, tail: seq<Resting>, limit: Option<int>, want: real)
    requires os != [] && want > 0.0 && want >= os[0].remaining && Crosses(r, limit)
    ensures Consume(Tagged(r, os) + tail, limit, want)
      == Prepend([Fill(os[0].id, r, os[0].remaining)], [os[0].id],
                 Consume(Tagged(r, os[1..]) + tail, limit, want - os[0].remaining))
  {
    TaggedCons(r, os, tail);
  }

  lemma ServeHead(r: int, os: seq<Order>, tail: seq<Resting>, limit: Option<int>, want: real, take: real)
    requires os != [] && want > 0.0 && os[0].remaining > 0.0 && Crosses(r, limit)
    requires take == if want < os[0].remaining then want else os[0].remaining
    ensures var served := Served(os[0], take);
      Consume(Tagged(r, os) + tail, limit, want)
      == Prepend([Fill(os[0].id, r, take)], if served == [] then [os[0].id] else [],
                 Consume(Tagged(r, served + os[1..]) + tail, limit, want - take))
  {
    if want < os[0].remaining {
      assert Served(os[0], take) == [os[0].(remaining := os[0].remaining - want)];
      ServePart(r, os, tail, limit, want);
    } else {
      assert Served(os[0], take) == [];
      ServeWhole(r, os, tail, limit, want);
      assert [] + os[1..] == os[1..];
    }
  }

  // Where a matching run stands: `m` is the outcome for the whole queue, of which `fills` and `gone` are done
  // and `q` with the amount `left` is still to be consumed.
  ghost predicate Progress(m: Matched, fills: seq<Fill>, gone: seq<OrderId>,
                           q: seq<Resting>, limit: Option<int>, left: real) {
    m == Prepend(fills, gone, Consume(q, limit, left))
  }

  lemma ServeTurn(m: Matched, fills: seq<Fill>, gone: seq<OrderId>, r: int, os: seq<Order>, tail: seq<Resting>,
                  limit: Option<int>, left: real, take: real)
    requires Progress(m, fills, gone, Tagged(r, os) + tail, limit, left)
    requires os != [] && left > 0.0 && os[0].remaining > 0.0 && Crosses(r, limit)
    requires take == if left < os[0].remaining then left else os[0].remaining
    ensures var served := Served(os[0], take);
      Progress(m, fills + [Fill(os[0].id, r, take)], gone + if served == [] then [os[0].id] else [],
               Tagged(r, served + os[1..]) + tail, limit, left - take)
  {
    ServeHead(r, os, tail, limit, left, take);
    var served := Served(os[0], take);
    PrependTwice(fills, gone, [Fill(os[0].id, r, take)], if served == [] then [os[0].id] else [],
                 Consume(Tagged(r, served + os[1..]) + tail, limit, left - take));
  }

  /** The inner loop: one level serves the incoming order until either is exhausted. */
  method MatchLevel(best: int, start: Level, ghost tail: seq<Resting>, limit: Option<int>, want: real,
                    ghost m: Matched, doneFills: seq<Fill>, doneGone: seq<OrderId>)
    returns (level: Level, fills: seq<Fill>, left: real, gone: seq<OrderId>)
    requires LevelOk(start) && Crosses(best, limit)
    requires Progress(m, doneFills, doneGone, Tagged(best, start.orders) + tail, limit, want)
    ensures LevelOk(level) && (left <= 0.0 || level.orders == [])
    ensures Progress(m, fills, gone, Tagged(best, level.orders) + tail, limit, left)
  {
    level, fills, left, gone := start, doneFills, want, doneGone;
    while left > 0.0 && level.orders != []
      invariant LevelOk(level)
      invariant Progress(m, fills, gone, Tagged(best, level.orders) + tail, limit, left)
      decreases |level.orders|, left > 0.0
    {
      var o := level.orders[0];
      var take := if left < o.remaining then left else o.remaining;
      ServeTurn(m, fills, gone, best, level.orders, tail, limit, left, take);
      ServedLevel(level, take);
      var served := Served(o, take);
      fills := fills + [Fill(o.id, best, take)];
      gone := gone + if served == [] then [o.id] else [];
      level := Level(level.total - take, served + level.orders[1..]);
      left := left - take;
    }
  }

  lemma ServedLevel(level: Level, take: real)
    requires LevelOk(level) && level.orders != [] && take <= level.orders[0].remaining
    ensures LevelOk(Level(level.total - take, Served(level.orders[0], take) + level.orders[1..]))
  {
    var served := Served(level.orders[0], take);
    var os := served + level.orders[1..];
    if served == [] { assert os == level.orders[1..]; } else { assert os[1..] == level.orders[1..]; }
  }

  // The best level after it was served is put back, or removed when nothing is left of it.
  lemma LevelServed(s: Side, best: int, level: Level)
    requires SideOk(s) && IsBest(s, best) && LevelOk(level)
    ensures var after := if level.total <= 0.0 || level.orders == [] then s - {best} else s[best := level];
      SideOk(after) && Queue(after) == Tagged(best, level.orders) + Queue(s - {best})
  {
    SumPositive(level.orders);
    if level.orders == [] {
      assert Tagged(best, level.orders) + Queue(s - {best}) == Queue(s - {best});
    } else {
      QueueReplace(s, best, level);
    }
  }

  lemma ConsumeStops(m: Matched, fills: seq<Fill>, gone: seq<OrderId>, q: seq<Resting>, limit: Option<int>, left: real)
    requires Progress(m, fills, gone, q, limit, left)
    requires q == [] || left <= 0.0 || !Crosses(q[0].rank, limit)
    ensures m == Matched(fills, q, left, gone)
  {
    assert fills + [] == fills && gone + [] == gone;
  }

  lemma HeadRank(s: Side, best: int)
    requires SideOk(s) && IsBest(s, best)
    ensures Queue(s) != [] && Queue(s)[0].rank == best
    ensures Queue(s) == Tagged(best, s[best].orders) + Queue(s - {best})
  {
    QueueHead(s, best);
    assert Queue(s)[0] == Tagged(best, s[best].orders)[0];
  }

  // One turn of the loop over levels.
  method MatchBest(side: Side, best: int, limit: Option<int>, want: real, ghost m: Matched,
                   doneFills: seq<Fill>, doneGone: seq<OrderId>)
    returns (after: Side, fills: seq<Fill>, left: real, gone: seq<OrderId>)
    requires SideOk(side) && IsBest(side, best) && Crosses(best, limit)
    requires Progress(m, doneFills, doneGone, Queue(side), limit, want)
    ensures SideOk(after) && Progress(m, fills, gone, Queue(after), limit, left)
    ensures |after| < |side| || (|after| == |side| && left <= 0.0)
  {
    QueueHead(side, best);
    var level;
    level, fills, left, gone := MatchLevel(best, side[best], Queue(side - {best}), limit, want, m, doneFills, doneGone);
    LevelServed(side, best, level);
    SumPositive(level.orders);
    after := if level.total <= 0.0 || level.orders == [] then side - {best} else side[best := level];
    assert side[best := level].Keys == side.Keys;
  }

  /** The loop over levels.  It does exactly what consuming the priority queue of the whole side does: same
      fills, same order, same remainder, same survivors. */
  method MatchSide(side: Side, limit: Option<int>, size: real)
    returns (after: Side, fills: seq<Fill>, left: real, gone: seq<OrderId>)
    requires SideOk(side)
    ensures SideOk(after)
    ensures Consume(Queue(side), limit, size) == Matched(fills, Queue(after), left, gone)
  {
    ghost var m := Consume(Queue(side), limit, size);
    after, fills, left, gone := side, [], size, [];
    assert m.fills == [] + m.fills && m.gone == [] + m.gone;
    while left > 0.0 && after != map[]
      invariant SideOk(after)
      invariant Progress(m, fills, gone, Queue(after), limit, left)
      decreases |after|, left > 0.0
    {
      BestExists(after);
      var best :| best in after && forall q :: q in after ==> best <= q;
      HeadRank(after, best);
      if !Crosses(best, limit) { break; }
      after, fills, left, gone := MatchBest(after, best, limit, left, m, fills, gone);
    }
    ConsumeStops(m, fills, gone, Queue(after), limit, left);
  }

  lemma PrependTwice(fills: seq<Fill>, gone: seq<OrderId>, fills': seq<Fill>, gone': seq<OrderId>, m: Matched)
    ensures Prepend(fills, gone, Prepend(fills', gone', m)) == Prepend(fills + fills', gone + gone', m)
  {
    assert fills + (fills' + m.fills) == fills + fills' + m.fills;
    assert gone + (gone' + m.gone) == gone + gone' + m.gone;
  }

  lemma SumPositive(os: seq<Order>)
    requires forall i :: 0 <= i < |os| ==> os[i].remaining > 0.0
    ensures Sum(os) >= 0.0 && (os != [] ==> Sum(os) > 0.0)
  {
    if os != [] { SumPositive(os[1..]); }
  }

  // ---- resting orders ----

  // The level a resting order joins, or a new one.
  function Joined(s: Side, r: int, o: Order): Side {
    var l := if r in s then s[r] else Level(0.0, []);
    s[r := Level(l.total + o.remaining, l.orders + [o])]
  }

  lemma {:induction false} SumAppend(os: seq<Order>, o: Order)
    ensures Sum(os + [o]) == Sum(os) + o.remaining
  {
    if os == [] {
      assert os + [o] == [o];
    } else {
      assert (os + [o])[1..] == os[1..] + [o];
      SumAppend(os[1..], o);
    }
  }

  lemma JoinedOk(s: Side, r: int, o: Order)
    requires SideOk(s) && o.remaining > 0.0
    ensures SideOk(Joined(s, r, o))
  {
    SumAppend(if r in s then s[r].orders else [], o);
  }

  lemma TaggedCons(r: int, os: seq<Order>, q: seq<Resting>)
    requires os != []
    ensures Tagged(r, os) + q == [Resting(r, os[0])] + (Tagged(r, os[1..]) + q)
    ensures (Tagged(r, os) + q)[1..] == Tagged(r, os[1..]) + q
  { }

  lemma {:induction false} InsertBehind(r: int, os: seq<Order>, q: seq<Resting>, e: Resting)
    requires r <= e.rank
    ensures Insert(Tagged(r, os) + q, e) == Tagged(r, os) + Insert(q, e)
    decreases |os|
  {
    if os == [] {
      assert Tagged(r, os) + q == q && Tagged(r, os) + Insert(q, e) == Insert(q, e);
    } else {
      TaggedCons(r, os, q);
      TaggedCons(r, os, Insert(q, e));
      InsertBehind(r, os[1..], q, e);
    }
  }

  lemma {:induction false} QueueRanks(s: Side)
    ensures forall i :: 0 <= i < |Queue(s)| ==> Queue(s)[i].rank in s
    ensures SideOk(s) && s != map[] ==> Queue(s) != []
    decreases |s|
  {
    if s != map[] {
      var r := Best(s);
      QueueRanks(s - {r});
    }
  }

  lemma JoinedInFront(s: Side, r: int, o: Order)
    requires forall q :: q in s ==> r < q
    ensures Queue(Joined(s, r, o)) == Insert(Queue(s), Resting(r, o))
  {
    QueueReplace(s, r, Joined(s, r, o)[r]);
    QueueRanks(s);
    assert s - {r} == s;
    assert Tagged(r, [] + [o]) == [Resting(r, o)];
    assert Queue(s) == [] || r < Queue(s)[0].rank;
  }

  lemma JoinedAtBest(s: Side, r: int, o: Order)
    requires IsBest(s, r)
    ensures Queue(Joined(s, r, o)) == Insert(Queue(s), Resting(r, o))
  {
    var e, rest := Resting(r, o), s - {r};
    QueueHead(s, r);
    QueueReplace(s, r, Joined(s, r, o)[r]);
    InsertBehind(r, s[r].orders, Queue(rest), e);
    QueueRanks(rest);
    assert Queue(rest) == [] || r < Queue(rest)[0].rank;
    assert Tagged(r, s[r].orders + [o]) == Tagged(r, s[r].orders) + [e];
    assert Tagged(r, s[r].orders) + [e] + Queue(rest) == Tagged(r, s[r].orders) + ([e] + Queue(rest));
  }

  lemma JoinedCommutes(s: Side, r: int, o: Order, b: int)
    requires b != r && b in s
    ensures Joined(s, r, o) - {b} == Joined(s - {b}, r, o)
    ensures b in Joined(s, r, o) && Joined(s, r, o)[b] == s[b]
  { }

  lemma JoinedBeyond(s: Side, r: int, o: Order, b: int)
    requires IsBest(s, b) && b < r
    ensures Queue(Joined(s, r, o)) == Tagged(b, s[b].orders) + Queue(Joined(s - {b}, r, o))
  {
    var t := Joined(s, r, o);
    assert IsBest(t, b);
    QueueHead(t, b);
    JoinedCommutes(s, r, o, b);
  }

  /** Appending to the level of its price is inserting into the priority queue. */
  lemma {:induction false} JoinedIsInsert(s: Side, r: int, o: Order)
    ensures Queue(Joined(s, r, o)) == Insert(Queue(s), Resting(r, o))
    decreases |s|
  {
    if s == map[] || r < Best(s) {
      JoinedInFront(s, r, o);
    } else if r == Best(s) {
      JoinedAtBest(s, r, o);
    } else {
      var b := Best(s);
      JoinedBeyond(s, r, o, b);
      QueueHead(s, b);
      JoinedIsInsert(s - {b}, r, o);
      InsertBehind(b, s[b].orders, Queue(s - {b}), Resting(r, o));
    }
  }

  // ---- the fill-or-kill test ----

  lemma {:induction false} AvailableBehind(r: int, os: seq<Order>, q: seq<Resting>, limit: Option<int>)
    requires Crosses(r, limit)
    ensures Available(Tagged(r, os) + q, limit) == Sum(os) + Available(q, limit)
    decreases |os|
  {
    if os == [] {
      assert Tagged(r, os) + q == q;
    } else {
      TaggedCons(r, os, q);
      AvailableBehind(r, os[1..], q, limit);
    }
  }

  lemma {:induction false} AvailableNonNegative(q: seq<Resting>, limit: Option<int>)
    requires forall i :: 0 <= i < |q| ==> q[i].order.remaining > 0.0
    ensures Available(q, limit) >= 0.0
    decreases |q|
  {
    if q != [] { AvailableNonNegative(q[1..], limit); }
  }

  lemma {:induction false} QueuePositive(s: Side)
    requires SideOk(s)
    ensures forall i :: 0 <= i < |Queue(s)| ==> Queue(s)[i].order.remaining > 0.0
    decreases |s|
  {
    if s != map[] {
      assert LevelOk(s[Best(s)]);
      QueuePositive(s - {Best(s)});
    }
  }

  /** Adding up level totals best first, stopping early, decides whether the queue within the limit holds the
      wanted size. */
  method CanFillCompletely(side: Side, limit: int, size: real) returns (ok: bool)
    requires SideOk(side)
    ensures ok <==> CanFill(Queue(side), Some(limit), size)
  {
    var accum, rest := 0.0, side;
    QueueRanks(side);
    while rest != map[]
      invariant SideOk(rest)
      invariant Available(Queue(side), Some(limit)) == accum + Available(Queue(rest), Some(limit))
      invariant rest == side || (accum < size && Queue(side) != [] && Crosses(Queue(side)[0].rank, Some(limit)))
      invariant rest == side ==> accum == 0.0
      decreases |rest|
    {
      BestExists(rest);
      var p :| p in rest && forall q :: q in rest ==> p <= q;
      QueueHead(rest, p);
      assert Queue(rest)[0] == Tagged(p, rest[p].orders)[0];
      if p > limit { return false; }
      AvailableBehind(p, rest[p].orders, Queue(rest - {p}), Some(limit));
      QueuePositive(rest - {p});
      AvailableNonNegative(Queue(rest - {p}), Some(limit));
      accum := accum + rest[p].total;
      if accum >= size { return true; }
      rest := rest - {p};
    }
    ok := false;
  }

  // ---- the whole book, as two queues and the id index ----

  datatype Book = Book(bids: seq<Resting>, asks: seq<Resting>, index: set<OrderId>)

  datatype Status = RejectedPostOnly | CancelledFok | Filled | PartialThenCancelled | Rested | PartialThenRested
  datatype Report = Report(status: Status, fills: seq<Fill>, left: real)

  // What a buy at `price` may take: asks up to it, any with a market order; a sell mirrors that in ranks.
  function Reach(buy: bool, price: int): int { if buy then price else -price }

  function OwnSide(b: Book, buy: bool): seq<Resting> { if buy then b.bids else b.asks }

  function Opposite(b: Book, buy: bool): seq<Resting> { if buy then b.asks else b.bids }

  function WithOpposite(b: Book, buy: bool, q: seq<Resting>): Book { if buy then b.(asks := q) else b.(bids := q) }

  function WithRested(b: Book, buy: bool, price: int, o: Order): Book {
    var e := Resting(Reach(!buy, price), o);
    if buy then b.(bids := Insert(b.bids, e), index := b.index + {o.id})
    else b.(asks := Insert(b.asks, e), index := b.index + {o.id})
  }

  // The book after matching and before resting.
  function MatchedBook(b: Book, buy: bool, price: int, size: real, kind: Kind): Book {
    var m := Consume(Opposite(b, buy), if kind.Market? then None else Some(Reach(buy, price)), size);
    WithOpposite(b, buy, m.rest).(index := b.index - (set x | x in m.gone))
  }

  // What an accepted order does: match, then rest what is left unless its kind forbids it.
  function ExecuteSpec(b: Book, id: OrderId, buy: bool, price: int, size: real, kind: Kind): (Book, Report) {
    var m := Consume(Opposite(b, buy), if kind.Market? then None else Some(Reach(buy, price)), size);
    var matched := MatchedBook(b, buy, price, size, kind);
    if kind.Ioc? || kind.Market? || m.left <= 0.0 then
      (matched, Report(if m.left <= 0.0 then Filled else PartialThenCancelled, m.fills, m.left))
    else
      (WithRested(matched, buy, price, Order(id, m.left)),
       Report(if size - m.left == 0.0 then Rested else PartialThenRested, m.fills, m.left))
  }

  function AddOrderSpec(b: Book, id: OrderId, buy: bool, price: int, size: real, kind: Kind): (Book, Report) {
    var opp := Opposite(b, buy);
    if kind.PostOnly? && opp != [] && opp[0].rank <= Reach(buy, price) then (b, Report(RejectedPostOnly, [], size))
    else if kind.Fok? && !CanFill(opp, Some(Reach(buy, price)), size) then (b, Report(CancelledFok, [], size))
    else ExecuteSpec(b, id, buy, price, size, kind)
  }

  predicate Ordered(q: seq<Resting>) { forall i, j :: 0 <= i < j < |q| ==> q[i].rank <= q[j].rank }

  predicate Positive(q: seq<Resting>) { forall i :: 0 <= i < |q| ==> q[i].order.remaining > 0.0 }

  predicate QueueOk(q: seq<Resting>) { Ordered(q) && Positive(q) }

  // The best bid is below the best ask.
  predicate Uncrossed(b: Book) { b.bids != [] && b.asks != [] ==> -b.bids[0].rank < b.asks[0].rank }

  predicate BookOk(b: Book) { QueueOk(b.bids) && QueueOk(b.asks) && Uncrossed(b) }

  function Ids(q: seq<Resting>): seq<OrderId> {
    if q == [] then [] else [q[0].order.id] + Ids(q[1..])
  }

  function Volume(q: seq<Resting>): real {
    if q == [] then 0.0 else q[0].order.remaining + Volume(q[1..])
  }

  function FillSum(fs: seq<Fill>): real {
    if fs == [] then 0.0 else fs[0].size + FillSum(fs[1..])
  }

  // ---- facts about consuming ----

  lemma TailOk(q: seq<Resting>)
    requires QueueOk(q) && q != []
    ensures QueueOk(q[1..])
  {
    forall i, j | 0 <= i < j < |q[1..]| ensures q[1..][i].rank <= q[1..][j].rank {
      assert q[i + 1].rank <= q[j + 1].rank;
    }
  }

  lemma FillSumCons(f: Fill, fs: seq<Fill>)
    ensures FillSum([f] + fs) == f.size + FillSum(fs)
  {
    assert ([f] + fs)[1..] == fs;
  }

  /** Nothing is created or destroyed: fills plus remainder make the order's size, and the volume that left the
      queue is the volume filled. */
  lemma {:induction false} ConsumeConserves(q: seq<Resting>, limit: Option<int>, want: real)
    ensures var m := Consume(q, limit, want);
      && FillSum(m.fills) + m.left == want
      && Volume(q) == Volume(m.rest) + FillSum(m.fills)
    decreases |q|
  {
    if q == [] || want <= 0.0 || !Crosses(q[0].rank, limit) {
    } else {
      var o := q[0].order;
      if want < o.remaining {
        FillSumCons(Fill(o.id, q[0].rank, want), []);
        var head := Resting(q[0].rank, o.(remaining := o.remaining - want));
        assert ([head] + q[1..])[1..] == q[1..];
      } else {
        ConsumeConserves(q[1..], limit, want - o.remaining);
        FillSumCons(Fill(o.id, q[0].rank, o.remaining), Consume(q[1..], limit, want - o.remaining).fills);
      }
    }
  }

  /** The survivors are still in priority order, and if the incoming order has something left, nothing within its
      limit survives. */
  lemma {:induction false} ConsumeShape(q: seq<Resting>, limit: Option<int>, want: real)
    requires QueueOk(q)
    ensures var m := Consume(q, limit, want);
      && QueueOk(m.rest)
      && (m.rest != [] ==> q != [] && q[0].rank <= m.rest[0].rank)
      && (m.left > 0.0 ==> m.rest == [] || !Crosses(m.rest[0].rank, limit))
    decreases |q|
  {
    if q != [] && want > 0.0 && Crosses(q[0].rank, limit) {
      var o := q[0].order;
      if want < o.remaining {
        HeadShrinks(q, want);
      } else {
        TailOk(q);
        ConsumeShape(q[1..], limit, want - o.remaining);
        if |q| > 1 { assert q[0].rank <= q[1].rank; }
      }
    }
  }

  lemma HeadShrinks(q: seq<Resting>, take: real)
    requires QueueOk(q) && q != [] && take < q[0].order.remaining
    ensures var o := q[0].order;
      QueueOk([Resting(q[0].rank, o.(remaining := o.remaining - take))] + q[1..])
  {
    var o := q[0].order;
    var r := [Resting(q[0].rank, o.(remaining := o.remaining - take))] + q[1..];
    forall i | 0 <= i < |r| ensures r[i].rank == q[i].rank && r[i].order.remaining > 0.0 {
      assert i == 0 || r[i] == q[i];
    }
  }

  /** Exhausted orders leave from the front, and no others leave. */
  lemma {:induction false} ConsumeIds(q: seq<Resting>, limit: Option<int>, want: real)
    ensures Ids(q) == Consume(q, limit, want).gone + Ids(Consume(q, limit, want).rest)
    decreases |q|
  {
    var m := Consume(q, limit, want);
    if q == [] || want <= 0.0 || !Crosses(q[0].rank, limit) {
      assert m.gone + Ids(q) == Ids(q);
    } else if want < q[0].order.remaining {
      assert m.rest[1..] == q[1..];
    } else {
      var tail := Consume(q[1..], limit, want - q[0].order.remaining);
      ConsumeIds(q[1..], limit, want - q[0].order.remaining);
      assert m.gone + Ids(m.rest) == [q[0].order.id] + (tail.gone + Ids(tail.rest));
    }
  }

  /** Price-time priority: the fills go to the first orders of the queue, in order and within the limit, and every
      one of them but the last is exhausted before the next is touched. */
  lemma {:induction false} FillsInPriority(q: seq<Resting>, limit: Option<int>, want: real, k: nat)
    requires Positive(q) && k < |Consume(q, limit, want).fills|
    ensures var fills := Consume(q, limit, want).fills;
      && |fills| <= |q|
      && fills[k].id == q[k].order.id && fills[k].rank == q[k].rank && Crosses(q[k].rank, limit)
      && 0.0 < fills[k].size <= q[k].order.remaining
      && (k + 1 < |fills| ==> fills[k].size == q[k].order.remaining)
    decreases |q|
  {
    if want >= q[0].order.remaining {
      var tail := Consume(q[1..], limit, want - q[0].order.remaining).fills;
      if tail != [] { FillsInPriority(q[1..], limit, want - q[0].order.remaining, if k == 0 then 0 else k - 1); }
    }
  }

  /** The whole size is filled exactly when the volume within the limit suffices. */
  lemma {:induction false} FilledIffAvailable(q: seq<Resting>, limit: Option<int>, want: real)
    requires QueueOk(q) && want > 0.0
    ensures Consume(q, limit, want).left <= 0.0 <==> Available(q, limit) >= want
    ensures Consume(q, limit, want).left >= 0.0
    decreases |q|
  {
    if q != [] && Crosses(q[0].rank, limit) {
      TailOk(q);
      AvailableNonNegative(q[1..], limit);
      if want > q[0].order.remaining { FilledIffAvailable(q[1..], limit, want - q[0].order.remaining); }
    }
  }

  // ---- facts about resting ----

  lemma {:induction false} InsertShape(q: seq<Resting>, e: Resting)
    requires QueueOk(q) && e.order.remaining > 0.0
    ensures var r := Insert(q, e);
      && QueueOk(r) && r != []
      && r[0].rank == (if q == [] || e.rank < q[0].rank then e.rank else q[0].rank)
      && |r| == |q| + 1
    decreases |q|
  {
    var r := Insert(q, e);
    if q == [] || e.rank < q[0].rank {
      forall i, j | 0 <= i < j < |r| ensures r[i].rank <= r[j].rank {
        if i > 0 { assert q[i - 1].rank <= q[j - 1].rank; } else { assert q[0].rank <= q[j - 1].rank; }
      }
    } else {
      TailOk(q);
      InsertShape(q[1..], e);
      var t := Insert(q[1..], e);
      assert q[0].rank <= t[0].rank;
      forall i, j | 0 <= i < j < |r| ensures r[i].rank <= r[j].rank {
        if i > 0 { assert t[i - 1].rank <= t[j - 1].rank; } else { assert j == 1 || t[0].rank <= t[j - 1].rank; }
      }
      forall i | 0 <= i < |r| ensures r[i].order.remaining > 0.0 { if i > 0 { assert t[i - 1].order.remaining > 0.0; } }
    }
  }

  /** Every accepted order keeps the book in order and uncrossed, whatever its kind, price and size. */
  lemma AddKeepsBook(b: Book, id: OrderId, buy: bool, price: int, size: real, kind: Kind)
    requires BookOk(b)
    ensures BookOk(AddOrderSpec(b, id, buy, price, size, kind).0)
  {
    var limit := if kind.Market? then None else Some(Reach(buy, price));
    var left := Consume(Opposite(b, buy), limit, size).left;
    MatchingKeepsBook(b, buy, price, size, kind);
    if left > 0.0 && !kind.Market? {
      RestingKeepsBook(MatchedBook(b, buy, price, size, kind), buy, price, Order(id, left));
    }
  }

  // After matching, a remainder that may rest meets nothing within its limit.
  predicate NothingInReach(b: Book, buy: bool, price: int) {
    Opposite(b, buy) == [] || Opposite(b, buy)[0].rank > Reach(buy, price)
  }

  lemma MatchingKeepsBook(b: Book, buy: bool, price: int, size: real, kind: Kind)
    requires BookOk(b)
    ensures BookOk(MatchedBook(b, buy, price, size, kind))
    ensures !kind.Market? && Consume(Opposite(b, buy), Some(Reach(buy, price)), size).left > 0.0 ==>
              NothingInReach(MatchedBook(b, buy, price, size, kind), buy, price)
  {
    ConsumeShape(Opposite(b, buy), if kind.Market? then None else Some(Reach(buy, price)), size);
  }

  lemma RestingKeepsBook(b: Book, buy: bool, price: int, o: Order)
    requires BookOk(b) && NothingInReach(b, buy, price) && o.remaining > 0.0
    ensures BookOk(WithRested(b, buy, price, o))
  {
    InsertShape(if buy then b.bids else b.asks, Resting(Reach(!buy, price), o));
  }

  /** Fill-or-kill is all or nothing: the order is filled to its full size, or the book does not change. */
  lemma FillOrKill(b: Book, id: OrderId, buy: bool, price: int, size: real)
    requires BookOk(b) && size > 0.0
    ensures var (b', r) := AddOrderSpec(b, id, buy, price, size, Fok);
      if Available(Opposite(b, buy), Some(Reach(buy, price))) >= size
      then
        && r.status == Filled && FillSum(r.fills) == size
        && Volume(Opposite(b', buy)) == Volume(Opposite(b, buy)) - size
      else r.status == CancelledFok && r.fills == [] && b' == b
  {
    var opp, limit := Opposite(b, buy), Some(Reach(buy, price));
    FilledIffAvailable(opp, limit, size);
    ConsumeConserves(opp, limit, size);
    assert Available(opp, limit) >= size ==> CanFill(opp, limit, size);
  }

  /** A post-only order never takes liquidity, and is turned away exactly when it would. */
  lemma PostOnlyNeverTakes(b: Book, id: OrderId, buy: bool, price: int, size: real)
    requires BookOk(b) && size > 0.0
    ensures var (b', r) := AddOrderSpec(b, id, buy, price, size, PostOnly);
      && r.fills == [] && r.left == size && Opposite(b', buy) == Opposite(b, buy)
      && r.status in {RejectedPostOnly, Rested}
      && (r.status == RejectedPostOnly <==> Consume(Opposite(b, buy), Some(Reach(buy, price)), size).fills != [])
  { }

  // ---- the id index ----

  /** The index holds exactly the ids of the resting orders, and no id rests twice. */
  ghost predicate Exact(b: Book) { multiset(Ids(b.bids)) + multiset(Ids(b.asks)) == multiset(b.index) }

  lemma {:induction false} InsertIds(q: seq<Resting>, e: Resting)
    ensures multiset(Ids(Insert(q, e))) == multiset(Ids(q)) + multiset{e.order.id}
    decreases |q|
  {
    if q == [] || e.rank < q[0].rank {
      assert ([e] + q)[1..] == q;
    } else {
      InsertIds(q[1..], e);
      assert Insert(q, e)[1..] == Insert(q[1..], e);
    }
  }

  // What is left when a part of a set's elements is taken away.
  lemma RemovedExactly(all: set<OrderId>, gone: seq<OrderId>, kept: multiset<OrderId>)
    requires multiset(all) == multiset(gone) + kept
    ensures multiset(all - (set x | x in gone)) == kept
  {
    forall x ensures multiset(all - (set x | x in gone))[x] == kept[x] {
      assert multiset(all)[x] == multiset(gone)[x] + kept[x];
      assert x in gone <==> x in multiset(gone);
    }
  }

  lemma MatchingKeepsExact(b: Book, buy: bool, price: int, size: real, kind: Kind)
    requires Exact(b)
    ensures Exact(MatchedBook(b, buy, price, size, kind))
  {
    var opp, limit := Opposite(b, buy), if kind.Market? then None else Some(Reach(buy, price));
    var m := Consume(opp, limit, size);
    var own := multiset(Ids(if buy then b.bids else b.asks));
    ConsumeIds(opp, limit, size);
    SplitBag(m.gone, Ids(m.rest), own);
    assert multiset(b.index) == multiset(Ids(opp)) + own;
    RemovedExactly(b.index, m.gone, multiset(Ids(m.rest)) + own);
  }

  lemma SplitBag(a: seq<OrderId>, b: seq<OrderId>, more: multiset<OrderId>)
    ensures multiset(a + b) + more == multiset(a) + (multiset(b) + more)
  { }

  lemma RestingExactIff(b: Book, buy: bool, price: int, o: Order)
    requires Exact(b)
    ensures Exact(WithRested(b, buy, price, o)) <==> o.id !in b.index
  {
    var b' := WithRested(b, buy, price, o);
    InsertIds(if buy then b.bids else b.asks, Resting(Reach(!buy, price), o));
    assert multiset(Ids(b'.bids)) + multiset(Ids(b'.asks)) == multiset(b.index) + multiset{o.id};
    OneMoreId(b.index, o.id);
  }

  lemma OneMoreId(index: set<OrderId>, id: OrderId)
    ensures multiset(index) + multiset{id} == multiset(index + {id}) <==> id !in index
  {
    assert (multiset(index) + multiset{id})[id] == multiset(index)[id] + 1;
    if id in index { assert multiset(index + {id})[id] == 1; }
  }

  predicate Rests(st: Status) { st.Rested? || st.PartialThenRested? }

  lemma AddIsMatchThenRest(b: Book, id: OrderId, buy: bool, price: int, size: real, kind: Kind)
    ensures var (b', r) := AddOrderSpec(b, id, buy, price, size, kind);
      var m := MatchedBook(b, buy, price, size, kind);
      if Rests(r.status) then b' == WithRested(m, buy, price, Order(id, r.left)) else b' == b || b' == m
  { }

  // The index stays exact unless an order comes to rest under an id that rests after matching.
  lemma ExactIffFresh(b: Book, id: OrderId, buy: bool, price: int, size: real, kind: Kind)
    requires Exact(b)
    ensures var (b', r) := AddOrderSpec(b, id, buy, price, size, kind);
      Exact(b') <==> (Rests(r.status) ==> id !in MatchedBook(b, buy, price, size, kind).index)
  {
    AddIsMatchThenRest(b, id, buy, price, size, kind);
    MatchingKeepsExact(b, buy, price, size, kind);
    RestingExactIff(MatchedBook(b, buy, price, size, kind), buy, price,
                    Order(id, AddOrderSpec(b, id, buy, price, size, kind).1.left));
  }

  // The part of a queue that an order cannot reach.
  function OutOfReach(q: seq<Resting>, limit: int): seq<Resting>
    decreases |q|
  {
    if q == [] || q[0].rank > limit then q else OutOfReach(q[1..], limit)
  }

  // A kind that may leave a remainder in the book; a post-only order that would take is turned away.
  predicate MayRest(opp: seq<Resting>, kind: Kind, reach: int) {
    kind.Limit? || (kind.PostOnly? && (opp == [] || opp[0].rank > reach))
  }

  lemma {:induction false} LeftoverMeetsTheRest(q: seq<Resting>, limit: int, want: real)
    requires Positive(q) && Available(q, Some(limit)) < want
    ensures var m := Consume(q, Some(limit), want); m.rest == OutOfReach(q, limit) && m.left > 0.0
    decreases |q|
  {
    AvailableNonNegative(q, Some(limit));
    if q != [] && q[0].rank <= limit {
      assert Positive(q[1..]) by { assert forall i :: 0 <= i < |q[1..]| ==> q[1..][i] == q[i + 1]; }
      AvailableNonNegative(q[1..], Some(limit));
      LeftoverMeetsTheRest(q[1..], limit, want - q[0].order.remaining);
    }
  }

  lemma LeftoverIff(q: seq<Resting>, limit: int, size: real)
    requires QueueOk(q)
    ensures Consume(q, Some(limit), size).left > 0.0 <==> Available(q, Some(limit)) < size
  {
    AvailableNonNegative(q, Some(limit));
    if size > 0.0 { FilledIffAvailable(q, Some(limit), size); }
  }

  lemma RestsIff(b: Book, id: OrderId, buy: bool, price: int, size: real, kind: Kind)
    requires BookOk(b)
    ensures var opp, reach := Opposite(b, buy), Reach(buy, price);
      Rests(AddOrderSpec(b, id, buy, price, size, kind).1.status) <==>
        MayRest(opp, kind, reach) && Available(opp, Some(reach)) < size
  {
    LeftoverIff(Opposite(b, buy), Reach(buy, price), size);
  }

  lemma InIndexIff(b: Book, buy: bool, id: OrderId)
    requires Exact(b)
    ensures id in b.index <==> id in Ids(OwnSide(b, buy)) || id in Ids(Opposite(b, buy))
  {
    assert id in b.index <==> id in multiset(b.index);
    assert id in multiset(b.index) <==> id in multiset(Ids(b.bids)) || id in multiset(Ids(b.asks));
  }

  /** An order breaks the index if and only if it is of a kind that may rest, the volume within its reach is less than
      its size, and its id already rests on its own side or on the other side beyond its reach. */
  lemma IndexBreaksIff(b: Book, id: OrderId, buy: bool, price: int, size: real, kind: Kind)
    requires BookOk(b) && Exact(b)
    ensures var opp, reach := Opposite(b, buy), Reach(buy, price);
      !Exact(AddOrderSpec(b, id, buy, price, size, kind).0) <==>
        && MayRest(opp, kind, reach)
        && Available(opp, Some(reach)) < size
        && (id in Ids(OwnSide(b, buy)) || id in Ids(OutOfReach(opp, reach)))
  {
    var opp, reach := Opposite(b, buy), Reach(buy, price);
    RestsIff(b, id, buy, price, size, kind);
    ExactIffFresh(b, id, buy, price, size, kind);
    if MayRest(opp, kind, reach) && Available(opp, Some(reach)) < size {
      var m := MatchedBook(b, buy, price, size, kind);
      LeftoverMeetsTheRest(opp, reach, size);
      MatchingKeepsExact(b, buy, price, size, kind);
      InIndexIff(m, buy, id);
      assert Opposite(m, buy) == OutOfReach(opp, reach) && OwnSide(m, buy) == OwnSide(b, buy);
    }
  }

  lemma {:induction false} InsertVolume(q: seq<Resting>, e: Resting)
    ensures Volume(Insert(q, e)) == Volume(q) + e.order.remaining
    decreases |q|
  {
    if q == [] || e.rank < q[0].rank {
      assert ([e] + q)[1..] == q;
    } else {
      InsertVolume(q[1..], e);
      assert Insert(q, e)[1..] == Insert(q[1..], e);
    }
  }

  lemma {:induction false} FillsArePositive(fs: seq<Fill>)
    requires forall i :: 0 <= i < |fs| ==> fs[i].size > 0.0
    ensures FillSum(fs) >= 0.0 && (FillSum(fs) == 0.0 <==> fs == [])
    decreases |fs|
  {
    if fs != [] { FillsArePositive(fs[1..]); }
  }

  // The books before and after an order, and its report, add up.
  predicate AddsUp(b: Book, b': Book, r: Report, buy: bool, size: real) {
    && FillSum(r.fills) + r.left == size
    && Volume(Opposite(b', buy)) == Volume(Opposite(b, buy)) - FillSum(r.fills)
    && Volume(OwnSide(b', buy)) == Volume(OwnSide(b, buy)) + if Rests(r.status) then r.left else 0.0
  }

  lemma MatchAddsUp(b: Book, buy: bool, price: int, size: real, kind: Kind)
    ensures var m := Consume(Opposite(b, buy), if kind.Market? then None else Some(Reach(buy, price)), size);
      var b' := MatchedBook(b, buy, price, size, kind);
      && FillSum(m.fills) + m.left == size
      && Volume(Opposite(b', buy)) == Volume(Opposite(b, buy)) - FillSum(m.fills)
      && OwnSide(b', buy) == OwnSide(b, buy)
  {
    ConsumeConserves(Opposite(b, buy), if kind.Market? then None else Some(Reach(buy, price)), size);
  }

  lemma RestAddsUp(b: Book, buy: bool, price: int, o: Order)
    ensures var b' := WithRested(b, buy, price, o);
      Opposite(b', buy) == Opposite(b, buy) && Volume(OwnSide(b', buy)) == Volume(OwnSide(b, buy)) + o.remaining
  {
    InsertVolume(OwnSide(b, buy), Resting(Reach(!buy, price), o));
  }

  lemma ExecuteAddsUp(b: Book, id: OrderId, buy: bool, price: int, size: real, kind: Kind)
    ensures var (b', r) := ExecuteSpec(b, id, buy, price, size, kind); AddsUp(b, b', r, buy, size)
  {
    var left := Consume(Opposite(b, buy), if kind.Market? then None else Some(Reach(buy, price)), size).left;
    MatchAddsUp(b, buy, price, size, kind);
    RestAddsUp(MatchedBook(b, buy, price, size, kind), buy, price, Order(id, left));
  }

  /** The report and the book agree for every order: fills and remainder make the size, the opposite side loses what
      was filled, the own side gains the remainder exactly when it rests. */
  lemma ReportTells(b: Book, id: OrderId, buy: bool, price: int, size: real, kind: Kind)
    ensures var (b', r) := AddOrderSpec(b, id, buy, price, size, kind); AddsUp(b, b', r, buy, size)
  {
    ExecuteAddsUp(b, id, buy, price, size, kind);
  }

  /** What the status means, for a positive size: filled is exactly nothing left, resting untouched is exactly no
      fill, and immediate-or-cancel and market orders never rest. */
  lemma StatusTells(b: Book, id: OrderId, buy: bool, price: int, size: real, kind: Kind)
    requires BookOk(b) && size > 0.0
    ensures var r := AddOrderSpec(b, id, buy, price, size, kind).1;
      && (r.status == Filled <==> r.left == 0.0)
      && (r.status == Rested ==> r.fills == []) && (r.status == PartialThenRested ==> r.fills != [])
      && (Rests(r.status) || r.status == PartialThenCancelled ==> r.left > 0.0)
      && (kind.Ioc? || kind.Market? ==> r.status in {Filled, PartialThenCancelled})
  {
    var opp := Opposite(b, buy);
    MatchedTells(opp, if kind.Market? then None else Some(Reach(buy, price)), size);
    if kind.Fok? { FilledIffAvailable(opp, Some(Reach(buy, price)), size); }
  }

  // For a positive size: nothing is left over below zero, and all is left over exactly if nothing was filled.
  lemma MatchedTells(q: seq<Resting>, limit: Option<int>, size: real)
    requires QueueOk(q) && size > 0.0
    ensures var m := Consume(q, limit, size); m.left >= 0.0 && (m.fills == [] <==> m.left == size)
  {
    var m := Consume(q, limit, size);
    FilledIffAvailable(q, limit, size);
    ConsumeConserves(q, limit, size);
    forall k | 0 <= k < |m.fills| ensures m.fills[k].size > 0.0 { FillsInPriority(q, limit, size, k); }
    FillsArePositive(m.fills);
  }

  // `after` is `before` with `e` put at place `k`, behind everything of the same or a better rank.
  predicate RestsAt(before: seq<Resting>, after: seq<Resting>, e: Resting, k: nat) {
    && k <= |before| && after == before[..k] + [e] + before[k..]
    && (forall i :: 0 <= i < k ==> before[i].rank <= e.rank)
    && (forall i :: k <= i < |before| ==> before[i].rank > e.rank)
  }

  ghost predicate JoinsQueue(before: seq<Resting>, after: seq<Resting>, e: Resting) {
    exists k: nat :: RestsAt(before, after, e, k)
  }

  lemma {:induction false} InsertPlace(q: seq<Resting>, e: Resting) returns (k: nat)
    requires Ordered(q)
    ensures RestsAt(q, Insert(q, e), e, k)
    decreases |q|
  {
    if q == [] || e.rank < q[0].rank {
      k := 0;
      assert q[..0] + [e] + q[0..] == [e] + q;
    } else {
      assert Ordered(q[1..]) by {
        forall i, j | 0 <= i < j < |q[1..]| ensures q[1..][i].rank <= q[1..][j].rank {
          assert q[i + 1].rank <= q[j + 1].rank;
        }
      }
      k := InsertPlace(q[1..], e);
      PlaceBehindHead(q, Insert(q[1..], e), e, k);
      k := k + 1;
    }
  }

  lemma PlaceBehindHead(q: seq<Resting>, tail: seq<Resting>, e: Resting, k: nat)
    requires q != [] && q[0].rank <= e.rank && RestsAt(q[1..], tail, e, k)
    ensures RestsAt(q, [q[0]] + tail, e, k + 1)
  {
    assert q[..k + 1] == [q[0]] + q[1..][..k] && q[k + 1..] == q[1..][k..];
    forall i | 0 <= i < k + 1 ensures q[i].rank <= e.rank { assert i == 0 || q[i] == q[1..][i - 1]; }
    forall i | k + 1 <= i < |q| ensures q[i].rank > e.rank { assert q[i] == q[1..][i - 1]; }
  }

  /** An order that comes to rest does so at its own price, with what was not filled, behind every order of its side
      at that price or a better one and before all others; otherwise its side does not change. */
  lemma RestsAtItsPrice(b: Book, id: OrderId, buy: bool, price: int, size: real, kind: Kind)
    requires BookOk(b)
    ensures var (b', r) := AddOrderSpec(b, id, buy, price, size, kind);
      var before, after := if buy then b.bids else b.asks, if buy then b'.bids else b'.asks;
      if Rests(r.status) then
        JoinsQueue(before, after, Resting(if buy then -price else price, Order(id, r.left)))
      else after == before
  {
    var (b', r) := AddOrderSpec(b, id, buy, price, size, kind);
    AddIsMatchThenRest(b, id, buy, price, size, kind);
    if Rests(r.status) {
      var k := InsertPlace(if buy then b.bids else b.asks, Resting(if buy then -price else price, Order(id, r.left)));
    }
  }

  /** The fills are with the first resting orders of the other side, in their order, under their ids and at their
      prices, each for no more than the order has; all but the last take an order whole. */
  lemma FillsAreTheFirst(b: Book, id: OrderId, buy: bool, price: int, size: real, kind: Kind, k: nat)
    requires BookOk(b) && k < |AddOrderSpec(b, id, buy, price, size, kind).1.fills|
    ensures var fills, opposite := AddOrderSpec(b, id, buy, price, size, kind).1.fills, if buy then b.asks else b.bids;
      && |fills| <= |opposite|
      && fills[k].id == opposite[k].order.id && fills[k].rank == opposite[k].rank
      && 0.0 < fills[k].size <= opposite[k].order.remaining
      && (k + 1 < |fills| ==> fills[k].size == opposite[k].order.remaining)
  {
    FillsInPriority(Opposite(b, buy), if kind.Market? then None else Some(Reach(buy, price)), size, k);
  }

  // What an order that is not turned away reports is what matching found.
  lemma AddReports(b: Book, id: OrderId, buy: bool, price: int, size: real, kind: Kind)
    ensures var (b', r) := AddOrderSpec(b, id, buy, price, size, kind);
      var m := Consume(Opposite(b, buy), if kind.Market? then None else Some(Reach(buy, price)), size);
      if r.status.RejectedPostOnly? || r.status.CancelledFok? then r.fills == [] && b' == b
      else
        && r.fills == m.fills && r.left == m.left && Opposite(b', buy) == m.rest
        && (r.status.Filled? <==> m.left <= 0.0)
  { }

  lemma WithinLimit(q: seq<Resting>, limit: int, want: real)
    requires QueueOk(q)
    ensures var m := Consume(q, Some(limit), want);
      && (forall k :: 0 <= k < |m.fills| ==> m.fills[k].rank <= limit)
      && (m.left > 0.0 ==> forall k :: 0 <= k < |m.rest| ==> m.rest[k].rank > limit)
  {
    var m := Consume(q, Some(limit), want);
    forall k | 0 <= k < |m.fills| ensures m.fills[k].rank <= limit { FillsInPriority(q, Some(limit), want, k); }
    ConsumeShape(q, Some(limit), want);
    if m.left > 0.0 {
      forall k | 0 <= k < |m.rest| ensures m.rest[k].rank > limit { assert m.rest[0].rank <= m.rest[k].rank; }
    }
  }

  /** Except for a market order, nothing is bought above or sold below the order's price, and if something of the order
      is left over, then nothing that it could have taken at its price is left in the book. */
  lemma LimitRespected(b: Book, id: OrderId, buy: bool, price: int, size: real, kind: Kind)
    requires BookOk(b) && !kind.Market?
    ensures var (b', r) := AddOrderSpec(b, id, buy, price, size, kind);
      var opposite := if buy then b'.asks else b'.bids;
      && (forall k :: 0 <= k < |r.fills| ==> if buy then r.fills[k].rank <= price else -r.fills[k].rank >= price)
      && (Rests(r.status) || r.status.PartialThenCancelled? ==>
            forall k :: 0 <= k < |opposite| ==> if buy then opposite[k].rank > price else -opposite[k].rank < price)
  {
    WithinLimit(Opposite(b, buy), Reach(buy, price), size);
    AddReports(b, id, buy, price, size, kind);
  }

  lemma MarketNeverRests(b: Book, id: OrderId, buy: bool, price: int, size: real)
    ensures !Rests(AddOrderSpec(b, id, buy, price, size, Market).1.status)
  { }

  lemma MatchingOnlyRemovesIds(b: Book, buy: bool, price: int, size: real, kind: Kind)
    ensures MatchedBook(b, buy, price, size, kind).index <= b.index
  { }

  // ---- the object ----

  /** Both sides of the book and its index of resting ids. */
  class LimitOrderBook {
    var bids: Side
    var asks: Side
    var index: set<OrderId>

    ghost predicate Valid() reads this { SideOk(bids) && SideOk(asks) }

    ghost function View(): Book reads this { Book(Queue(bids), Queue(asks), index) }

    constructor ()
      ensures Valid() && View() == Book([], [], {})
    {
      bids, asks, index := map[], map[], {};
    }

    // The matching loop on the opposite side, with the exhausted orders dropped from the index.
    method Match(buy: bool, price: int, size: real, kind: Kind) returns (fills: seq<Fill>, left: real)
      requires Valid()
      modifies this
      ensures Valid()
      ensures View() == MatchedBook(old(View()), buy, price, size, kind)
      ensures
        var m := Consume(Opposite(old(View()), buy), if kind.Market? then None else Some(Reach(buy, price)), size);
        fills == m.fills && left == m.left
    {
      var limit := if kind.Market? then None else Some(Reach(buy, price));
      var after, gone;
      if buy {
        after, fills, left, gone := MatchSide(asks, limit, size);
        asks := after;
      } else {
        after, fills, left, gone := MatchSide(bids, limit, size);
        bids := after;
      }
      index := index - (set x | x in gone);
    }

    method Execute(id: OrderId, buy: bool, price: int, size: real, kind: Kind) returns (report: Report)
      requires Valid()
      modifies this
      ensures Valid()
      ensures (View(), report) == ExecuteSpec(old(View()), id, buy, price, size, kind)
    {
      var fills, left := Match(buy, price, size, kind);
      if kind.Ioc? || kind.Market? || left <= 0.0 {
        return Report(if left <= 0.0 then Filled else PartialThenCancelled, fills, left);
      }
      Rest(buy, price, Order(id, left));
      report := Report(if size - left == 0.0 then Rested else PartialThenRested, fills, left);
    }

    /** An order of any kind: turned away untouched, or matched in price-time priority and its rest kept. */
    method AddOrder(id: OrderId, buy: bool, price: int, size: real, kind: Kind) returns (report: Report)
      requires Valid()
      modifies this
      ensures Valid()
      ensures (View(), report) == AddOrderSpec(old(View()), id, buy, price, size, kind)
    {
      var side, reach := if buy then asks else bids, Reach(buy, price);
      if kind.PostOnly? {
        var touches := BestWithin(side, reach);
        if touches { return Report(RejectedPostOnly, [], size); }
      }
      if kind.Fok? {
        var fits := CanFillCompletely(side, reach, size);
        if !fits { return Report(CancelledFok, [], size); }
      }
      report := Execute(id, buy, price, size, kind);
    }

    method Rest(buy: bool, price: int, o: Order)
      requires Valid() && o.remaining > 0.0
      modifies this
      ensures Valid()
      ensures View() == WithRested(old(View()), buy, price, o)
      ensures buy ==> bids == Joined(old(bids), -price, o) && asks == old(asks)
      ensures !buy ==> asks == Joined(old(asks), price, o) && bids == old(bids)
    {
      index := index + {o.id};
      if buy {
        JoinedOk(bids, -price, o);
        JoinedIsInsert(bids, -price, o);
        bids := Joined(bids, -price, o);
      } else {
        JoinedOk(asks, price, o);
        JoinedIsInsert(asks, price, o);
        asks := Joined(asks, price, o);
      }
    }
  }

  /** Whether the best level of a side is within a limit. */
  method BestWithin(side: Side, limit: int) returns (yes: bool)
    requires SideOk(side)
    ensures yes <==> Queue(side) != [] && Queue(side)[0].rank <= limit
  {
    yes := false;
    if side != map[] {
      BestExists(side);
      var best :| best in side && forall q :: q in side ==> best <= q;
      QueueHead(side, best);
      assert Queue(side)[0] == Tagged(best, side[best].orders)[0];
      yes := best <= limit;
    }
  }
}
