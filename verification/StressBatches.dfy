/** The stress harness's batch handler: every tick of a batch goes to the order book, the book is cut back to its
    best levels, and the ticks are buffered for the candle table in blocks. */
module StressBatches {
  import opened Options
  import opened OrderBook

  const LEVELS_KEPT: nat := 250
  const FLUSH_AT: nat := 2500

  datatype TickType = BookUpdate | TradePrint | Other
  datatype Tick = Tick(seqId: nat, what: TickType, buy: bool, price: int, size: real, kind: Kind)

  // ---- pruning, on queues ----

  // The part of a queue on its first `n` levels; a level equal to `last` is counted already.
  function Cut(q: seq<Resting>, last: Option<int>, n: nat): (kept: seq<Resting>)
    ensures kept <= q
    decreases |q|
  {
    if q == [] then []
    else if last == Some(q[0].rank) then [q[0]] + Cut(q[1..], last, n)
    else if n == 0 then []
    else [q[0]] + Cut(q[1..], Some(q[0].rank), n - 1)
  }

  function Ranks(q: seq<Resting>): set<int> { set i | 0 <= i < |q| :: q[i].rank }

  function Counted(last: Option<int>): set<int> { if last.None? then {} else {last.value} }

  predicate From(q: seq<Resting>, last: Option<int>) {
    Ordered(q) && (last.Some? && q != [] ==> last.value <= q[0].rank)
  }

  lemma FromTail(q: seq<Resting>, last: Option<int>)
    requires From(q, last) && q != []
    ensures From(q[1..], last) && From(q[1..], Some(q[0].rank))
  {
    forall i, j | 0 <= i < j < |q[1..]| ensures q[1..][i].rank <= q[1..][j].rank {
      assert q[i + 1].rank <= q[j + 1].rank;
    }
    if |q| > 1 { assert q[0].rank <= q[1].rank; }
  }

  lemma {:induction false} CutLeavesWorse(q: seq<Resting>, last: Option<int>, n: nat, i: nat, j: nat)
    requires From(q, last)
    requires i < |Cut(q, last, n)| <= j < |q|
    ensures q[i].rank < q[j].rank
    decreases |q|
  {
    FromTail(q, last);
    var n' := if last == Some(q[0].rank) then n else n - 1;
    assert Cut(q, last, n) == [q[0]] + Cut(q[1..], Some(q[0].rank), n');
    if i > 0 {
      CutLeavesWorse(q[1..], Some(q[0].rank), n', i - 1, j - 1);
    } else {
      CutPassesLast(q[1..], q[0].rank, n', j - 1);
    }
  }

  // What is cut off lies beyond the level counted last.
  lemma {:induction false} CutPassesLast(q: seq<Resting>, last: int, n: nat, j: nat)
    requires From(q, Some(last)) && |Cut(q, Some(last), n)| <= j < |q|
    ensures last < q[j].rank
    decreases |q|
  {
    if q[0].rank == last {
      FromTail(q, Some(last));
      CutPassesLast(q[1..], last, n, j - 1);
    } else {
      assert q[0].rank <= q[j].rank;
    }
  }

  lemma RanksCons(e: Resting, q: seq<Resting>)
    ensures Ranks([e] + q) == {e.rank} + Ranks(q)
  {
    var r := [e] + q;
    forall x ensures x in Ranks(r) <==> x in {e.rank} + Ranks(q) {
      if x in Ranks(q) {
        var i :| 0 <= i < |q| && q[i].rank == x;
        assert r[i + 1].rank == x;
      }
      if x == e.rank { assert r[0].rank == x; }
    }
  }

  lemma SameWithout(a: set<int>, r: int)
    ensures ({r} + a) - {r} == a - {r}
  { }

  lemma OneMore(a: set<int>, c: set<int>, r: int)
    requires c !! {r} + a
    ensures |({r} + a) - c| == |a - {r}| + 1
  {
    assert ({r} + a) - c == (a - {r}) + {r};
  }

  // How many levels a queue has beyond the one counted last.
  function Beyond(q: seq<Resting>, last: Option<int>): nat { |Ranks(q) - Counted(last)| }

  lemma BeyondNone(last: Option<int>)
    ensures Beyond([], last) == 0
  {
    assert Ranks([]) == {};
    assert {} - Counted(last) == {};
  }

  lemma BeyondCons(e: Resting, tail: seq<Resting>, last: Option<int>)
    requires last != Some(e.rank) ==> Counted(last) !! {e.rank} + Ranks(tail)
    ensures Beyond([e] + tail, last) == Beyond(tail, Some(e.rank)) + if last == Some(e.rank) then 0 else 1
  {
    RanksCons(e, tail);
    if last == Some(e.rank) { SameWithout(Ranks(tail), e.rank); } else { OneMore(Ranks(tail), Counted(last), e.rank); }
  }

  // How many of `n` levels a cut uses up.
  lemma {:induction false} CutCounts(q: seq<Resting>, last: Option<int>, n: nat)
    requires From(q, last)
    ensures Beyond(Cut(q, last, n), last) <= n
    ensures |Cut(q, last, n)| == |q| || Beyond(Cut(q, last, n), last) == n
    decreases |q|
  {
    if q == [] || (last != Some(q[0].rank) && n == 0) {
      BeyondNone(last);
    } else {
      var n' := if last == Some(q[0].rank) then n else n - 1;
      var tail := Cut(q[1..], Some(q[0].rank), n');
      FromTail(q, last);
      CutCounts(q[1..], Some(q[0].rank), n');
      if last != Some(q[0].rank) { CountedBelow(q, last, tail); }
      BeyondCons(q[0], tail, last);
    }
  }

  lemma CountedBelow(q: seq<Resting>, last: Option<int>, tail: seq<Resting>)
    requires From(q, last) && q != [] && last != Some(q[0].rank) && tail <= q[1..]
    ensures Counted(last) !! {q[0].rank} + Ranks(tail)
  {
    forall i | 0 <= i < |tail| ensures q[0].rank <= tail[i].rank { assert tail[i] == q[i + 1]; }
  }

  /** Pruning keeps a prefix of the priority queue, at most `n` levels of it and exactly `n` if anything goes, and
      whatever goes is on a worse level than everything kept. */
  lemma CutKeepsTheBest(q: seq<Resting>, n: nat)
    requires Ordered(q)
    ensures var kept := Cut(q, None, n);
      && kept <= q
      && |Ranks(kept)| <= n
      && (kept != q ==> |Ranks(kept)| == n)
      && (forall i, j :: 0 <= i < |kept| <= j < |q| ==> q[i].rank < q[j].rank)
  {
    var kept := Cut(q, None, n);
    CutCounts(q, None, n);
    assert Ranks(kept) - Counted(None) == Ranks(kept);
    forall i, j | 0 <= i < |kept| <= j < |q| ensures q[i].rank < q[j].rank { CutLeavesWorse(q, None, n, i, j); }
  }

  function Dropped(q: seq<Resting>, n: nat): set<OrderId> { set x | x in Ids(q[|Cut(q, None, n)|..]) }

  function PruneSpec(b: Book, n: nat): Book {
    Book(Cut(b.bids, None, n), Cut(b.asks, None, n), b.index - Dropped(b.bids, n) - Dropped(b.asks, n))
  }

  lemma {:induction false} IdsConcat(p: seq<Resting>, q: seq<Resting>)
    ensures Ids(p + q) == Ids(p) + Ids(q)
    decreases |p|
  {
    if p == [] {
      assert p + q == q;
    } else {
      assert (p + q)[1..] == p[1..] + q;
      IdsConcat(p[1..], q);
    }
  }

  lemma CutIds(q: seq<Resting>, n: nat)
    ensures multiset(Ids(q)) == multiset(Ids(Cut(q, None, n))) + multiset(Ids(q[|Cut(q, None, n)|..]))
  {
    var kept := Cut(q, None, n);
    assert q == kept + q[|kept|..];
    IdsConcat(kept, q[|kept|..]);
  }

  lemma CutOk(q: seq<Resting>, n: nat)
    requires QueueOk(q)
    ensures QueueOk(Cut(q, None, n))
    ensures n > 0 && q != [] ==> Cut(q, None, n) != [] && Cut(q, None, n)[0] == q[0]
  {
    var kept := Cut(q, None, n);
    forall i | 0 <= i < |kept| ensures kept[i] == q[i] { }
  }

  /** Pruning leaves the best bid and ask alone, keeps the book in order, and keeps the index exact. */
  lemma PruneKeeps(b: Book, n: nat)
    requires BookOk(b) && n > 0
    ensures var b' := PruneSpec(b, n);
      && BookOk(b')
      && (b.bids != [] ==> b'.bids != [] && b'.bids[0] == b.bids[0])
      && (b.asks != [] ==> b'.asks != [] && b'.asks[0] == b.asks[0])
      && (Exact(b) ==> Exact(b'))
  {
    CutOk(b.bids, n);
    CutOk(b.asks, n);
    if Exact(b) { PruneKeepsExact(b, n); }
  }

  lemma DroppedExactly(index: set<OrderId>, q: seq<Resting>, n: nat, other: multiset<OrderId>)
    requires multiset(index) == multiset(Ids(q)) + other
    ensures multiset(index - Dropped(q, n)) == multiset(Ids(Cut(q, None, n))) + other
  {
    CutIds(q, n);
    var kept := Cut(q, None, n);
    RemovedExactly(index, Ids(q[|kept|..]), multiset(Ids(kept)) + other);
  }

  lemma PruneKeepsExact(b: Book, n: nat)
    requires Exact(b)
    ensures Exact(PruneSpec(b, n))
  {
    DroppedExactly(b.index, b.bids, n, multiset(Ids(b.asks)));
    DroppedExactly(b.index - Dropped(b.bids, n), b.asks, n, multiset(Ids(Cut(b.bids, None, n))));
  }

  // ---- pruning, on levels ----

  // The first `n` levels of a side.
  ghost function Top(s: Side, n: nat): (top: Side)
    ensures top.Keys <= s.Keys
    ensures forall r :: r in top ==> top[r] == s[r]
    decreases |s|
  {
    if n == 0 || s == map[] then map[] else Top(s - {Best(s)}, n - 1)[Best(s) := s[Best(s)]]
  }

  lemma {:induction false} CutBehind(r: int, os: seq<Order>, q: seq<Resting>, n: nat)
    ensures Cut(Tagged(r, os) + q, Some(r), n) == Tagged(r, os) + Cut(q, Some(r), n)
    decreases |os|
  {
    if os == [] {
      assert Tagged(r, os) + q == q && Tagged(r, os) + Cut(q, Some(r), n) == Cut(q, Some(r), n);
    } else {
      TaggedCons(r, os, q);
      TaggedCons(r, os, Cut(q, Some(r), n));
      CutBehind(r, os[1..], q, n);
    }
  }

  lemma CutSkips(q: seq<Resting>, r: int, n: nat)
    requires q == [] || q[0].rank != r
    ensures Cut(q, Some(r), n) == Cut(q, None, n)
  { }

  lemma CutLevel(r: int, os: seq<Order>, q: seq<Resting>, n: nat)
    requires os != [] && n > 0 && (q == [] || q[0].rank != r)
    ensures Cut(Tagged(r, os) + q, None, n) == Tagged(r, os) + Cut(q, None, n - 1)
  {
    TaggedCons(r, os, q);
    TaggedCons(r, os, Cut(q, Some(r), n - 1));
    CutBehind(r, os[1..], q, n - 1);
    CutSkips(q, r, n - 1);
  }

  lemma TopStep(s: Side, n: nat, r: int, top: Side)
    requires IsBest(s, r) && top.Keys <= s.Keys - {r}
    ensures Queue(top[r := s[r]]) == Tagged(r, s[r].orders) + Queue(top)
    ensures s - top[r := s[r]].Keys == (s - {r}) - top.Keys
  {
    QueueReplace(top, r, s[r]);
    assert top - {r} == top;
  }

  lemma CutStep(s: Side, n: nat, r: int)
    requires SideOk(s) && IsBest(s, r) && n > 0
    ensures Cut(Queue(s), None, n) == Tagged(r, s[r].orders) + Cut(Queue(s - {r}), None, n - 1)
  {
    QueueHead(s, r);
    QueueRanks(s - {r});
    CutLevel(r, s[r].orders, Queue(s - {r}), n);
  }

  // The queue of the first `n` levels, level by level.
  ghost function TopQueue(s: Side, n: nat): seq<Resting>
    decreases |s|
  {
    if n == 0 || s == map[] then [] else Tagged(Best(s), s[Best(s)].orders) + TopQueue(s - {Best(s)}, n - 1)
  }

  lemma {:induction false} QueueOfTop(s: Side, n: nat)
    ensures Queue(Top(s, n)) == TopQueue(s, n)
    decreases |s|
  {
    if s != map[] && n > 0 {
      var r := Best(s);
      QueueOfTop(s - {r}, n - 1);
      TopStep(s, n, r, Top(s - {r}, n - 1));
    }
  }

  lemma {:induction false} TopQueueIsCut(s: Side, n: nat)
    requires SideOk(s)
    ensures TopQueue(s, n) == Cut(Queue(s), None, n)
    decreases |s|
  {
    if s == map[] || n == 0 {
      CutNone(Queue(s));
    } else {
      TopQueueIsCut(s - {Best(s)}, n - 1);
      CutStep(s, n, Best(s));
    }
  }

  lemma TopIsCut(s: Side, n: nat)
    requires SideOk(s)
    ensures Queue(Top(s, n)) == Cut(Queue(s), None, n)
  {
    QueueOfTop(s, n);
    TopQueueIsCut(s, n);
  }

  lemma CutNone(q: seq<Resting>)
    ensures Cut(q, None, 0) == []
  { }

  lemma Assoc<T>(a: seq<T>, b: seq<T>, c: seq<T>)
    ensures a + b + c == a + (b + c)
  { }

  lemma {:induction false} TopIsHead(s: Side, n: nat)
    ensures Queue(s) == Queue(Top(s, n)) + Queue(s - Top(s, n).Keys)
    decreases |s|
  {
    if s == map[] || n == 0 {
      assert s - Top(s, n).Keys == s;
      assert Queue(Top(s, n)) == [];
    } else {
      var r := Best(s);
      var top := Top(s - {r}, n - 1);
      TopIsHead(s - {r}, n - 1);
      TopStep(s, n, r, top);
      QueueHead(s, r);
      Assoc(Tagged(r, s[r].orders), Queue(top), Queue(s - {r} - top.Keys));
    }
  }

  predicate Ascending(rs: seq<int>) { forall i, j :: 0 <= i < j < |rs| ==> rs[i] < rs[j] }

  function Members(rs: seq<int>): set<int> { set i | 0 <= i < |rs| :: rs[i] }

  // The ranks taken so far and the levels still to be ranked.
  ghost predicate Ranked(side: Side, ranks: seq<int>, rest: Side) {
    && Ascending(ranks) && Members(ranks) + rest.Keys == side.Keys
    && forall i, r :: 0 <= i < |ranks| && r in rest ==> ranks[i] < r
  }

  lemma RankNext(side: Side, ranks: seq<int>, rest: Side, p: int)
    requires Ranked(side, ranks, rest) && IsBest(rest, p)
    ensures Ranked(side, ranks + [p], rest - {p})
  {
    MembersAppend(ranks, p);
    assert rest.Keys == (rest - {p}).Keys + {p};
  }

  /** The levels of a side, best first. */
  method SortRanks(side: Side) returns (ranks: seq<int>)
    ensures Ascending(ranks) && Members(ranks) == side.Keys
  {
    ranks := [];
    var rest := side;
    while rest != map[]
      invariant Ranked(side, ranks, rest)
      decreases rest.Keys
    {
      BestExists(rest);
      var p :| p in rest && forall q :: q in rest ==> p <= q;
      RankNext(side, ranks, rest, p);
      ranks := ranks + [p];
      rest := rest - {p};
    }
    AllRanked(side, ranks, rest);
  }

  lemma AllRanked(side: Side, ranks: seq<int>, rest: Side)
    requires Ranked(side, ranks, rest) && rest == map[]
    ensures Ascending(ranks) && Members(ranks) == side.Keys
  {
    assert rest.Keys == {};
  }

  lemma MembersAppend(rs: seq<int>, p: int)
    ensures Members(rs + [p]) == Members(rs) + {p}
  {
    var all := rs + [p];
    forall x ensures x in Members(all) <==> x in Members(rs) + {p} {
      if x in Members(rs) {
        var i :| 0 <= i < |rs| && rs[i] == x;
        assert all[i] == x;
      }
      if x == p { assert all[|rs|] == p; }
    }
  }

  lemma MembersCons(rs: seq<int>)
    requires rs != []
    ensures Members(rs) == {rs[0]} + Members(rs[1..])
  {
    forall x ensures x in Members(rs) <==> x in {rs[0]} + Members(rs[1..]) {
      if x in Members(rs) {
        var i :| 0 <= i < |rs| && rs[i] == x;
        assert i == 0 || rs[1..][i - 1] == x;
      }
      if x in Members(rs[1..]) {
        var i :| 0 <= i < |rs[1..]| && rs[1..][i] == x;
        assert rs[i + 1] == x;
      }
    }
  }

  lemma SortedTail(s: Side, ranks: seq<int>)
    requires Ascending(ranks) && Members(ranks) == s.Keys && ranks != []
    ensures s != map[] && Best(s) == ranks[0]
    ensures Ascending(ranks[1..]) && Members(ranks[1..]) == s.Keys - {ranks[0]} == (s - {ranks[0]}).Keys
  {
    var r := ranks[0];
    MembersCons(ranks);
    assert r in s.Keys;
    forall q | q in s ensures r <= q { assert q in Members(ranks); }
    assert r !in Members(ranks[1..]);
  }

  // The ranks past the `n` best.
  function Past(ranks: seq<int>, n: nat): seq<int> { if n <= |ranks| then ranks[n..] else [] }

  lemma PastTail(ranks: seq<int>, n: nat)
    requires Ascending(ranks) && ranks != [] && n > 0
    ensures Past(ranks[1..], n - 1) == Past(ranks, n)
    ensures ranks[0] !in Members(Past(ranks, n))
  {
    forall i | 0 <= i < |Past(ranks, n)| ensures Past(ranks, n)[i] > ranks[0] {
      assert Past(ranks, n)[i] == ranks[n + i];
    }
  }

  // Is `x` among the `n` best levels?
  ghost predicate Among(s: Side, n: nat, x: int)
    decreases |s|
  {
    n > 0 && s != map[] && (x == Best(s) || Among(s - {Best(s)}, n - 1, x))
  }

  lemma {:induction false} TopHas(s: Side, n: nat, x: int)
    ensures x in Top(s, n) <==> Among(s, n, x)
    decreases |s|
  {
    if n > 0 && s != map[] { TopHas(s - {Best(s)}, n - 1, x); }
  }

  // The ranks of a side in order, as a fact about one rank at a time.
  ghost predicate Lists(s: Side, ranks: seq<int>) { Ascending(ranks) && forall x :: x in s <==> x in Members(ranks) }

  lemma ListsTail(s: Side, ranks: seq<int>)
    requires Lists(s, ranks) && ranks != []
    ensures s != map[] && Best(s) == ranks[0] && Lists(s - {ranks[0]}, ranks[1..])
  {
    assert Members(ranks) == s.Keys by { assert forall x :: x in s <==> x in s.Keys; }
    SortedTail(s, ranks);
  }

  lemma ListsNone(s: Side, ranks: seq<int>, n: nat, x: int)
    requires Lists(s, ranks) && (ranks == [] || n == 0)
    ensures !Among(s, n, x) && (x in s ==> x in Members(Past(ranks, n)))
  {
    if ranks == [] {
      forall y ensures y !in s { assert y !in Members(ranks); }
    } else {
      assert ranks[0..] == ranks;
    }
  }

  lemma {:induction false} TopRank(s: Side, ranks: seq<int>, n: nat, x: int)
    requires Lists(s, ranks)
    ensures Among(s, n, x) <==> x in s && x !in Members(Past(ranks, n))
    decreases |ranks|
  {
    if ranks == [] || n == 0 {
      ListsNone(s, ranks, n, x);
    } else {
      ListsTail(s, ranks);
      PastTail(ranks, n);
      if x != ranks[0] { TopRank(s - {ranks[0]}, ranks[1..], n - 1, x); }
    }
  }

  // Dropping the ranks past the best `n` leaves the first `n` levels.
  lemma TopOfSorted(s: Side, ranks: seq<int>, n: nat)
    requires Ascending(ranks) && Members(ranks) == s.Keys
    ensures Top(s, n) == s - Members(Past(ranks, n))
  {
    assert Lists(s, ranks) by { assert forall x :: x in s <==> x in s.Keys; }
    forall x ensures x in Top(s, n) <==> x in s - Members(Past(ranks, n)) {
      TopRank(s, ranks, n, x);
      TopHas(s, n, x);
    }
  }

  function IdsAt(l: Level): set<OrderId> { set k | 0 <= k < |l.orders| :: l.orders[k].id }

  lemma {:induction false} QueueEntries(s: Side, e: Resting)
    ensures e in Queue(s) <==> e.rank in s && e.order in s[e.rank].orders
    decreases |s|
  {
    if s != map[] {
      var r := Best(s);
      QueueEntries(s - {r}, e);
      var head := Tagged(r, s[r].orders);
      assert e in head <==> e.rank == r && e.order in s[r].orders by {
        if e.rank == r && e.order in s[r].orders {
          var k :| 0 <= k < |s[r].orders| && s[r].orders[k] == e.order;
          assert head[k] == e;
        }
      }
    }
  }

  lemma {:induction false} IdsAre(q: seq<Resting>)
    ensures |Ids(q)| == |q| && forall i :: 0 <= i < |q| ==> Ids(q)[i] == q[i].order.id
    decreases |q|
  {
    if q != [] { IdsAre(q[1..]); }
  }

  lemma QueueIds(s: Side, id: OrderId)
    ensures id in Ids(Queue(s)) <==> exists r :: r in s && id in IdsAt(s[r])
  {
    var q := Queue(s);
    IdsAre(q);
    if id in Ids(q) {
      var i :| 0 <= i < |Ids(q)| && Ids(q)[i] == id;
      QueueEntries(s, q[i]);
      assert id in IdsAt(s[q[i].rank]);
    }
    if r :| r in s && id in IdsAt(s[r]) {
      var k :| 0 <= k < |s[r].orders| && s[r].orders[k].id == id;
      var e := Resting(r, s[r].orders[k]);
      QueueEntries(s, e);
      var i :| 0 <= i < |q| && q[i] == e;
      assert Ids(q)[i] == id;
    }
  }

  lemma DroppedLevels(s: Side, n: nat, id: OrderId)
    requires SideOk(s)
    ensures id in Dropped(Queue(s), n) <==> exists r :: r in s && r !in Top(s, n) && id in IdsAt(s[r])
  {
    TopIsCut(s, n);
    TopIsHead(s, n);
    var cut := s - Top(s, n).Keys;
    QueueIds(cut, id);
    assert Queue(s)[|Queue(Top(s, n))|..] == Queue(cut);
    forall r | r in cut ensures r in s && r !in Top(s, n) && cut[r] == s[r] { }
    if r :| r in s && r !in Top(s, n) && id in IdsAt(s[r]) { assert r in cut; }
  }

  // The index after the levels `rs` of a side are popped.
  ghost predicate Popped(s: Side, rs: seq<int>, before: set<OrderId>, after: set<OrderId>) {
    forall id :: id in after <==> id in before && forall r :: r in Members(rs) && r in s ==> id !in IdsAt(s[r])
  }

  lemma PopOne(s: Side, rs: seq<int>, r: int, before: set<OrderId>, after: set<OrderId>)
    requires Popped(s, rs, before, after) && r in s
    ensures Popped(s, rs + [r], before, after - IdsAt(s[r]))
  {
    MembersAppend(rs, r);
  }

  lemma PoppedIsDropped(s: Side, ranks: seq<int>, n: nat, before: set<OrderId>, after: set<OrderId>)
    requires SideOk(s) && Ascending(ranks) && Members(ranks) == s.Keys && n <= |ranks|
    requires Popped(s, ranks[n..], before, after)
    ensures after == before - Dropped(Queue(s), n)
  {
    TopOfSorted(s, ranks, n);
    forall id ensures id in after <==> id in before - Dropped(Queue(s), n) {
      DroppedLevels(s, n, id);
    }
  }

  lemma RemoveOne(s: Side, rs: seq<int>, r: int)
    ensures s - Members(rs + [r]) == s - Members(rs) - {r}
  {
    MembersAppend(rs, r);
  }

  lemma PopNext(side: Side, ranks: seq<int>, n: nat, i: nat, before: set<OrderId>, after: set<OrderId>)
    requires n <= i < |ranks| && ranks[i] in side && Popped(side, ranks[n..i], before, after)
    ensures side - Members(ranks[n..i + 1]) == side - Members(ranks[n..i]) - {ranks[i]}
    ensures Popped(side, ranks[n..i + 1], before, after - IdsAt(side[ranks[i]]))
  {
    assert ranks[n..i + 1] == ranks[n..i] + [ranks[i]];
    PopOne(side, ranks[n..i], ranks[i], before, after);
    RemoveOne(side, ranks[n..i], ranks[i]);
  }

  /** Pops every level past the `n` best, and its orders' ids with it. */
  method PruneSide(side: Side, index: set<OrderId>, n: nat) returns (kept: Side, after: set<OrderId>)
    requires SideOk(side)
    ensures SideOk(kept)
    ensures Queue(kept) == Cut(Queue(side), None, n)
    ensures after == index - Dropped(Queue(side), n)
  {
    var ranks := SortRanks(side);
    kept, after := side, index;
    var i := n;
    if |ranks| <= n {
      NothingToPrune(side, ranks, n);
      return;
    }
    while i < |ranks|
      invariant n <= i <= |ranks|
      invariant kept == side - Members(ranks[n..i])
      invariant Popped(side, ranks[n..i], index, after)
    {
      var r := ranks[i];
      assert r in Members(ranks);
      PopNext(side, ranks, n, i, index, after);
      after := after - IdsAt(side[r]);
      kept := kept - {r};
      i := i + 1;
    }
    assert ranks[n..i] == ranks[n..];
    PoppedIsDropped(side, ranks, n, index, after);
    KeptIsCut(side, ranks, n);
  }

  lemma KeptIsCut(side: Side, ranks: seq<int>, n: nat)
    requires SideOk(side) && Ascending(ranks) && Members(ranks) == side.Keys && n <= |ranks|
    ensures SideOk(side - Members(ranks[n..]))
    ensures Queue(side - Members(ranks[n..])) == Cut(Queue(side), None, n)
  {
    TopOfSorted(side, ranks, n);
    TopIsCut(side, n);
  }

  lemma NothingToPrune(s: Side, ranks: seq<int>, n: nat)
    requires SideOk(s) && Ascending(ranks) && Members(ranks) == s.Keys && |ranks| <= n
    ensures Cut(Queue(s), None, n) == Queue(s) && Dropped(Queue(s), n) == {}
  {
    TopOfSorted(s, ranks, n);
    assert Members([]) == {};
    if n == |ranks| { assert ranks[n..] == []; }
    assert Top(s, n) == s;
    TopIsCut(s, n);
  }

  // ---- batches ----

  // One tick's effect on the book.
  function Feed(b: Book, t: Tick): Book {
    match t.what
    case BookUpdate => AddOrderSpec(b, Syn(t.seqId), t.buy, t.price, t.size, t.kind).0
    case TradePrint => AddOrderSpec(b, Mkt(t.seqId), t.buy, t.price, t.size, Market).0
    case Other => b
  }

  function FeedAll(b: Book, ticks: seq<Tick>): Book
    decreases |ticks|
  {
    if ticks == [] then b else FeedAll(Feed(b, ticks[0]), ticks[1..])
  }

  // The book, the rows waiting for the candle table, and the blocks already inserted.
  datatype Ingest = Ingest(book: Book, buffer: seq<Tick>, commits: seq<seq<Tick>>)

  function BatchSpec(s: Ingest, batch: seq<Tick>): Ingest {
    var book := PruneSpec(FeedAll(s.book, batch), LEVELS_KEPT);
    var rows := s.buffer + batch;
    if |rows| >= FLUSH_AT then Ingest(book, [], s.commits + [rows]) else Ingest(book, rows, s.commits)
  }

  const Start := Ingest(Book([], [], {}), [], [])

  function RunFrom(s: Ingest, batches: seq<seq<Tick>>): Ingest
    decreases |batches|
  {
    if batches == [] then s else RunFrom(BatchSpec(s, batches[0]), batches[1..])
  }

  function Run(batches: seq<seq<Tick>>): Ingest { RunFrom(Start, batches) }

  function Flat(batches: seq<seq<Tick>>): seq<Tick>
    decreases |batches|
  {
    if batches == [] then [] else batches[0] + Flat(batches[1..])
  }

  class StressRun {
    const book: LimitOrderBook
    var buffer: seq<Tick>
    var commits: seq<seq<Tick>>

    ghost function View(): Ingest reads this, book { Ingest(book.View(), buffer, commits) }

    constructor ()
      ensures fresh(book) && book.Valid() && View() == Start
    {
      book := new LimitOrderBook();
      buffer, commits := [], [];
    }

    method FeedBook(batch: seq<Tick>)
      requires book.Valid()
      modifies book
      ensures book.Valid() && book.View() == FeedAll(old(book.View()), batch)
    {
      var i := 0;
      while i < |batch|
        invariant 0 <= i <= |batch|
        invariant book.Valid()
        invariant FeedAll(book.View(), batch[i..]) == FeedAll(old(book.View()), batch)
      {
        var t := batch[i];
        ghost var before := book.View();
        if t.what.BookUpdate? {
          var _ := book.AddOrder(Syn(t.seqId), t.buy, t.price, t.size, t.kind);
        } else if t.what.TradePrint? {
          var _ := book.AddOrder(Mkt(t.seqId), t.buy, t.price, t.size, Market);
        }
        assert book.View() == Feed(before, t);
        assert batch[i..][1..] == batch[i + 1..];
        i := i + 1;
      }
    }

    method PruneBook()
      requires book.Valid()
      modifies book
      ensures book.Valid() && book.View() == PruneSpec(old(book.View()), LEVELS_KEPT)
    {
      book.bids, book.index := PruneSide(book.bids, book.index, LEVELS_KEPT);
      book.asks, book.index := PruneSide(book.asks, book.index, LEVELS_KEPT);
    }

    method ProcessBatch(batch: seq<Tick>)
      requires book.Valid()
      modifies this, book
      ensures book.Valid() && View() == BatchSpec(old(View()), batch)
    {
      FeedBook(batch);
      PruneBook();
      buffer := buffer + batch;
      if |buffer| >= FLUSH_AT {
        commits := commits + [buffer];
        buffer := [];
      }
    }
  }

  // ---- whole runs ----

  lemma {:induction false} FlatAppend(bs: seq<seq<Tick>>, b: seq<Tick>)
    ensures Flat(bs + [b]) == Flat(bs) + b
    decreases |bs|
  {
    if bs == [] {
      assert bs + [b] == [b];
    } else {
      assert (bs + [b])[1..] == bs[1..] + [b];
      FlatAppend(bs[1..], b);
    }
  }

  predicate BufferOk(s: Ingest) {
    |s.buffer| < FLUSH_AT && forall i :: 0 <= i < |s.commits| ==> |s.commits[i]| >= FLUSH_AT
  }

  lemma BatchKeepsRows(s: Ingest, batch: seq<Tick>)
    requires BufferOk(s)
    ensures var s' := BatchSpec(s, batch);
      BufferOk(s') && Flat(s'.commits) + s'.buffer == Flat(s.commits) + s.buffer + batch
  {
    FlatAppend(s.commits, s.buffer + batch);
    assert Flat(s.commits) + (s.buffer + batch) == Flat(s.commits) + s.buffer + batch;
  }

  lemma {:induction false} RunKeepsRows(s: Ingest, batches: seq<seq<Tick>>)
    requires BufferOk(s)
    ensures var s' := RunFrom(s, batches);
      BufferOk(s') && Flat(s'.commits) + s'.buffer == Flat(s.commits) + s.buffer + Flat(batches)
    decreases |batches|
  {
    var rows := Flat(s.commits) + s.buffer;
    if batches == [] {
      assert rows + [] == rows;
    } else {
      BatchKeepsRows(s, batches[0]);
      RunKeepsRows(BatchSpec(s, batches[0]), batches[1..]);
      Assoc(rows, batches[0], Flat(batches[1..]));
    }
  }

  lemma RowsFrom(s: Ingest, batches: seq<seq<Tick>>)
    requires s.commits == [] && s.buffer == []
    ensures var t := RunFrom(s, batches); BufferOk(t) && Flat(t.commits) + t.buffer == Flat(batches)
  {
    RunKeepsRows(s, batches);
    assert Flat(s.commits) + s.buffer + Flat(batches) == Flat(batches);
  }

  /** No tick is lost, repeated or reordered on the way to the candle table: the inserted blocks followed by the
      buffer are the ticks in arrival order, and fewer than 2500 are ever waiting. */
  lemma RowsInOrder(batches: seq<seq<Tick>>)
    ensures var s := Run(batches);
      && Flat(s.commits) + s.buffer == Flat(batches)
      && |s.buffer| < 2500
      && forall i :: 0 <= i < |s.commits| ==> |s.commits[i]| >= 2500
  {
    RowsFrom(Start, batches);
  }

  /** The ticks of a batch reach the book in the order of the batch. */
  lemma {:induction false} FedInOrder(b: Book, ticks: seq<Tick>, t: Tick)
    ensures FeedAll(b, []) == b && FeedAll(b, ticks + [t]) == Feed(FeedAll(b, ticks), t)
    decreases |ticks|
  {
    if ticks == [] {
      assert ticks + [t] == [t] && [t][1..] == [];
      assert FeedAll(b, [t]) == FeedAll(Feed(b, t), []);
    } else {
      assert (ticks + [t])[0] == ticks[0] && (ticks + [t])[1..] == ticks[1..] + [t];
      FedInOrder(Feed(b, ticks[0]), ticks[1..], t);
    }
  }

  /** Batches are handled in the order they come: the last one on the book and the buffer that the others have left. */
  lemma BatchesInOrder(batches: seq<seq<Tick>>, batch: seq<Tick>)
    ensures var s, s' := Run(batches), Run(batches + [batch]);
      && s'.book == PruneSpec(FeedAll(s.book, batch), 250)
      && (if |s.buffer| + |batch| >= 2500 then s'.buffer == [] && s'.commits == s.commits + [s.buffer + batch]
          else s'.buffer == s.buffer + batch && s'.commits == s.commits)
  {
    RunLast(Start, batches, batch);
  }

  lemma {:induction false} RunLast(s: Ingest, batches: seq<seq<Tick>>, batch: seq<Tick>)
    ensures RunFrom(s, batches + [batch]) == BatchSpec(RunFrom(s, batches), batch)
    decreases |batches|
  {
    if batches == [] {
      assert batches + [batch] == [batch] && [batch][1..] == [];
      assert RunFrom(s, [batch]) == RunFrom(BatchSpec(s, batch), []);
    } else {
      assert (batches + [batch])[0] == batches[0] && (batches + [batch])[1..] == batches[1..] + [batch];
      RunLast(BatchSpec(s, batches[0]), batches[1..], batch);
    }
  }

  lemma {:induction false} AllAvailable(q: seq<Resting>)
    ensures Available(q, None) == Volume(q)
    decreases |q|
  {
    if q != [] { AllAvailable(q[1..]); }
  }

  /** A trade print takes liquidity and leaves none: its own side stays as it is, and the other side loses the size of
      the print, or all it has. */
  lemma TradePrintTakes(b: Book, t: Tick)
    requires BookOk(b) && t.what.TradePrint? && t.size > 0.0
    ensures var b' := Feed(b, t);
      && (if t.buy then b'.bids == b.bids else b'.asks == b.asks)
      && var before, after := if t.buy then b.asks else b.bids, if t.buy then b'.asks else b'.bids;
         Volume(after) == if Volume(before) >= t.size then Volume(before) - t.size else 0.0
  {
    var opp := if t.buy then b.asks else b.bids;
    AllAvailable(opp);
    FilledIffAvailable(opp, None, t.size);
    ConsumeShape(opp, None, t.size);
    MatchAddsUp(b, t.buy, t.price, t.size, Market);
  }

  /** A limit order of the feed that meets nothing at its price rests with its whole size at that price, behind the
      orders of its side that are as good or better, under its own id. */
  lemma BookUpdateRests(b: Book, t: Tick)
    requires BookOk(b) && t.what.BookUpdate? && t.kind.Limit? && t.size > 0.0
    requires if t.buy then b.asks == [] || b.asks[0].rank > t.price else b.bids == [] || -b.bids[0].rank < t.price
    ensures var b' := Feed(b, t);
      var before, after := if t.buy then b.bids else b.asks, if t.buy then b'.bids else b'.asks;
      && JoinsQueue(before, after, Resting(if t.buy then -t.price else t.price, Order(Syn(t.seqId), t.size)))
      && (if t.buy then b'.asks == b.asks else b'.bids == b.bids)
      && b'.index == b.index + {Syn(t.seqId)}
  {
    RestsAtItsPrice(b, Syn(t.seqId), t.buy, t.price, t.size, Limit);
  }

  lemma FeedKeepsBook(b: Book, t: Tick)
    requires BookOk(b)
    ensures BookOk(Feed(b, t))
  {
    if t.what.BookUpdate? { AddKeepsBook(b, Syn(t.seqId), t.buy, t.price, t.size, t.kind); }
    if t.what.TradePrint? { AddKeepsBook(b, Mkt(t.seqId), t.buy, t.price, t.size, Market); }
  }

  lemma {:induction false} FeedAllKeepsBook(b: Book, ticks: seq<Tick>)
    requires BookOk(b)
    ensures BookOk(FeedAll(b, ticks))
    decreases |ticks|
  {
    if ticks != [] {
      FeedKeepsBook(b, ticks[0]);
      FeedAllKeepsBook(Feed(b, ticks[0]), ticks[1..]);
    }
  }

  predicate Bounded(b: Book) { BookOk(b) && |Ranks(b.bids)| <= LEVELS_KEPT && |Ranks(b.asks)| <= LEVELS_KEPT }

  lemma {:induction false} RunKeepsBook(s: Ingest, batches: seq<seq<Tick>>)
    requires Bounded(s.book)
    ensures Bounded(RunFrom(s, batches).book)
    decreases |batches|
  {
    if batches != [] {
      var fed := FeedAll(s.book, batches[0]);
      FeedAllKeepsBook(s.book, batches[0]);
      PruneKeeps(fed, LEVELS_KEPT);
      CutKeepsTheBest(fed.bids, LEVELS_KEPT);
      CutKeepsTheBest(fed.asks, LEVELS_KEPT);
      RunKeepsBook(BatchSpec(s, batches[0]), batches[1..]);
    }
  }

  /** After any batches the book is in price-time order, uncrossed, and at most 250 levels deep on either side. */
  lemma BookStaysBounded(batches: seq<seq<Tick>>)
    ensures var b := Run(batches).book; BookOk(b) && |Ranks(b.bids)| <= 250 && |Ranks(b.asks)| <= 250
  {
    assert Ranks([]) == {};
    RunKeepsBook(Start, batches);
  }

  // ---- the index over whole runs ----

  // No two book updates carry the same sequence number.
  predicate Distinct(ticks: seq<Tick>) {
    forall i, j :: 0 <= i < j < |ticks| && ticks[i].what.BookUpdate? && ticks[j].what.BookUpdate? ==>
                     ticks[i].seqId != ticks[j].seqId
  }

  // An id that may yet come to rest is not resting now.
  predicate Unused(index: set<OrderId>, ticks: seq<Tick>) {
    forall i :: 0 <= i < |ticks| && ticks[i].what.BookUpdate? ==> Syn(ticks[i].seqId) !in index
  }

  lemma FeedIndex(b: Book, t: Tick)
    ensures Feed(b, t).index <= b.index + if t.what.BookUpdate? then {Syn(t.seqId)} else {}
  { }

  lemma FeedOneExact(b: Book, t: Tick)
    requires Exact(b) && (t.what.BookUpdate? ==> Syn(t.seqId) !in b.index)
    ensures Exact(Feed(b, t))
  {
    match t.what
    case BookUpdate =>
      MatchingOnlyRemovesIds(b, t.buy, t.price, t.size, t.kind);
      ExactIffFresh(b, Syn(t.seqId), t.buy, t.price, t.size, t.kind);
    case TradePrint =>
      MarketNeverRests(b, Mkt(t.seqId), t.buy, t.price, t.size);
      ExactIffFresh(b, Mkt(t.seqId), t.buy, t.price, t.size, Market);
    case Other =>
  }

  lemma UnusedTail(index: set<OrderId>, ticks: seq<Tick>, after: set<OrderId>)
    requires Distinct(ticks) && Unused(index, ticks) && ticks != []
    requires after <= index + if ticks[0].what.BookUpdate? then {Syn(ticks[0].seqId)} else {}
    ensures Distinct(ticks[1..]) && Unused(after, ticks[1..])
  {
    var tail := ticks[1..];
    forall i, j | 0 <= i < j < |tail| && tail[i].what.BookUpdate? && tail[j].what.BookUpdate?
      ensures tail[i].seqId != tail[j].seqId
    {
      assert ticks[i + 1].seqId != ticks[j + 1].seqId;
    }
    forall i | 0 <= i < |tail| && tail[i].what.BookUpdate? ensures Syn(tail[i].seqId) !in after {
      assert ticks[i + 1] == tail[i];
    }
  }

  lemma FeedKeepsExact(b: Book, ticks: seq<Tick>)
    requires Exact(b) && Distinct(ticks) && Unused(b.index, ticks) && ticks != []
    ensures Exact(Feed(b, ticks[0]))
    ensures Distinct(ticks[1..]) && Unused(Feed(b, ticks[0]).index, ticks[1..])
  {
    FeedOneExact(b, ticks[0]);
    FeedIndex(b, ticks[0]);
    UnusedTail(b.index, ticks, Feed(b, ticks[0]).index);
  }

  lemma {:induction false} FeedAllKeepsExact(b: Book, batch: seq<Tick>, later: seq<Tick>)
    requires Exact(b) && Distinct(batch + later) && Unused(b.index, batch + later)
    ensures Exact(FeedAll(b, batch)) && Distinct(later) && Unused(FeedAll(b, batch).index, later)
    decreases |batch|
  {
    var all := batch + later;
    if batch == [] {
      assert all == later;
    } else {
      FeedKeepsExact(b, all);
      assert all[1..] == batch[1..] + later;
      FeedAllKeepsExact(Feed(b, batch[0]), batch[1..], later);
    }
  }

  lemma {:induction false} RunKeepsExact(s: Ingest, batches: seq<seq<Tick>>)
    requires Exact(s.book) && Distinct(Flat(batches)) && Unused(s.book.index, Flat(batches))
    ensures Exact(RunFrom(s, batches).book)
    decreases |batches|
  {
    if batches != [] {
      var fed := FeedAll(s.book, batches[0]);
      FeedAllKeepsExact(s.book, batches[0], Flat(batches[1..]));
      PruneKeepsExact(fed, LEVELS_KEPT);
      assert PruneSpec(fed, LEVELS_KEPT).index <= fed.index;
      RunKeepsExact(BatchSpec(s, batches[0]), batches[1..]);
    }
  }

  /** As long as book updates carry distinct sequence numbers, the id index holds exactly the orders on the levels
      that are left, through matching, resting and pruning. */
  lemma IndexStaysExact(batches: seq<seq<Tick>>)
    requires Distinct(Flat(batches))
    ensures Exact(Run(batches).book)
  {
    RunKeepsExact(Start, batches);
  }

  lemma RunOne(s: Ingest, batch: seq<Tick>)
    ensures RunFrom(s, [batch]) == BatchSpec(s, batch)
  {
    assert [batch][1..] == [];
    assert RunFrom(BatchSpec(s, batch), []) == BatchSpec(s, batch);
  }

  const TwinTick := Tick(7, BookUpdate, true, 100, 1.0, Limit)

  /** A repeated sequence number does break it. */
  lemma RepeatedNumberBreaksIndex()
    ensures !Exact(Run([[TwinTick, TwinTick]]).book)
  {
    var b0 := Start.book;
    var b1 := Feed(b0, TwinTick);
    var rested := Resting(-100, Order(Syn(7), 1.0));
    assert b1 == Book([rested], [], {Syn(7)});
    var b2 := Feed(b1, TwinTick);
    assert b2 == Book([rested, rested], [], {Syn(7)});
    assert [TwinTick, TwinTick][1..] == [TwinTick] && [TwinTick][1..] == [];
    assert FeedAll(b1, [TwinTick]) == FeedAll(b2, []);
    assert FeedAll(b0, [TwinTick, TwinTick]) == b2;
    var b := PruneSpec(b2, LEVELS_KEPT);
    assert Cut([rested, rested], None, LEVELS_KEPT) == [rested, rested];
    assert multiset(Ids(b.bids)) == multiset{Syn(7), Syn(7)};
    assert multiset(b.index)[Syn(7)] <= 1;
    RunOne(Start, [TwinTick, TwinTick]);
  }
}
