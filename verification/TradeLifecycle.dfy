/** Closing and cancelling one journal trade by any number of clients.  A client reads the row, decides, and
    writes with the revision it read; the write is a compare-and-set inside one immediate transaction. */
module TradeLifecycle {
  import opened Options
  import TradeMoney

  type ClientId = nat

  datatype Status = Open | Closed | Canceled | OtherStatus(name: string)

  // The part of a trade these routes never write.
  datatype Terms = Terms(basis: TradeMoney.Basis, long: bool, entry: real, qty: real, stop: Option<real>)

  datatype Outcome = Outcome(exit: Option<real>, money: TradeMoney.Money, commission: real)

  datatype Row = Row(terms: Terms, status: Status, revision: Option<nat>, outcome: Outcome)

  // A missing or zero revision reads as 1.
  function Revision(r: Row): nat { if r.revision.None? || r.revision.value == 0 then 1 else r.revision.value }

  datatype Request = Close(exit: real, commission: real, timeOk: bool) | Cancel

  // `Unhandled` is an exception that leaves the route, so the client sees an internal error.
  datatype Answer = Accepted | TradeNotOpen | AlreadyCanceled | BadExitTime | RevisionConflict | Unhandled

  datatype Client = HasRead(seen: Row, req: Request) | Answered(a: Answer, seen: Row, req: Request)

  // `history` lists the stored rows, the last one current; `writers[i]` stored history[i + 1].
  datatype State = State(history: seq<Row>, writers: seq<ClientId>, clients: map<ClientId, Client>)

  datatype Event = Read(c: ClientId, req: Request) | Write(c: ClientId)

  function Initial(row: Row): State { State([row], [], map[]) }

  // The answer given straight after the read, if the request goes no further.
  function Refusal(row: Row, req: Request): Option<Answer> {
    match req
    case Close(_, _, timeOk) =>
      if !row.status.Open? then Some(TradeNotOpen) else if !timeOk then Some(BadExitTime) else None
    case Cancel => if row.status.Canceled? then Some(AlreadyCanceled) else None
  }

  // How a lost revision race ends: the close route turns it into a conflict, the delete route does not catch it.
  function Lost(req: Request): Answer { if req.Cancel? then Unhandled else RevisionConflict }

  // What an accepted request stores: computed from the row that was read, merged into the row that is there.
  function Stored(current: Row, seen: Row, req: Request): Row {
    var next := current.(revision := Some(Revision(seen) + 1));
    match req
    case Close(exit, commission, _) =>
      var t := seen.terms;
      next.(status := Closed,
            outcome := Outcome(Some(exit),
                               TradeMoney.CloseOpen(t.basis, t.long, t.entry, exit, t.qty, commission, t.stop),
                               commission))
    case Cancel => next.(status := Canceled)
  }

  function Current(s: State): Row
    requires s.history != []
  {
    s.history[|s.history| - 1]
  }

  function Next(s: State, e: Event): State
    requires s.history != []
    ensures Next(s, e).history != []
  {
    var row := Current(s);
    match e
    case Read(c, req) =>
      if c in s.clients then s
      else
        var refusal := Refusal(row, req);
        s.(clients := s.clients[c := if refusal.Some? then Answered(refusal.value, row, req) else HasRead(row, req)])
    case Write(c) =>
      if c !in s.clients || !s.clients[c].HasRead? then s
      else
        var seen, req := s.clients[c].seen, s.clients[c].req;
        if Revision(row) != Revision(seen) then s.(clients := s.clients[c := Answered(Lost(req), seen, req)])
        else State(s.history + [Stored(row, seen, req)], s.writers + [c],
                   s.clients[c := Answered(Accepted, seen, req)])
  }

  function RunFrom(s: State, es: seq<Event>): (t: State)
    requires s.history != []
    ensures t.history != []
    decreases |es|
  {
    if es == [] then s else RunFrom(Next(s, es[0]), es[1..])
  }

  function Run(row: Row, es: seq<Event>): (t: State)
    ensures t.history != []
  {
    RunFrom(Initial(row), es)
  }

  // ---- invariant ----

  // How one stored row may follow another.
  predicate Follows(a: Row, b: Row) {
    && b.terms == a.terms
    && Revision(b) == Revision(a) + 1
    && (|| (a.status.Open? && b.status.Closed?
            && b.outcome.exit.Some?
            && b.outcome.money == TradeMoney.CloseOpen(a.terms.basis, a.terms.long, a.terms.entry, b.outcome.exit.value,
                                                       a.terms.qty, b.outcome.commission, a.terms.stop))
        || (!a.status.Canceled? && b.status.Canceled? && b.outcome == a.outcome))
  }

  // An accepted request has put into the row what it asked for, and nothing else: a close its exit price and
  // commission with the figures they make, on an open trade and at a valid time; a cancel no more than the status.
  predicate Recorded(before: Row, req: Request, after: Row) {
    && after.revision == (if before.revision.None? || before.revision == Some(0) then Some(2)
                          else Some(before.revision.value + 1))
    && after.terms == before.terms
    && match req
       case Close(exit, commission, timeOk) =>
         var t := before.terms;
         var gain := if t.long then exit - t.entry else t.entry - exit;
         var unit := TradeMoney.StopDistance(t.long, t.entry, t.stop);
         && before.status.Open? && timeOk && after.status.Closed?
         && after.outcome.exit == Some(exit) && after.outcome.commission == commission
         && TradeMoney.Pays(t.basis, gain, t.entry, t.qty, commission, after.outcome.money.pnl)
         && (t.entry > 0.0 && t.qty > 0.0 ==>
               TradeMoney.Risks(t.basis, gain, unit, t.entry, t.qty, commission, after.outcome.money.r))
       case Cancel =>
         !before.status.Canceled? && after.status.Canceled? && after.outcome == before.outcome
  }

  // The place of a row in the history, by its revision.
  function Index(s: State, r: Row): int
    requires s.history != []
  {
    Revision(r) - Revision(s.history[0])
  }

  ghost predicate HistoryOk(s: State) {
    && s.history != [] && |s.writers| == |s.history| - 1
    && (forall i :: 0 <= i < |s.history| ==> Revision(s.history[i]) == Revision(s.history[0]) + i)
    && (forall i, j :: 0 <= i < |s.history| && j == i + 1 < |s.history| ==> Follows(s.history[i], s.history[j]))
  }

  predicate IsAccepted(c: Client) { c.Answered? && c.a.Accepted? }

  predicate ClientOk(s: State, c: ClientId)
    requires s.history != [] && |s.writers| == |s.history| - 1 && c in s.clients
  {
    var seen := s.clients[c].seen;
    && 0 <= Index(s, seen) < |s.history| && s.history[Index(s, seen)] == seen
    && (s.clients[c].HasRead? ==> Refusal(seen, s.clients[c].req).None?)
    && (IsAccepted(s.clients[c]) ==> Index(s, seen) < |s.writers| && s.writers[Index(s, seen)] == c)
  }

  predicate WriterOk(s: State, i: nat)
    requires i < |s.writers| == |s.history| - 1
  {
    var c := s.writers[i];
    && c in s.clients && IsAccepted(s.clients[c]) && s.clients[c].seen == s.history[i]
    && Recorded(s.history[i], s.clients[c].req, s.history[i + 1])
  }

  ghost predicate Inv(s: State) {
    && HistoryOk(s)
    && (forall c :: c in s.clients ==> ClientOk(s, c))
    && (forall i :: 0 <= i < |s.writers| ==> WriterOk(s, i))
  }

  lemma StoredFollows(row: Row, req: Request)
    requires Refusal(row, req).None?
    ensures Follows(row, Stored(row, row, req))
  { }

  lemma StoredRecords(row: Row, req: Request)
    requires Refusal(row, req).None?
    ensures Recorded(row, req, Stored(row, row, req))
  {
    if req.Close? {
      var t := row.terms;
      TradeMoney.CloseInFigures(t.basis, t.long, t.entry, req.exit, t.qty, req.commission, t.stop);
    }
  }

  lemma ReadStep(s: State, c: ClientId, req: Request)
    requires Inv(s) && c !in s.clients
    ensures Inv(Next(s, Read(c, req)))
  {
    var t := Next(s, Read(c, req));
    forall d | d in t.clients ensures ClientOk(t, d) { assert d != c ==> ClientOk(s, d); }
    forall i | 0 <= i < |t.writers| ensures WriterOk(t, i) { assert WriterOk(s, i); }
  }

  lemma ConflictStep(s: State, c: ClientId)
    requires Inv(s) && c in s.clients && s.clients[c].HasRead? && Revision(Current(s)) != Revision(s.clients[c].seen)
    ensures Inv(Next(s, Write(c)))
  {
    var t := Next(s, Write(c));
    forall d | d in t.clients ensures ClientOk(t, d) { assert ClientOk(s, d); }
    forall i | 0 <= i < |t.writers| ensures WriterOk(t, i) { assert WriterOk(s, i); }
  }

  lemma AcceptStep(s: State, c: ClientId)
    requires Inv(s) && c in s.clients && s.clients[c].HasRead? && Revision(Current(s)) == Revision(s.clients[c].seen)
    ensures Inv(Next(s, Write(c)))
  {
    var t := Next(s, Write(c));
    var seen := s.clients[c].seen;
    assert ClientOk(s, c) && seen == Current(s);
    StoredFollows(seen, s.clients[c].req);
    StoredRecords(seen, s.clients[c].req);
    assert HistoryOk(t);
    forall d | d in t.clients ensures ClientOk(t, d) { assert ClientOk(s, d); }
    forall i | 0 <= i < |t.writers| ensures WriterOk(t, i) { assert i < |s.writers| ==> WriterOk(s, i); }
  }

  lemma InvStep(s: State, e: Event)
    requires Inv(s)
    ensures Inv(Next(s, e))
  {
    match e
    case Read(c, req) => if c !in s.clients { ReadStep(s, c, req); }
    case Write(c) =>
      if c in s.clients && s.clients[c].HasRead? {
        if Revision(Current(s)) == Revision(s.clients[c].seen) { AcceptStep(s, c); } else { ConflictStep(s, c); }
      }
  }

  lemma {:induction false} InvFrom(s: State, es: seq<Event>)
    requires Inv(s)
    ensures Inv(RunFrom(s, es))
    decreases |es|
  {
    if es != [] {
      InvStep(s, es[0]);
      InvFrom(Next(s, es[0]), es[1..]);
    }
  }

  // ---- theorems over all interleavings ----

  /** The stored revision rises by exactly one with each accepted write, the terms never change, and the status
      only moves from open to closed by a close, whose money is that of the stored terms, or to canceled by a
      cancel, which keeps exit price, money and commission. */
  lemma HistoryIsLawful(row: Row, es: seq<Event>)
    ensures var s := Run(row, es);
      && |s.history| == |s.writers| + 1 && s.history[0] == row
      && (forall i :: 0 <= i < |s.history| ==> Revision(s.history[i]) == Revision(row) + i)
      && (forall i :: 0 <= i < |s.history| - 1 ==> Follows(s.history[i], s.history[i + 1]))
  {
    InvFrom(Initial(row), es);
    FirstRowStays(Initial(row), es);
  }

  lemma {:induction false} FirstRowStays(s: State, es: seq<Event>)
    requires s.history != []
    ensures RunFrom(s, es).history[0] == s.history[0]
    decreases |es|
  {
    if es != [] { FirstRowStays(Next(s, es[0]), es[1..]); }
  }

  /** No update is lost: each accepted write was computed from exactly the row it replaced. */
  lemma NoLostUpdate(row: Row, es: seq<Event>, i: nat)
    requires i < |Run(row, es).writers|
    ensures var s := Run(row, es);
      && |s.history| == |s.writers| + 1
      && s.writers[i] in s.clients && s.clients[s.writers[i]].seen == s.history[i]
  {
    InvFrom(Initial(row), es);
    assert WriterOk(Run(row, es), i);
  }

  /** Every accepted write has recorded what its own request asked for: a close the exit price, the commission and the
      money they make, a cancel the status and nothing more. */
  lemma AcceptedIsRecorded(row: Row, es: seq<Event>, i: nat)
    requires i < |Run(row, es).writers|
    ensures var s := Run(row, es);
      && |s.history| == |s.writers| + 1 && s.writers[i] in s.clients
      && Recorded(s.history[i], s.clients[s.writers[i]].req, s.history[i + 1])
  {
    InvFrom(Initial(row), es);
    assert WriterOk(Run(row, es), i);
  }

  /** A request is turned away at its read exactly for the reason the routes give: a close of a trade that is not open,
      then one at an unusable time, or a cancel of a canceled trade; any other goes on to its write. */
  lemma TurnedAwayIff(s: State, c: ClientId, req: Request)
    requires s.history != [] && c !in s.clients
    ensures var row, client := s.history[|s.history| - 1], Next(s, Read(c, req)).clients[c];
      && client.seen == row && client.req == req
      && (client == Answered(TradeNotOpen, row, req) <==> req.Close? && !row.status.Open?)
      && (client == Answered(BadExitTime, row, req) <==> req.Close? && row.status.Open? && !req.timeOk)
      && (client == Answered(AlreadyCanceled, row, req) <==> req.Cancel? && row.status.Canceled?)
      && (client.HasRead? <==>
            if req.Close? then row.status.Open? && req.timeOk else !row.status.Canceled?)
  { }

  /** Of the clients that read the same revision at most one is accepted. */
  lemma OneWinnerPerRevision(row: Row, es: seq<Event>, c: ClientId, d: ClientId)
    requires var s := Run(row, es);
      && c in s.clients && d in s.clients && s.clients[c].Answered? && s.clients[d].Answered?
      && s.clients[c].a.Accepted? && s.clients[d].a.Accepted?
      && Revision(s.clients[c].seen) == Revision(s.clients[d].seen)
    ensures c == d
  {
    InvFrom(Initial(row), es);
    var s := Run(row, es);
    assert ClientOk(s, c) && ClientOk(s, d);
  }

  /** A pending write is accepted if and only if the stored row is still the one the client read. */
  lemma AcceptedIffUnchanged(row: Row, es: seq<Event>, c: ClientId)
    requires var s := Run(row, es); c in s.clients && s.clients[c].HasRead?
    ensures var s := Run(row, es);
      Next(s, Write(c)).clients[c].a.Accepted? <==> Current(s) == s.clients[c].seen
  {
    InvFrom(Initial(row), es);
    var s := Run(row, es);
    assert ClientOk(s, c);
  }

  /** A pending write ends in an unhandled error if and only if it is a cancel and the stored row is no longer the one
      the client read; a close in the same place is answered with a conflict. */
  lemma UnhandledIff(row: Row, es: seq<Event>, c: ClientId)
    requires var s := Run(row, es); c in s.clients && s.clients[c].HasRead?
    ensures var s := Run(row, es);
      var a := Next(s, Write(c)).clients[c].a;
      && (a.Unhandled? <==> s.clients[c].req.Cancel? && Current(s) != s.clients[c].seen)
      && (a.RevisionConflict? <==> s.clients[c].req.Close? && Current(s) != s.clients[c].seen)
  {
    AcceptedIffUnchanged(row, es, c);
  }

  /** It is reached from every open trade: two clients read it, one closes it, and the other's cancel then fails. */
  lemma UnhandledReached(row: Row, exit: real)
    requires row.status.Open?
    ensures var s := Run(row, [Read(0, Close(exit, 0.0, true)), Read(1, Cancel), Write(0), Write(1)]);
      1 in s.clients && s.clients[1] == Answered(Unhandled, row, Cancel)
  {
    var close := Close(exit, 0.0, true);
    var s0 := Initial(row);
    var s1 := Next(s0, Read(0, close));
    var s2 := Next(s1, Read(1, Cancel));
    var s3 := Next(s2, Write(0));
    assert [Read(0, close), Read(1, Cancel), Write(0), Write(1)]
        == [Read(0, close)] + ([Read(1, Cancel)] + ([Write(0)] + ([Write(1)] + [])));
    Ahead(s0, Read(0, close), [Read(1, Cancel)] + ([Write(0)] + ([Write(1)] + [])));
    Ahead(s1, Read(1, Cancel), [Write(0)] + ([Write(1)] + []));
    Ahead(s2, Write(0), [Write(1)] + []);
    Ahead(s3, Write(1), []);
    assert s2.clients[1] == HasRead(row, Cancel) && s3.clients[1] == HasRead(row, Cancel);
    assert Revision(Current(s3)) == Revision(row) + 1;
  }

  lemma Ahead(s: State, e: Event, es: seq<Event>)
    requires s.history != []
    ensures RunFrom(s, [e] + es) == RunFrom(Next(s, e), es)
  {
    assert ([e] + es)[1..] == es;
  }

  /** Once a trade is closed, its exit price, money and commission stay for good, whoever comes after. */
  lemma {:induction false} ClosedOutcomeIsFinal(row: Row, es: seq<Event>, i: nat, j: nat)
    requires i <= j < |Run(row, es).history| && !Run(row, es).history[i].status.Open?
    ensures var s := Run(row, es);
      && s.history[j].outcome == s.history[i].outcome
      && !s.history[j].status.Open?
    decreases j
  {
    if i < j {
      ClosedOutcomeIsFinal(row, es, i, j - 1);
      InvFrom(Initial(row), es);
      assert Follows(Run(row, es).history[j - 1], Run(row, es).history[j]);
    }
  }

  // ---- the stored row ----

  class TradeStore {
    var row: Row

    constructor (row: Row)
      ensures this.row == row
    {
      this.row := row;
    }

    /** record_and_sync_trade with an expected revision: compare, then merge and store, in one transaction. */
    method Record(seen: Row, req: Request, expected: nat) returns (ok: bool)
      modifies this
      ensures ok <==> Revision(old(row)) == expected
      ensures row == if ok then Stored(old(row), seen, req) else old(row)
    {
      ok := Revision(row) == expected;
      if ok { row := Stored(row, seen, req); }
    }

    /** A whole request, with `other` being what another client stores between its read and its write.  Refused or
        overtaken it stores nothing; accepted on the row it read it is lawfully recorded. */
    method Serve(req: Request, other: Option<Row>) returns (a: Answer)
      modifies this
      ensures var there := if other.Some? then other.value else old(row);
        && a == (if Refusal(old(row), req).Some? then Refusal(old(row), req).value
                 else if Revision(there) != Revision(old(row)) then Lost(req) else Accepted)
        && (!a.Accepted? ==> row == there)
        && (a.Accepted? && there == old(row) ==> Follows(old(row), row) && Recorded(old(row), req, row))
      ensures a.TradeNotOpen? <==> req.Close? && !old(row).status.Open?
      ensures a.BadExitTime? <==> req.Close? && old(row).status.Open? && !req.timeOk
      ensures a.AlreadyCanceled? <==> req.Cancel? && old(row).status.Canceled?
    {
      var seen := row;
      if other.Some? { row := other.value; }
      var refusal := Refusal(seen, req);
      if refusal.Some? { return refusal.value; }
      var ok := Record(seen, req, Revision(seen));
      StoredRecords(seen, req);
      a := if ok then Accepted else Lost(req);
    }
  }
}
