/** Price levels read off a chart screenshot: defaults for what is missing, a decimal-point correction against the
    last candle, and the repair of levels on the wrong side of the entry.  Prices are reals. */
module PriceLevels {
  import opened Options
  import opened Rounding

  datatype Prices = Prices(entry: real, sl: real, tp: real)
  datatype Note = ScaledUp | ScaledDown | StopFixed | TargetFixed | AllValid
  datatype Outcome = DivisionByZero | Checked(prices: Prices, confidence: real, notes: seq<Note>)

  function Abs(x: real): real { if x < 0.0 then -x else x }

  function Ratio(a: real, b: real): real
    requires b != 0.0
  {
    a / b
  }

  // ---- the decimal-point correction ----

  datatype Scale = Undefined | Keep | Up | Down

  // Which correction the last close calls for; undefined when a division by zero is reached.
  function ScaleFor(entry: real, last: real): Scale {
    if last == 0.0 then Undefined
    else if Ratio(Abs(entry - last), last) <= 0.5 then Keep
    else if entry == 0.0 then Undefined
    else if 8.0 < Ratio(last, entry) < 12.0 then Up
    else if 0.08 < Ratio(last, entry) < 0.12 then Down
    else Keep
  }

  function Scaled(p: Prices, s: Scale): Prices {
    match s
    case Up => Prices(p.entry * 10.0, p.sl * 10.0, p.tp * 10.0)
    case Down => Prices(p.entry / 10.0, p.sl / 10.0, p.tp / 10.0)
    case _ => p
  }

  function Chosen(p: Prices, last: Option<real>): Scale { if last.None? then Keep else ScaleFor(p.entry, last.value) }

  // ---- the directional repair ----

  predicate StopWrong(long: bool, p: Prices) { if long then p.sl >= p.entry else p.sl <= p.entry }
  predicate TargetWrong(long: bool, p: Prices) { if long then p.tp <= p.entry else p.tp >= p.entry }

  function StopRepaired(long: bool, p: Prices): Prices {
    if !StopWrong(long, p) then p else p.(sl := if long then p.entry * 0.985 else p.entry * 1.015)
  }

  function TargetRepaired(long: bool, p: Prices): Prices {
    if !TargetWrong(long, p) then p
    else p.(tp := if long then p.entry + (p.entry - p.sl) * 2.5 else p.entry - (p.sl - p.entry) * 2.5)
  }

  function Repaired(long: bool, p: Prices): Prices { TargetRepaired(long, StopRepaired(long, p)) }

  function ScaleNotes(s: Scale): seq<Note> { if s.Up? then [ScaledUp] else if s.Down? then [ScaledDown] else [] }

  function RepairNotes(long: bool, q: Prices): seq<Note> {
    (if StopWrong(long, q) then [StopFixed] else [])
    + (if TargetWrong(long, StopRepaired(long, q)) then [TargetFixed] else [])
  }

  // The correction of scale, as the service runs it.
  method Rescale(p: Prices, last: Option<real>) returns (ok: bool, q: Prices, notes: seq<Note>)
    ensures ok <==> !Chosen(p, last).Undefined?
    ensures ok ==> q == Scaled(p, Chosen(p, last)) && notes == ScaleNotes(Chosen(p, last))
  {
    ok, q, notes := true, p, [];
    if last.Some? {
      var close := last.value;
      if close == 0.0 { ok := false; return; }
      if Ratio(Abs(p.entry - close), close) > 0.5 {
        if p.entry == 0.0 { ok := false; return; }
        var ratio := Ratio(close, p.entry);
        if 8.0 < ratio < 12.0 {
          q := Prices(p.entry * 10.0, p.sl * 10.0, p.tp * 10.0);
          notes := notes + [ScaledUp];
        } else if 0.08 < ratio < 0.12 {
          q := Prices(p.entry / 10.0, p.sl / 10.0, p.tp / 10.0);
          notes := notes + [ScaledDown];
        }
      }
    }
  }

  // The repair of stop and target, as the service runs it.
  method Repair(long: bool, q: Prices) returns (sl: real, tp: real, confidence: real, notes: seq<Note>)
    ensures Prices(q.entry, sl, tp) == Repaired(long, q)
    ensures confidence == Confidence(long, q) && notes == RepairNotes(long, q)
  {
    sl, tp, confidence, notes := q.sl, q.tp, 0.95, [];
    var entry := q.entry;
    if long {
      if sl >= entry { sl := entry * 0.985; notes := notes + [StopFixed]; confidence := confidence - 0.1; }
      if tp <= entry {
        tp, notes, confidence := entry + (entry - sl) * 2.5, notes + [TargetFixed], confidence - 0.1;
      }
    } else {
      if sl <= entry { sl := entry * 1.015; notes := notes + [StopFixed]; confidence := confidence - 0.1; }
      if tp >= entry {
        tp, notes, confidence := entry - (sl - entry) * 2.5, notes + [TargetFixed], confidence - 0.1;
      }
    }
  }

  method Sanitize(long: bool, p: Prices, last: Option<real>) returns (r: Outcome)
    ensures r == Sanitized(long, p, last)
  {
    var ok, q, scaled := Rescale(p, last);
    if !ok { return DivisionByZero; }
    var sl, tp, confidence, repaired := Repair(long, q);
    var notes := scaled + repaired;
    if notes == [] { notes := [AllValid]; }
    r := Checked(Prices(q.entry, sl, tp), if confidence < 0.5 then 0.5 else confidence, notes);
  }

  function NotesFor(long: bool, p: Prices, s: Scale): seq<Note> {
    var ns := ScaleNotes(s) + RepairNotes(long, Scaled(p, s));
    if ns == [] then [AllValid] else ns
  }

  // Each repair costs a tenth of the confidence; two repairs never reach the floor of one half.
  function Confidence(long: bool, q: Prices): (c: real)
    ensures 0.75 <= c <= 0.95
  {
    0.95 - (if StopWrong(long, q) then 0.1 else 0.0) - (if TargetWrong(long, StopRepaired(long, q)) then 0.1 else 0.0)
  }

  function Sanitized(long: bool, p: Prices, last: Option<real>): Outcome {
    var s := Chosen(p, last);
    if s.Undefined? then DivisionByZero
    else
      var q := Scaled(p, s);
      Checked(Repaired(long, q), Confidence(long, q), NotesFor(long, p, s))
  }

  // ---- division facts ----

  lemma RatioTimes(a: real, b: real)
    requires b != 0.0
    ensures Ratio(a, b) * b == a
  { }

  lemma Grows(x: real, y: real, b: real)
    requires b > 0.0
    ensures x < y <==> x * b < y * b
  {
    if x < y { assert (y - x) * b > 0.0; }
    if x > y { assert (x - y) * b > 0.0; }
  }

  lemma RatioBelow(a: real, b: real, c: real)
    requires b > 0.0
    ensures Ratio(a, b) < c <==> a < c * b
    ensures c < Ratio(a, b) <==> c * b < a
  {
    RatioTimes(a, b);
    Grows(Ratio(a, b), c, b);
    Grows(c, Ratio(a, b), b);
  }

  lemma RatioSign(a: real, b: real)
    requires b < 0.0
    ensures a >= 0.0 ==> Ratio(a, b) <= 0.0
  {
    RatioTimes(a, b);
    Grows(0.0, Ratio(a, b), -b);
  }

  // ---- when a correction applies ----

  /** For a positive quote the correction looks only at the two bands, a factor of ten up or down within a fifth of
      the last close: the outer test for a large deviation never changes the outcome. */
  lemma ScaleIff(entry: real, last: real)
    requires entry > 0.0 && last > 0.0
    ensures ScaleFor(entry, last) ==
      if 8.0 * entry < last < 12.0 * entry then Up
      else if 0.08 * entry < last < 0.12 * entry then Down
      else Keep
  {
    RatioBelow(Abs(entry - last), last, 0.5);
    RatioBelow(last, entry, 8.0);
    RatioBelow(last, entry, 12.0);
    RatioBelow(last, entry, 0.08);
    RatioBelow(last, entry, 0.12);
  }

  // Quotes of mixed or negative sign are never scaled.
  lemma ScaleNeedsPositive(entry: real, last: real)
    requires entry <= 0.0 || last <= 0.0
    ensures ScaleFor(entry, last) in {Keep, Undefined}
  {
    if last < 0.0 {
      RatioSign(Abs(entry - last), last);
    } else if last > 0.0 && entry < 0.0 {
      RatioSign(last, entry);
    }
  }

  /** The check fails, by division by zero, exactly on a last close of zero, or an entry of zero under a positive
      last close. */
  lemma FailsIff(long: bool, p: Prices, last: Option<real>)
    ensures Sanitized(long, p, last).DivisionByZero? <==>
      last.Some? && (last.value == 0.0 || (p.entry == 0.0 && last.value > 0.0))
  {
    if last.Some? && p.entry == 0.0 && last.value != 0.0 {
      if last.value > 0.0 { RatioBelow(Abs(0.0 - last.value), last.value, 0.5); RatioTimes(last.value, last.value); }
      else { RatioSign(Abs(0.0 - last.value), last.value); }
    }
  }

  /** A corrected entry is within a fifth to a quarter of the last close, and is not corrected again. */
  lemma CorrectedOnce(p: Prices, last: real)
    requires ScaleFor(p.entry, last) in {Up, Down}
    ensures var e := Scaled(p, ScaleFor(p.entry, last)).entry;
      e > 0.0 && 0.8 * e < last < 1.2 * e && ScaleFor(e, last) == Keep
  {
    if p.entry <= 0.0 || last <= 0.0 { ScaleNeedsPositive(p.entry, last); }
    ScaleIff(p.entry, last);
    ScaleIff(Scaled(p, ScaleFor(p.entry, last)).entry, last);
  }

  // ---- the order of the levels ----

  predicate InOrder(long: bool, p: Prices) { if long then p.sl < p.entry < p.tp else p.tp < p.entry < p.sl }

  lemma RepairOrdersIff(long: bool, p: Prices)
    ensures InOrder(long, Repaired(long, p)) <==> p.entry > 0.0 || !StopWrong(long, p)
  { }

  lemma ScaledSigns(long: bool, p: Prices, s: Scale)
    ensures Scaled(p, s).entry > 0.0 <==> p.entry > 0.0
    ensures StopWrong(long, Scaled(p, s)) <==> StopWrong(long, p)
    ensures TargetWrong(long, Scaled(p, s)) <==> TargetWrong(long, p)
  { }

  /** Stop, entry and target come out in the order of the trade's direction exactly when the entry is positive or
      the stop was on the right side to begin with: the repair moves the stop by a share of the entry, which goes
      the wrong way for a negative one and nowhere for zero. */
  lemma OrderedIff(long: bool, p: Prices, last: Option<real>)
    requires Sanitized(long, p, last).Checked?
    ensures InOrder(long, Sanitized(long, p, last).prices) <==> p.entry > 0.0 || !StopWrong(long, p)
  {
    var s := Chosen(p, last);
    RepairOrdersIff(long, Scaled(p, s));
    ScaledSigns(long, p, s);
  }

  // Whether the last close calls for a move of the decimal point, in the two bands.
  predicate TenTimes(entry: real, last: Option<real>) {
    last.Some? && entry > 0.0 && 8.0 * entry < last.value < 12.0 * entry
  }

  predicate OneTenth(entry: real, last: Option<real>) {
    last.Some? && entry > 0.0 && 0.08 * entry < last.value < 0.12 * entry
  }

  lemma ChosenIs(p: Prices, last: Option<real>)
    requires !Chosen(p, last).Undefined?
    ensures Chosen(p, last).Up? <==> TenTimes(p.entry, last)
    ensures Chosen(p, last).Down? <==> OneTenth(p.entry, last)
  {
    if last.Some? {
      if p.entry > 0.0 && last.value > 0.0 {
        ScaleIff(p.entry, last.value);
      } else {
        ScaleNeedsPositive(p.entry, last.value);
      }
    }
  }

  /** The whole check in figures.  Within the two bands all levels move by a factor of ten; a stop that was on the wrong
      side is put one and a half percent of the entry away on the right one; a target that was on the wrong side is put
      two and a half times the stop's distance away. */
  lemma CheckInFigures(long: bool, p: Prices, last: Option<real>)
    requires Sanitized(long, p, last).Checked?
    ensures var r := Sanitized(long, p, last).prices;
      var f := if TenTimes(p.entry, last) then 10.0 else if OneTenth(p.entry, last) then 0.1 else 1.0;
      var stopOff := if long then p.sl >= p.entry else p.sl <= p.entry;
      var targetOff := if long then p.tp <= p.entry else p.tp >= p.entry;
      && r.entry == f * p.entry
      && (if !stopOff then r.sl == f * p.sl
          else if long then r.entry - r.sl == 0.015 * r.entry else r.sl - r.entry == 0.015 * r.entry)
      && (if !targetOff then r.tp == f * p.tp
          else if long then r.tp - r.entry == 2.5 * (r.entry - r.sl) else r.entry - r.tp == 2.5 * (r.sl - r.entry))
  {
    ChosenIs(p, last);
    ScaledSigns(long, p, Chosen(p, last));
  }

  /** Each correction is noted, each repair costs a tenth of the confidence, and a check without either says so. */
  lemma NotesInFigures(long: bool, p: Prices, last: Option<real>)
    requires Sanitized(long, p, last).Checked?
    ensures var r := Sanitized(long, p, last);
      var stopOff := if long then p.sl >= p.entry else p.sl <= p.entry;
      var targetOff := if long then p.tp <= p.entry else p.tp >= p.entry;
      var up, down := TenTimes(p.entry, last), OneTenth(p.entry, last);
      && r.confidence == (if stopOff && targetOff then 0.75 else if stopOff || targetOff then 0.85 else 0.95)
      && (ScaledUp in r.notes <==> up) && (ScaledDown in r.notes <==> down)
      && (StopFixed in r.notes <==> stopOff) && (TargetFixed in r.notes <==> targetOff)
      && (AllValid in r.notes <==> !up && !down && !stopOff && !targetOff)
  {
    ChosenIs(p, last);
    ScaledSigns(long, p, Chosen(p, last));
  }

  lemma RepairTwice(long: bool, p: Prices)
    ensures Repaired(long, Repaired(long, p)) == Repaired(long, p)
    ensures Repaired(long, p).entry == p.entry
  { }

  /** Checking checked prices changes nothing, whatever the prices were; if they are in order it also finds nothing
      to note and full confidence. */
  lemma CheckedOnceIsEnough(long: bool, p: Prices, last: Option<real>)
    requires Sanitized(long, p, last).Checked?
    ensures var once := Sanitized(long, p, last).prices;
      var twice := Sanitized(long, once, last);
      && twice.Checked? && twice.prices == once
      && (twice.notes == [AllValid] <==> InOrder(long, once))
      && (twice.confidence == 0.95 <==> InOrder(long, once))
  {
    var s := Chosen(p, last);
    var q := Scaled(p, s);
    RepairTwice(long, q);
    if s in {Up, Down} { CorrectedOnce(p, last.value); }
    assert Chosen(Repaired(long, q), last) == Keep;
    var once := Repaired(long, q);
    assert InOrder(long, once) <==> !StopWrong(long, once) && !TargetWrong(long, once);
    if StopWrong(long, once) { assert StopFixed in NotesFor(long, once, Keep); }
  }

  // ---- risk and reward ----

  function Risk(p: Prices): real { Abs(p.entry - p.sl) }
  function Reward(p: Prices): real { Abs(p.tp - p.entry) }
  function RiskReward(p: Prices): real { if Risk(p) > 0.0 then Ratio(Reward(p), Risk(p)) else 0.0 }

  /** A repaired target pays two and a half times the risk, exactly; the ratio is zero only for an entry of zero. */
  lemma RepairedTargetPays(long: bool, p: Prices, last: Option<real>)
    requires Sanitized(long, p, last).Checked? && TargetFixed in Sanitized(long, p, last).notes
    ensures var r := Sanitized(long, p, last).prices;
      && Reward(r) == 2.5 * Risk(r)
      && (RiskReward(r) == if Risk(r) > 0.0 then 2.5 else 0.0)
  {
    var s := Chosen(p, last);
    assert TargetFixed in RepairNotes(long, Scaled(p, s));
    RepairedReward(long, Scaled(p, s));
  }

  lemma RepairedReward(long: bool, q: Prices)
    requires TargetWrong(long, StopRepaired(long, q))
    ensures var r := Repaired(long, q);
      && Reward(r) == 2.5 * Risk(r)
      && (RiskReward(r) == if Risk(r) > 0.0 then 2.5 else 0.0)
  {
    var r := Repaired(long, q);
    if long {
      assert r.tp - r.entry == (r.entry - r.sl) * 2.5;
    } else {
      assert r.entry - r.tp == (r.sl - r.entry) * 2.5;
    }
    if Risk(r) > 0.0 { RatioIs(Reward(r), Risk(r), 2.5); }
  }

  lemma RatioIs(a: real, b: real, c: real)
    requires b > 0.0 && a == c * b
    ensures Ratio(a, b) == c
  {
    RatioTimes(a, b);
    Cancel(Ratio(a, b), c, b);
  }

  lemma Cancel(x: real, y: real, b: real)
    requires b > 0.0 && x * b == y * b
    ensures x == y
  {
    Grows(x, y, b);
    Grows(y, x, b);
  }

  /** Moving the decimal point does not change the ratio of reward to risk. */
  lemma ScalingKeepsRatio(p: Prices, s: Scale)
    ensures RiskReward(Scaled(p, s)) == RiskReward(p)
  {
    var q := Scaled(p, s);
    if Risk(p) > 0.0 {
      RatioTimes(Reward(p), Risk(p));
      RatioTimes(Reward(q), Risk(q));
      if s.Up? {
        assert Risk(q) == Risk(p) * 10.0 && Reward(q) == Reward(p) * 10.0;
      } else if s.Down? {
        assert Risk(q) == Risk(p) / 10.0 && Reward(q) == Reward(p) / 10.0;
      }
      SameRatio(RiskReward(p), RiskReward(q), Risk(p), Risk(q), Reward(p), Reward(q), s);
    }
  }

  lemma SameRatio(x: real, y: real, risk: real, risk': real, reward: real, reward': real, s: Scale)
    requires risk > 0.0 && x * risk == reward && y * risk' == reward'
    requires risk' == (if s.Up? then risk * 10.0 else if s.Down? then risk / 10.0 else risk)
    requires reward' == (if s.Up? then reward * 10.0 else if s.Down? then reward / 10.0 else reward)
    ensures x == y
  {
    Cancel(x, y, risk);
  }

  // ---- what is read off the screenshot ----

  // Levels named in the text, with defaults: a symbol's usual price, a stop 1.5 % away, a target at 2.5 times the
  // risk.
  function Extracted(long: bool, entry: Option<real>, sl: Option<real>, tp: Option<real>, usual: real): Prices {
    var e := if entry.Some? then entry.value else usual;
    var s := if sl.Some? then sl.value else e * (if long then 0.985 else 1.015);
    var risk := Abs(e - s);
    Prices(e, s, if tp.Some? then tp.value else e + if long then risk * 2.5 else -risk * 2.5)
  }

  /** A level named in the text is taken as it is; a missing entry is the usual price, a missing stop one and a half
      percent of the entry away on the losing side, a missing target two and a half times the stop's distance away on
      the winning side. */
  lemma ExtractedInFigures(long: bool, entry: Option<real>, sl: Option<real>, tp: Option<real>, usual: real)
    ensures var p := Extracted(long, entry, sl, tp, usual);
      var risk := if p.entry >= p.sl then p.entry - p.sl else p.sl - p.entry;
      && (if entry.Some? then p.entry == entry.value else p.entry == usual)
      && (if sl.Some? then p.sl == sl.value
          else if long then p.entry - p.sl == 0.015 * p.entry else p.sl - p.entry == 0.015 * p.entry)
      && (if tp.Some? then p.tp == tp.value
          else if long then p.tp - p.entry == 2.5 * risk else p.entry - p.tp == 2.5 * risk)
  { }

  lemma DefaultsPay(long: bool, e: real)
    requires e > 0.0
    ensures var p := Extracted(long, Some(e), None, None, e); InOrder(long, p) && RiskReward(p) == 2.5
  {
    var p := Extracted(long, Some(e), None, None, e);
    RatioIs(Reward(p), Risk(p), 2.5);
  }

  lemma OrderedPass(long: bool, p: Prices, last: Option<real>)
    requires InOrder(long, p) && Sanitized(long, p, last).Checked?
    ensures var r := Sanitized(long, p, last);
      StopFixed !in r.notes && TargetFixed !in r.notes && RiskReward(r.prices) == RiskReward(p)
  {
    var s := Chosen(p, last);
    ScaledSigns(long, p, s);
    ScalingKeepsRatio(p, s);
    assert RepairNotes(long, Scaled(p, s)) == [];
  }

  /** A trade read with a positive entry is always ticketed with its levels in order, whatever stop and target were
      read; and where neither was named, the defaults pass unrepaired and pay two and a half times the risk, also
      after a correction of scale. */
  lemma TicketIsOrdered(long: bool, entry: Option<real>, sl: Option<real>, tp: Option<real>,
                        usual: real, last: Option<real>)
    requires usual > 0.0 && (entry.Some? ==> entry.value > 0.0) && (last.Some? ==> last.value > 0.0)
    ensures var r := Sanitized(long, Extracted(long, entry, sl, tp, usual), last);
      && r.Checked? && InOrder(long, r.prices)
      && (sl.None? && tp.None? ==> StopFixed !in r.notes && TargetFixed !in r.notes && RiskReward(r.prices) == 2.5)
  {
    var p := Extracted(long, entry, sl, tp, usual);
    FailsIff(long, p, last);
    OrderedIff(long, p, last);
    if sl.None? && tp.None? {
      DefaultsPay(long, p.entry);
      OrderedPass(long, p, last);
    }
  }

  // The ticket shows the levels in cents.
  function Shown(p: Prices): Prices { Prices(Round2(p.entry), Round2(p.sl), Round2(p.tp)) }

  // A price on the lower or the upper side of the boundary half a cent above `m` cents; a price on the boundary
  // belongs to the even side.
  predicate Lower(x: real, m: int) { x * 100.0 < m as real + 0.5 || (x * 100.0 == m as real + 0.5 && m % 2 == 0) }
  predicate Upper(x: real, m: int) { x * 100.0 > m as real + 0.5 || (x * 100.0 == m as real + 0.5 && m % 2 != 0) }

  // Some rounding boundary lies between two prices.
  ghost predicate Parted(x: real, y: real) { exists m :: Lower(x, m) && Upper(y, m) }

  lemma SideOfBoundary(x: real, m: int)
    ensures Lower(x, m) <==> Half(x * 100.0) <= m
    ensures Upper(x, m) <==> !Lower(x, m)
  { }

  lemma PartedIff(x: real, y: real)
    ensures Round2(x) < Round2(y) <==> Parted(x, y)
  {
    var m := Half(x * 100.0);
    SideOfBoundary(x, m);
    SideOfBoundary(y, m);
    if Parted(x, y) {
      var k :| Lower(x, k) && Upper(y, k);
      SideOfBoundary(x, k);
      SideOfBoundary(y, k);
    }
  }

  /** Rounding to cents never reverses the order of the levels, and keeps it strict exactly when a rounding boundary
      lies between each two neighbours. */
  lemma ShownInOrderIff(long: bool, p: Prices)
    requires InOrder(long, p)
    ensures var low, high := if long then p.sl else p.tp, if long then p.tp else p.sl;
      && Round2(low) <= Round2(p.entry) <= Round2(high)
      && (InOrder(long, Shown(p)) <==> Parted(low, p.entry) && Parted(p.entry, high))
  {
    var low, high := if long then p.sl else p.tp, if long then p.tp else p.sl;
    RoundRises(low, p.entry);
    RoundRises(p.entry, high);
    PartedIff(low, p.entry);
    PartedIff(p.entry, high);
  }

  /** Ordered positive levels are all shown as zero exactly when the largest is at most half a cent. */
  lemma ShownAsZeroIff(long: bool, p: Prices)
    requires InOrder(long, p) && p.sl > 0.0 && p.tp > 0.0
    ensures Shown(p) == Prices(0.0, 0.0, 0.0) <==> (if long then p.tp else p.sl) <= 0.005
  {
    var low, high := if long then p.sl else p.tp, if long then p.tp else p.sl;
    SideOfBoundary(high, 0);
    HalfRises(0.0, low * 100.0);
    RoundRises(low, p.entry);
    RoundRises(p.entry, high);
  }

  /** A trade it happens to. */
  lemma SubCentCollapses()
    ensures var p := Extracted(true, Some(0.001), None, None, 145.0);
      InOrder(true, p) && Shown(p) == Prices(0.0, 0.0, 0.0)
  {
    ShownAsZeroIff(true, Extracted(true, Some(0.001), None, None, 145.0));
  }

  /** The division by zero is reached: an entry of zero under a positive last close, and a last close of zero. */
  lemma DivisionByZeroReached(long: bool)
    ensures Sanitized(long, Prices(0.0, 1.0, 2.0), Some(100.0)).DivisionByZero?
    ensures Sanitized(long, Prices(1.0, 1.0, 2.0), Some(0.0)).DivisionByZero?
  {
    FailsIff(long, Prices(0.0, 1.0, 2.0), Some(100.0));
    FailsIff(long, Prices(1.0, 1.0, 2.0), Some(0.0));
  }
}
