/** Profit and R multiple of a journal trade, written down twice by the service: once when a trade is recorded
    as already closed and once when an open one is closed.  Prices are reals; rounding to cents is half-even. */
module TradeMoney {
  import opened Options
  import opened Rounding

  datatype QtyUnit = Usd | Base | Unknown
  datatype Basis = UsdNotional | BaseUnit | Unverified
  datatype SizeMode = ByQty | ByNotional

  // Whether money may be computed at all, from the declaration and the backend's own catalog.
  function UnitBasis(unit: QtyUnit, verified: bool): Basis {
    match unit
    case Usd => UsdNotional
    case Base => BaseUnit
    case Unknown => if verified then BaseUnit else Unverified
  }

  function RoundOpt(x: Option<real>): Option<real> {
    if x.Some? then Some(Round2(x.value)) else None
  }

  // A recorded stop of 0 reads as no stop.
  predicate HasStop(stop: Option<real>) { stop.Some? && stop.value != 0.0 }

  // The worth of a price move on a position of `qty`: base units, or dollars of notional.
  function UsdWorth(move: real, entry: real, qty: real): real
    requires entry > 0.0
  {
    move / entry * qty
  }

  function BaseWorth(move: real, qty: real): real { move * qty }

  function Ratio(gain: real, risk: real): real
    requires risk > 0.0
  {
    gain / risk
  }

  datatype Money = Money(pnl: Option<real>, r: Option<real>)

  // ---- recording a closed trade ----

  function StoredQty(mode: SizeMode, unit: QtyUnit, declared: real, entry: real): real
    requires entry > 0.0
  {
    if mode.ByNotional? && !unit.Usd? then declared / entry else declared
  }

  function CreatePnl(basis: Basis, long: bool, entry: real, exit: real, qty: real): Option<real> {
    var direction := if long then 1.0 else -1.0;
    match basis
    case Unverified => None
    case UsdNotional => if entry > 0.0 then Some(UsdWorth(direction * (exit - entry), entry, qty)) else None
    case BaseUnit => Some(BaseWorth(direction * (exit - entry), qty))
  }

  function RiskUnit(long: bool, entry: real, stop: real): Option<real> {
    if long && entry > stop then Some(entry - stop)
    else if !long && stop > entry then Some(stop - entry)
    else None
  }

  function CreateR(basis: Basis, long: bool, entry: real, exit: real, qty: real, stop: Option<real>): Option<real> {
    var pnl := CreatePnl(basis, long, entry, exit, qty);
    if !HasStop(stop) || pnl.None? || entry <= 0.0 then None
    else
      var unit := RiskUnit(long, entry, stop.value);
      if unit.None? || qty <= 0.0 then None
      else
        var risk := if basis.UsdNotional? then UsdWorth(unit.value, entry, qty) else BaseWorth(unit.value, qty);
        if risk > 0.0 then Some(Ratio(pnl.value, risk)) else None
  }

  function RecordClosed(basis: Basis, long: bool, entry: real, exit: real, qty: real, stop: Option<real>): Money {
    Money(RoundOpt(CreatePnl(basis, long, entry, exit, qty)), RoundOpt(CreateR(basis, long, entry, exit, qty, stop)))
  }

  // ---- closing an open trade ----

  function ClosePnl(basis: Basis, long: bool, entry: real, exit: real, qty: real, commission: real): Option<real> {
    match basis
    case Unverified => None
    case UsdNotional =>
      var direction := if long then 1.0 else -1.0;
      if entry > 0.0 then Some(UsdWorth(direction * (exit - entry), entry, qty) - commission) else None
    case BaseUnit => Some(BaseWorth(if long then exit - entry else entry - exit, qty) - commission)
  }

  function CloseR(basis: Basis, long: bool, entry: real, exit: real, qty: real, commission: real,
                  stop: Option<real>): Option<real> {
    var pnl := ClosePnl(basis, long, entry, exit, qty, commission);
    var unit := if HasStop(stop) then RiskUnit(long, entry, stop.value) else None;
    if pnl.None? || unit.None? then None
    else if basis.UsdNotional? then
      var risk := if entry > 0.0 then UsdWorth(unit.value, entry, qty) else 0.0;
      if risk > 0.0 then Some(Ratio(pnl.value, risk)) else None
    else if qty > 0.0 then
      var risk := BaseWorth(unit.value, qty);
      Positive(unit.value, qty);
      Some(Ratio(pnl.value, risk))
    else None
  }

  function CloseOpen(basis: Basis, long: bool, entry: real, exit: real, qty: real, commission: real,
                     stop: Option<real>): Money {
    Money(RoundOpt(ClosePnl(basis, long, entry, exit, qty, commission)),
          RoundOpt(CloseR(basis, long, entry, exit, qty, commission, stop)))
  }

  // ---- real arithmetic, one fact at a time ----

  lemma Positive(a: real, b: real)
    requires a > 0.0 && b > 0.0
    ensures a * b > 0.0 && a / b > 0.0
  { }

  lemma QuotientUnique(a: real, b: real, q: real)
    requires b != 0.0 && q * b == a
    ensures a / b == q
  { }

  lemma MinusOne(x: real)
    requires x > 0.0
    ensures Ratio(-x, x) == -1.0
  {
    QuotientUnique(-x, x, -1.0);
  }

  lemma NegatedProduct(x: real, entry: real, qty: real)
    requires entry > 0.0
    ensures BaseWorth(-x, qty) == -BaseWorth(x, qty) && UsdWorth(-x, entry, qty) == -UsdWorth(x, entry, qty)
  {
    var d := x / entry;
    assert d * entry == x;
    QuotientUnique(-x, entry, -d);
  }

  lemma Rescale(x: real, amount: real, entry: real)
    requires entry > 0.0
    ensures BaseWorth(x, amount / entry) == UsdWorth(x, entry, amount)
  {
    var d, q := x / entry, amount / entry;
    assert d * entry == x && q * entry == amount;
    assert d * (q * entry) == (d * entry) * q;
  }

  // ---- the two computations agree ----

  lemma SamePnl(basis: Basis, long: bool, entry: real, exit: real, qty: real)
    requires entry > 0.0
    ensures CreatePnl(basis, long, entry, exit, qty) == ClosePnl(basis, long, entry, exit, qty, 0.0)
  {
    if !long { assert -1.0 * (exit - entry) == entry - exit; }
  }

  // The amount at risk, and the R multiple as one quotient by it.
  function Risk(basis: Basis, unit: real, entry: real, qty: real): real
    requires entry > 0.0
  {
    if basis.UsdNotional? then UsdWorth(unit, entry, qty) else BaseWorth(unit, qty)
  }

  lemma RiskPositive(basis: Basis, unit: real, entry: real, qty: real)
    requires unit > 0.0 && entry > 0.0 && qty > 0.0
    ensures Risk(basis, unit, entry, qty) > 0.0
  {
    Positive(unit, qty);
    Positive(unit, entry);
    Positive(unit / entry, qty);
  }

  lemma CreateRIs(basis: Basis, long: bool, entry: real, exit: real, qty: real, stop: Option<real>)
    requires entry > 0.0 && qty > 0.0
    ensures var unit := if HasStop(stop) then RiskUnit(long, entry, stop.value) else None;
      if basis.Unverified? || unit.None? then CreateR(basis, long, entry, exit, qty, stop).None?
      else
        && Risk(basis, unit.value, entry, qty) > 0.0
        && CreateR(basis, long, entry, exit, qty, stop)
           == Some(Ratio(CreatePnl(basis, long, entry, exit, qty).value, Risk(basis, unit.value, entry, qty)))
  {
    if HasStop(stop) && RiskUnit(long, entry, stop.value).Some? {
      RiskPositive(basis, RiskUnit(long, entry, stop.value).value, entry, qty);
    }
  }

  lemma CloseRIs(basis: Basis, long: bool, entry: real, exit: real, qty: real, commission: real, stop: Option<real>)
    requires entry > 0.0 && qty > 0.0
    ensures var unit := if HasStop(stop) then RiskUnit(long, entry, stop.value) else None;
      if basis.Unverified? || unit.None? then CloseR(basis, long, entry, exit, qty, commission, stop).None?
      else
        && Risk(basis, unit.value, entry, qty) > 0.0
        && CloseR(basis, long, entry, exit, qty, commission, stop)
           == Some(Ratio(ClosePnl(basis, long, entry, exit, qty, commission).value,
                         Risk(basis, unit.value, entry, qty)))
  {
    if HasStop(stop) && RiskUnit(long, entry, stop.value).Some? {
      RiskPositive(basis, RiskUnit(long, entry, stop.value).value, entry, qty);
    }
  }

  lemma SameR(basis: Basis, long: bool, entry: real, exit: real, qty: real, stop: Option<real>)
    requires entry > 0.0 && qty > 0.0
    ensures CreateR(basis, long, entry, exit, qty, stop) == CloseR(basis, long, entry, exit, qty, 0.0, stop)
  {
    SamePnl(basis, long, entry, exit, qty);
    CreateRIs(basis, long, entry, exit, qty, stop);
    CloseRIs(basis, long, entry, exit, qty, 0.0, stop);
  }

  /** The paths agree on every accepted trade: any unit basis, either side, any stop, any exit price. */
  lemma ClosedTwoWays(basis: Basis, long: bool, entry: real, exit: real, qty: real, stop: Option<real>)
    requires entry > 0.0 && qty > 0.0
    ensures RecordClosed(basis, long, entry, exit, qty, stop) == CloseOpen(basis, long, entry, exit, qty, 0.0, stop)
  {
    SamePnl(basis, long, entry, exit, qty);
    SameR(basis, long, entry, exit, qty, stop);
  }

  lemma NotionalPnl(long: bool, entry: real, exit: real, notional: real)
    requires entry > 0.0
    ensures CreatePnl(BaseUnit, long, entry, exit, notional / entry)
         == CreatePnl(UsdNotional, long, entry, exit, notional)
  {
    Rescale((if long then 1.0 else -1.0) * (exit - entry), notional, entry);
  }

  lemma NotionalR(long: bool, entry: real, exit: real, notional: real, stop: Option<real>)
    requires entry > 0.0 && notional > 0.0
    ensures CreateR(BaseUnit, long, entry, exit, notional / entry, stop)
         == CreateR(UsdNotional, long, entry, exit, notional, stop)
  {
    Positive(notional, entry);
    NotionalPnl(long, entry, exit, notional);
    CreateRIs(BaseUnit, long, entry, exit, notional / entry, stop);
    CreateRIs(UsdNotional, long, entry, exit, notional, stop);
    if HasStop(stop) && RiskUnit(long, entry, stop.value).Some? {
      Rescale(RiskUnit(long, entry, stop.value).value, notional, entry);
    }
  }

  /** Sizing by a dollar amount in base units gives the money of a position declared in dollars. */
  lemma NotionalIsDollars(long: bool, entry: real, exit: real, notional: real, stop: Option<real>)
    requires entry > 0.0 && notional > 0.0
    ensures RecordClosed(BaseUnit, long, entry, exit, StoredQty(ByNotional, Base, notional, entry), stop)
         == RecordClosed(UsdNotional, long, entry, exit, StoredQty(ByNotional, Usd, notional, entry), stop)
  {
    NotionalPnl(long, entry, exit, notional);
    NotionalR(long, entry, exit, notional, stop);
  }

  lemma LossIsMinusRisk(basis: Basis, long: bool, entry: real, stop: real, qty: real)
    requires entry > 0.0 && !basis.Unverified? && (if long then stop < entry else entry < stop)
    ensures var unit := RiskUnit(long, entry, stop).value;
      CreatePnl(basis, long, entry, stop, qty) == Some(-Risk(basis, unit, entry, qty))
  {
    var unit := RiskUnit(long, entry, stop).value;
    if long { assert 1.0 * (stop - entry) == -unit; } else { assert -1.0 * (stop - entry) == -unit; }
    NegatedProduct(unit, entry, qty);
  }

  /** Closing at a losing-side stop without commission is a loss of exactly one R, in both monetary bases. */
  lemma StoppedOutIsMinusOne(basis: Basis, long: bool, entry: real, qty: real, stop: real)
    requires entry > 0.0 && qty > 0.0 && stop > 0.0 && !basis.Unverified?
    requires if long then stop < entry else entry < stop
    ensures CloseR(basis, long, entry, stop, qty, 0.0, Some(stop)) == Some(-1.0)
    ensures CloseOpen(basis, long, entry, stop, qty, 0.0, Some(stop)).r == Some(-1.0)
  {
    CreateRIs(basis, long, entry, stop, qty, Some(stop));
    LossIsMinusRisk(basis, long, entry, stop, qty);
    MinusOne(Risk(basis, RiskUnit(long, entry, stop).value, entry, qty));
    SameR(basis, long, entry, stop, qty, Some(stop));
    RoundMinusOne();
  }

  lemma RoundMinusOne()
    ensures Round2(-1.0) == -1.0
  {
    assert (-100.0).Floor == -100;
  }

  // The profit of a close in plain arithmetic, `gain` being the price move in the trade's favour.
  predicate Pays(basis: Basis, gain: real, entry: real, qty: real, commission: real, pnl: Option<real>) {
    match basis
    case BaseUnit => pnl == Some(Round2(gain * qty - commission))
    case UsdNotional => if entry > 0.0 then pnl == Some(Round2(gain / entry * qty - commission)) else pnl == None
    case Unverified => pnl == None
  }

  // Its R multiple: what was earned after commission over what the stop, `unit` away on the losing side, put at risk.
  predicate Risks(basis: Basis, gain: real, unit: real, entry: real, qty: real, commission: real, r: Option<real>)
    requires entry > 0.0
  {
    if basis.Unverified? || unit <= 0.0 then r == None
    else
      var earned := if basis.UsdNotional? then gain / entry * qty - commission else gain * qty - commission;
      var risk := if basis.UsdNotional? then unit / entry * qty else unit * qty;
      risk > 0.0 && r == Some(Round2(earned / risk))
  }

  lemma MoveInFavour(long: bool, entry: real, exit: real)
    ensures (if long then 1.0 else -1.0) * (exit - entry) == if long then exit - entry else entry - exit
  {
    if long { assert 1.0 * (exit - entry) == exit - entry; } else { assert -1.0 * (exit - entry) == entry - exit; }
  }

  // The amount earned, before rounding.
  lemma EarnedIs(basis: Basis, long: bool, entry: real, exit: real, qty: real, commission: real)
    ensures var gain := if long then exit - entry else entry - exit;
      ClosePnl(basis, long, entry, exit, qty, commission) ==
      match basis
      case BaseUnit => Some(BaseWorth(gain, qty) - commission)
      case UsdNotional => if entry > 0.0 then Some(UsdWorth(gain, entry, qty) - commission) else None
      case Unverified => None
  {
    var gain := if long then exit - entry else entry - exit;
    var move := (if long then 1.0 else -1.0) * (exit - entry);
    MoveInFavour(long, entry, exit);
    assert move == gain;
    if entry > 0.0 { assert UsdWorth(move, entry, qty) == UsdWorth(gain, entry, qty); }
  }

  lemma PaysWhenEarned(basis: Basis, gain: real, entry: real, qty: real, commission: real)
    ensures Pays(basis, gain, entry, qty, commission, RoundOpt(
      match basis
      case BaseUnit => Some(BaseWorth(gain, qty) - commission)
      case UsdNotional => if entry > 0.0 then Some(UsdWorth(gain, entry, qty) - commission) else None
      case Unverified => None))
  { }

  lemma RatioOfFigures(basis: Basis, gain: real, unit: real, entry: real, qty: real, commission: real)
    requires entry > 0.0 && Risk(basis, unit, entry, qty) > 0.0 && !basis.Unverified? && unit > 0.0
    ensures var earned := if basis.UsdNotional? then UsdWorth(gain, entry, qty) else BaseWorth(gain, qty);
      Risks(basis, gain, unit, entry, qty, commission,
            Some(Round2(Ratio(earned - commission, Risk(basis, unit, entry, qty)))))
  { }

  // How far away the stop is on the losing side; a recorded stop of 0 is none.
  function StopDistance(long: bool, entry: real, stop: Option<real>): real {
    if stop == None || stop.value == 0.0 then 0.0 else if long then entry - stop.value else stop.value - entry
  }

  lemma StopIs(long: bool, entry: real, stop: Option<real>)
    ensures var d := StopDistance(long, entry, stop);
      if d > 0.0 then HasStop(stop) && RiskUnit(long, entry, stop.value) == Some(d)
      else !HasStop(stop) || RiskUnit(long, entry, stop.value) == None
  { }

  lemma RInFigures(basis: Basis, long: bool, entry: real, exit: real, qty: real, commission: real, stop: Option<real>)
    requires entry > 0.0 && qty > 0.0
    ensures Risks(basis, if long then exit - entry else entry - exit, StopDistance(long, entry, stop), entry, qty,
                  commission, RoundOpt(CloseR(basis, long, entry, exit, qty, commission, stop)))
  {
    var d := StopDistance(long, entry, stop);
    StopIs(long, entry, stop);
    EarnedIs(basis, long, entry, exit, qty, commission);
    CloseRIs(basis, long, entry, exit, qty, commission, stop);
    if d > 0.0 && !basis.Unverified? {
      RatioOfFigures(basis, if long then exit - entry else entry - exit, d, entry, qty, commission);
    }
  }

  /** The figures stored by a close, in every unit and on both sides: the price move in the trade's favour times its
      size less the commission, and that amount over the amount at risk. */
  lemma CloseInFigures(basis: Basis, long: bool, entry: real, exit: real, qty: real, commission: real,
                       stop: Option<real>)
    ensures var m := CloseOpen(basis, long, entry, exit, qty, commission, stop);
      var gain := if long then exit - entry else entry - exit;
      var unit := StopDistance(long, entry, stop);
      && Pays(basis, gain, entry, qty, commission, m.pnl)
      && (entry > 0.0 && qty > 0.0 ==> Risks(basis, gain, unit, entry, qty, commission, m.r))
  {
    EarnedIs(basis, long, entry, exit, qty, commission);
    PaysWhenEarned(basis, if long then exit - entry else entry - exit, entry, qty, commission);
    if entry > 0.0 && qty > 0.0 { RInFigures(basis, long, entry, exit, qty, commission, stop); }
  }

  /** The unit in which a trade is settled: dollars of notional or base units as its quantity was declared, base units
      too where only the backend's catalog vouches for the symbol, and otherwise none. */
  lemma DeclaredUnitPays(unit: QtyUnit, verified: bool, long: bool, entry: real, exit: real, qty: real,
                         commission: real, stop: Option<real>)
    requires entry > 0.0
    ensures
      var pnl := CloseOpen(UnitBasis(unit, verified), long, entry, exit, qty, commission, stop).pnl;
      var gain := if long then exit - entry else entry - exit;
      if unit.Usd? then pnl == Some(Round2(gain / entry * qty - commission))
      else if unit.Base? || verified then pnl == Some(Round2(gain * qty - commission))
      else pnl == None
  {
    CloseInFigures(UnitBasis(unit, verified), long, entry, exit, qty, commission, stop);
  }

  /** What is stored as the size: the quantity as declared, except for a dollar amount of a trade not declared in
      dollars, which is stored as the quantity that is worth it at the entry price. */
  lemma StoredSize(mode: SizeMode, unit: QtyUnit, declared: real, entry: real)
    requires entry > 0.0
    ensures var qty := StoredQty(mode, unit, declared, entry);
      if mode.ByNotional? && !unit.Usd? then qty * entry == declared else qty == declared
  { }

  /** Whatever the symbol, a profit figure appears exactly if the quantity's unit was declared or the backend's catalog
      vouches for it, and an R figure exactly if there is a stop on the losing side besides. */
  lemma MoneyIffUnitKnown(unit: QtyUnit, verified: bool, long: bool, entry: real, exit: real, qty: real,
                          commission: real, stop: Option<real>)
    requires entry > 0.0 && qty > 0.0
    ensures
      var m := CloseOpen(UnitBasis(unit, verified), long, entry, exit, qty, commission, stop);
      var known := !unit.Unknown? || verified;
      && (m.pnl.Some? <==> known)
      && (m.r.Some? <==> known && HasStop(stop) && (if long then stop.value < entry else entry < stop.value))
  {
    CloseRIs(UnitBasis(unit, verified), long, entry, exit, qty, commission, stop);
  }
}
