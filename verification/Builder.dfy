/** Order arithmetic: tick rounding, bracket geometry, floor sizing, the 60/40 lot split, and the
    daily limit they enforce together.  `Decimal` is modelled by exact reals. */
module Builder {
  import opened Options
  import opened Reals

  datatype Reason =
    | NonNumeric | UndefinedInput | BadTickSize | BadDivisor | SymbolNotAllowed
    | BadEntryPrice | BadAtr | RiskBelowTick | BadLotSize | NoBudget | QuantityBelowOne

  datatype Result<+T> = Ok(value: T) | Refused(reason: Reason) {
    predicate IsFailure() { Refused? }
    function PropagateFailure<U>(): Result<U> requires Refused? { Refused(reason) }
    function Extract(): T requires Ok? { value }
  }

  /** A number as it arrives: unparseable, NaN or infinite, or finite. */
  datatype Numeric = Unparseable | Undefined | Finite(value: real)

  function ToDecimal(n: Numeric): Result<real> {
    match n
    case Unparseable => Refused(NonNumeric)
    case Undefined => Refused(UndefinedInput)
    case Finite(v) => Ok(v)
  }

  datatype Side = Buy | Sell {
    function Sign(): real { if Buy? then 1.0 else -1.0 }
  }

  // ---------- rounding ----------

  /** ROUND_HALF_UP: ties go away from zero. */
  function RoundHalfUp(x: real): int {
    if x >= 0.0 then (x + 0.5).Floor else -(-x + 0.5).Floor
  }

  function Times(n: int, tick: real): real { Mul(n as real, tick) }

  /** The number of whole ticks nearest to a value. */
  function Ticks(value: real, tick: real): int
    requires tick > 0.0
  {
    RoundHalfUp(value / tick)
  }

  function RoundToTick(value: real, tick: real): Result<real> {
    if tick <= 0.0 then Refused(BadTickSize) else Ok(Times(Ticks(value, tick), tick))
  }

  /** The result is the nearest multiple of the tick, and a tie goes away from zero. */
  lemma RoundsToNearestTick(value: real, tick: real)
    requires tick > 0.0
    ensures var r := Times(Ticks(value, tick), tick);
      && value - 0.5 * tick <= r <= value + 0.5 * tick
      && (value >= 0.0 ==> value - 0.5 * tick < r)
      && (value < 0.0 ==> r < value + 0.5 * tick)
  {
    hide Mul;
    var q, n := value / tick, Ticks(value, tick) as real;
    MulDiv(value, tick);
    MulSign(q, tick);
    MulOrder(q - 0.5, n, tick);
    MulOrder(n, q + 0.5, tick);
    MulAdds(q, 0.5, tick);
    MulAdds(0.5, 0.0, tick);
    HalfOf(tick);
  }

  lemma HalfOf(t: real)
    ensures Mul(0.5, t) == 0.5 * t
  {
  }

  /** floor(numerator / denominator). */
  function FloorDiv(numerator: real, denominator: real): Result<int> {
    if denominator <= 0.0 then Refused(BadDivisor) else Ok((numerator / denominator).Floor)
  }

  function ClampMultiplier(m: Numeric): real {
    if !m.Finite? || m.value <= 0.0 then 0.0 else if m.value > 1.0 then 1.0 else m.value
  }

  // ---------- geometry ----------

  /** R is 1.5 ATR; the targets are 1.5 R and 2.5 R; leg A carries 60 % of the lots. */
  function StopDistance(atr: real): real { 1.5 * atr }
  function T1Distance(risk: real): real { 1.5 * risk }
  function T2Distance(risk: real): real { 2.5 * risk }

  datatype Trail = Trail(stepR: real, activationR: real)

  datatype Geometry = Geometry(
    side: Side, tick: real, entry: real, stop: real, target1: real, target2: real,
    risk: real, t1Offset: real, t2Offset: real, trailStep: real, trailActivation: real)

  function Geometrise(side: Side, entryPrice: Numeric, atr: Numeric, tick: real, trail: Trail): Result<Geometry> {
    var entry0 :- ToDecimal(entryPrice);
    var a :- ToDecimal(atr);
    if entry0 <= 0.0 then Refused(BadEntryPrice)
    else if a <= 0.0 then Refused(BadAtr)
    else
      var entry :- RoundToTick(entry0, tick);
      var risk :- RoundToTick(StopDistance(a), tick);
      if risk < tick then Refused(RiskBelowTick)
      else
        var t1 :- RoundToTick(T1Distance(risk), tick);
        var t2 :- RoundToTick(T2Distance(risk), tick);
        var step0 :- RoundToTick(Mul(trail.stepR, risk), tick);
        var step := if step0 < tick then tick else step0;
        var activation :- RoundToTick(Mul(trail.activationR, risk), tick);
        var sign := side.Sign();
        Ok(Geometry(side, tick, entry, entry - sign * risk, entry + sign * t1, entry + sign * t2,
                    risk, t1, t2, step, activation))
  }

  ghost predicate OnTick(price: real, tick: real) {
    exists n: int :: price == Times(n, tick)
  }

  lemma TicksAddUp(m: int, n: int, tick: real)
    ensures Times(m, tick) + Times(n, tick) == Times(m + n, tick)
    ensures Times(m, tick) - Times(n, tick) == Times(m - n, tick)
  {
    hide Mul;
    MulAdds(m as real, n as real, tick);
  }

  /** 1.5n and 2.5n ticks, rounded half up, differ by exactly n. */
  lemma TargetsInTicks(n: int, tick: real)
    requires tick > 0.0 && n >= 1
    ensures Ticks(T1Distance(Times(n, tick)), tick) == n + (n + 1) / 2
    ensures Ticks(T2Distance(Times(n, tick)), tick) == 2 * n + (n + 1) / 2
  {
    hide Ticks, Times, RoundHalfUp, Mul, T1Distance, T2Distance;
    Distances(n, tick);
    TicksOfMultiple(Mul(1.5, n as real), tick);
    TicksOfMultiple(Mul(2.5, n as real), tick);
    HalvesRoundUp(n as real, n, (n + 1) / 2);
  }

  lemma Distances(n: int, tick: real)
    ensures T1Distance(Times(n, tick)) == Mul(Mul(1.5, n as real), tick)
    ensures T2Distance(Times(n, tick)) == Mul(Mul(2.5, n as real), tick)
  {
    hide Mul;
    MulAssoc(1.5, n as real, tick);
    MulAssoc(2.5, n as real, tick);
    Scaled(Mul(n as real, tick));
  }

  lemma Scaled(x: real)
    ensures Mul(1.5, x) == 1.5 * x && Mul(2.5, x) == 2.5 * x
  {
  }

  lemma TicksOfMultiple(x: real, tick: real)
    requires tick > 0.0
    ensures Ticks(Mul(x, tick), tick) == RoundHalfUp(x)
  {
    hide RoundHalfUp, Mul;
    MulDiv(x, tick);
  }

  lemma HalvesRoundUp(x: real, n: int, h: int)
    requires x == n as real && n >= 1 && 2 * h <= n + 1 < 2 * h + 2
    ensures RoundHalfUp(Mul(1.5, x)) == n + h && RoundHalfUp(Mul(2.5, x)) == 2 * n + h
  {
    hide Mul;
    Scaled(x);
    assert h as real * 2.0 <= x + 1.0 < (h as real + 1.0) * 2.0;
    FloorAt(1.5 * x + 0.5, n + h);
    FloorAt(2.5 * x + 0.5, 2 * n + h);
  }

  /** An accepted geometry, counted in ticks: the risk is `n`, the targets are 1.5 n and 2.5 n rounded
      half up, and every absolute price is the entry plus or minus one of them. */
  lemma GeometryInTicks(side: Side, entryPrice: Numeric, atr: Numeric, tick: real, trail: Trail)
    returns (e: int, n: int, h: int, step: int, activation: int)
    requires Geometrise(side, entryPrice, atr, tick, trail).Ok?
    ensures tick > 0.0 && entryPrice.Finite? && atr.Finite? && n >= 1 && step >= 1 && h == (n + 1) / 2
    ensures e == Ticks(entryPrice.value, tick) && n == Ticks(StopDistance(atr.value), tick)
    ensures var g, sign := Geometrise(side, entryPrice, atr, tick, trail).value, if side.Buy? then 1 else -1;
      && g.tick == tick && g.side == side && g.entry == Times(e, tick) && g.stop == Times(e - sign * n, tick)
      && g.target1 == Times(e + sign * (n + h), tick) && g.target2 == Times(e + sign * (2 * n + h), tick)
      && g.risk == Times(n, tick) && g.t1Offset == Times(n + h, tick) && g.t2Offset == Times(2 * n + h, tick)
      && g.trailStep == Times(step, tick) && g.trailActivation == Times(activation, tick)
  {
    hide Times, Ticks, Mul;
    var g := Geometrise(side, entryPrice, atr, tick, trail).value;
    e, n := Ticks(entryPrice.value, tick), Ticks(StopDistance(atr.value), tick);
    h := (n + 1) / 2;
    RiskInTicks(n, tick);
    TargetsInTicks(n, tick);
    var step0 := Ticks(Mul(trail.stepR, g.risk), tick);
    step := if Times(step0, tick) < tick then 1 else step0;
    OneTick(tick);
    RiskInTicks(step, tick);
    activation := Ticks(Mul(trail.activationR, g.risk), tick);
    TicksAddUp(e, n, tick);
    TicksAddUp(e, n + h, tick);
    TicksAddUp(e, 2 * n + h, tick);
  }

  lemma OneTick(tick: real)
    ensures Times(1, tick) == tick
  {
  }

  lemma RiskInTicks(n: int, tick: real)
    requires tick > 0.0 && Times(n, tick) >= tick
    ensures n >= 1
  {
    if n < 1 {
      MulOrder(n as real, 0.0, tick);
      MulUnits(tick);
    }
  }

  /** The targets are at least 1.5 R and 2.5 R, by at most half a tick, and exactly one R apart; the
      risk and the entry are within half a tick of what was asked for. */
  lemma GeometryHolds(side: Side, entryPrice: Numeric, atr: Numeric, tick: real, trail: Trail)
    requires Geometrise(side, entryPrice, atr, tick, trail).Ok?
    ensures var g := Geometrise(side, entryPrice, atr, tick, trail).value;
      && tick > 0.0 && g.risk >= tick && g.trailStep >= tick
      && 1.5 * g.risk <= g.t1Offset <= 1.5 * g.risk + 0.5 * tick
      && 2.5 * g.risk <= g.t2Offset <= 2.5 * g.risk + 0.5 * tick
      && g.t2Offset - g.t1Offset == g.risk
      && -(0.5 * tick) <= g.risk - 1.5 * atr.value <= 0.5 * tick
      && -(0.5 * tick) <= g.entry - entryPrice.value <= 0.5 * tick
  {
    hide Geometrise;
    var e, n, h, step, activation := GeometryInTicks(side, entryPrice, atr, tick, trail);
    RoundsToNearestTick(StopDistance(atr.value), tick);
    RoundsToNearestTick(entryPrice.value, tick);
    hide *;
    MulOrder(n as real, (2 * h) as real, tick);
    MulOrder((2 * h) as real, (n + 1) as real, tick);
    TicksAddUp(n, h, tick);
    TicksAddUp(n, n + h, tick);
    TicksAddUp(h, h, tick);
    TicksAddUp(n, 1, tick);
    MulUnits(tick);
    MulOrder(1.0, n as real, tick);
    MulOrder(1.0, step as real, tick);
  }

  /** The trailing step is within half a tick of `stepR` times the risk, or one tick where that is less
      than half a tick; the activation is within half a tick of `activationR` times the risk. */
  lemma TrailHolds(side: Side, entryPrice: Numeric, atr: Numeric, tick: real, trail: Trail)
    requires Geometrise(side, entryPrice, atr, tick, trail).Ok?
    ensures tick > 0.0
    ensures var g := Geometrise(side, entryPrice, atr, tick, trail).value;
      var step, activation := Mul(trail.stepR, g.risk), Mul(trail.activationR, g.risk);
      && (step >= 0.5 * tick ==> step - 0.5 * tick <= g.trailStep <= step + 0.5 * tick && g.trailStep >= tick)
      && (step < 0.5 * tick ==> g.trailStep == tick)
      && activation - 0.5 * tick <= g.trailActivation <= activation + 0.5 * tick
  {
    hide Mul, Ticks, Times;
    var g := Geometrise(side, entryPrice, atr, tick, trail).value;
    var step, activation := Mul(trail.stepR, g.risk), Mul(trail.activationR, g.risk);
    RoundsToNearestTick(step, tick);
    RoundsToNearestTick(activation, tick);
    AtLeastOneTick(Ticks(step, tick), tick);
  }

  /** A positive whole number of ticks is at least one tick, and less than a tick is none. */
  lemma AtLeastOneTick(n: int, tick: real)
    requires tick > 0.0
    ensures Times(n, tick) > 0.0 ==> Times(n, tick) >= tick
    ensures Times(n, tick) < tick ==> Times(n, tick) <= 0.0
  {
    hide Mul;
    MulUnits(tick);
    MulOrder(n as real, 0.0, tick);
    MulOrder(1.0, n as real, tick);
  }

  /** Every price and offset lands on a tick. */
  lemma GeometryOnTick(side: Side, entryPrice: Numeric, atr: Numeric, tick: real, trail: Trail)
    requires Geometrise(side, entryPrice, atr, tick, trail).Ok?
    ensures var g := Geometrise(side, entryPrice, atr, tick, trail).value;
      && OnTick(g.entry, tick) && OnTick(g.stop, tick) && OnTick(g.target1, tick) && OnTick(g.target2, tick)
      && OnTick(g.risk, tick) && OnTick(g.t1Offset, tick) && OnTick(g.t2Offset, tick)
      && OnTick(g.trailStep, tick) && OnTick(g.trailActivation, tick)
  {
    hide Geometrise;
    var e, n, h, step, activation := GeometryInTicks(side, entryPrice, atr, tick, trail);
  }

  /** The short bracket is the long one mirrored about the entry, and is accepted exactly when it is. */
  lemma ShortMirrorsLong(entryPrice: Numeric, atr: Numeric, tick: real, trail: Trail)
    ensures var long, short := Geometrise(Buy, entryPrice, atr, tick, trail), Geometrise(Sell, entryPrice, atr, tick, trail);
      && long.Ok? == short.Ok?
      && (long.Ok? ==>
            && long.value.entry == short.value.entry
            && long.value.stop + short.value.stop == 2.0 * long.value.entry
            && long.value.target1 + short.value.target1 == 2.0 * long.value.entry
            && long.value.target2 + short.value.target2 == 2.0 * long.value.entry
            && long.value.(side := Sell, stop := short.value.stop, target1 := short.value.target1,
                           target2 := short.value.target2) == short.value)
  {
  }

  // ---------- sizing ----------

  datatype Sizing = Sizing(quantity: int, lots: int, lotSize: int, budget: real, risk: real, riskInr: real)

  function Budget(perTrade: real, headroom: real, multiplier: Numeric): real {
    var available := if headroom < perTrade then headroom else perTrade;
    if available <= 0.0 then 0.0 else Mul(available, ClampMultiplier(multiplier))
  }

  function Size(risk: real, budget: real, lotSize: int): Result<Sizing> {
    if lotSize < 1 then Refused(BadLotSize)
    else if budget <= 0.0 then Refused(NoBudget)
    else
      var shares :- FloorDiv(budget, risk);
      var lots := shares / lotSize;
      var quantity := lots * lotSize;
      if quantity < 1 then Refused(QuantityBelowOne)
      else Ok(Sizing(quantity, lots, lotSize, budget, risk, Mul(quantity as real, risk)))
  }

  lemma BudgetIsBounded(perTrade: real, headroom: real, multiplier: Numeric)
    ensures var b := Budget(perTrade, headroom, multiplier);
      && b >= 0.0
      && (b > 0.0 ==> b <= perTrade && b <= headroom)
  {
    hide Mul;
    var available := if headroom < perTrade then headroom else perTrade;
    var m := ClampMultiplier(multiplier);
    MulUnits(available);
    if available > 0.0 {
      MulOrder(0.0, m, available);
      MulOrder(m, 1.0, available);
    }
  }

  /** A multiplier in (0, 1] scales the lesser of the per-trade risk and the headroom, one above 1 grants
      it whole, and any other, or no finite one at all, grants nothing. */
  lemma BudgetIs(perTrade: real, headroom: real, multiplier: Numeric)
    ensures var b := Budget(perTrade, headroom, multiplier);
      && (perTrade <= 0.0 || headroom <= 0.0 ==> b == 0.0)
      && (multiplier.Unparseable? || multiplier.Undefined? ==> b == 0.0)
      && (multiplier.Finite? && multiplier.value <= 0.0 ==> b == 0.0)
      && (0.0 < perTrade <= headroom && multiplier.Finite? ==>
            && (0.0 < multiplier.value <= 1.0 ==> b == perTrade * multiplier.value)
            && (multiplier.value > 1.0 ==> b == perTrade))
      && (0.0 < headroom <= perTrade && multiplier.Finite? ==>
            && (0.0 < multiplier.value <= 1.0 ==> b == headroom * multiplier.value)
            && (multiplier.value > 1.0 ==> b == headroom))
  {
    MulUnits(if headroom < perTrade then headroom else perTrade);
  }

  /** The position is the largest whole number of lots the budget covers: it fits, and one more lot
      would not. */
  lemma SizeIsLargestAffordable(risk: real, budget: real, lotSize: int)
    requires Size(risk, budget, lotSize).Ok?
    ensures var s := Size(risk, budget, lotSize).value;
      && s.quantity == s.lots * lotSize && s.lots >= 1 && risk > 0.0
      && s.riskInr == Mul(s.quantity as real, risk) <= budget
      && budget < Mul((s.quantity + lotSize) as real, risk)
  {
    var s := Size(risk, budget, lotSize).value;
    var shares, q := (budget / risk).Floor, budget / risk;
    hide Mul;
    MulDiv(budget, risk);
    LotsCover(shares, lotSize);
    MulOrder(s.quantity as real, q, risk);
    MulOrder(q, (s.quantity + lotSize) as real, risk);
    if s.lots < 1 {
      ScaleInt(s.lots, lotSize);
    }
  }

  lemma ScaleInt(a: int, b: int)
    requires a <= 0 && b >= 0
    ensures a * b <= 0
  {
  }

  lemma LotsCover(shares: int, lotSize: int)
    requires lotSize >= 1
    ensures (shares / lotSize) * lotSize <= shares < (shares / lotSize) * lotSize + lotSize
  {
  }

  /** Nothing affordable is refused: a sizing is refused only when not even one lot fits. */
  lemma SizeRefusesOnlyUnaffordable(risk: real, budget: real, lotSize: int)
    requires lotSize >= 1 && risk > 0.0
    ensures Size(risk, budget, lotSize).Ok? <==> budget >= Mul(lotSize as real, risk)
  {
    hide Mul;
    MulOrder(0.0, lotSize as real, risk);
    MulUnits(risk);
    if budget > 0.0 {
      var shares, q := (budget / risk).Floor, budget / risk;
      MulDiv(budget, risk);
      MulSign(q, risk);
      LotsCover(shares, lotSize);
      MulOrder(lotSize as real, q, risk);
      MulOrder(q, lotSize as real, risk);
      WholeLotsFit(shares, lotSize);
    }
  }

  lemma WholeLotsFit(shares: int, lotSize: int)
    requires lotSize >= 1 && shares >= 0
    ensures (shares / lotSize) * lotSize >= 1 <==> shares >= lotSize
  {
    if shares >= lotSize {
      assert shares / lotSize >= 1;
    } else {
      assert shares / lotSize == 0;
    }
  }

  function SplitLots(lots: int): (int, int) {
    if lots < 1 then (0, 0)
    else
      var rounded := RoundHalfUp(lots as real * 0.6);
      var atLeast1 := if rounded < 1 then 1 else rounded;
      var lotsA := if atLeast1 > lots then lots else atLeast1;
      (lotsA, lots - lotsA)
  }

  /** Both legs are whole lots, nothing is lost, leg A is never the smaller, and it is within half a
      lot of 60 %. */
  lemma SplitConserves(lots: int)
    requires lots >= 1
    ensures var (a, b) := SplitLots(lots);
      && a + b == lots && a >= 1 && b >= 0 && a >= b
      && lots as real * 0.6 - 0.5 <= a as real <= lots as real * 0.6 + 0.5
  {
    var x := lots as real * 0.6;
    assert RoundHalfUp(x) as real <= x + 0.5 < RoundHalfUp(x) as real + 1.0;
  }

  // ---------- assembly ----------

  datatype Instrument = Instrument(symbol: string, tick: real, lotSize: int)

  datatype Leg = LegA | LegB

  datatype LegPlan = LegPlan(
    leg: Leg, side: Side, quantity: int, entry: real, stop: real, target: real,
    squareoffOffset: real, stoplossOffset: real, trailing: real)
  {
    function RiskInr(): real { Mul(quantity as real, stoplossOffset) }
  }

  datatype Plan = Plan(symbol: string, side: Side, geometry: Geometry, sizing: Sizing, legs: seq<LegPlan>)

  function LegOf(leg: Leg, g: Geometry, quantity: int): LegPlan {
    LegPlan(leg, g.side, quantity, g.entry, g.stop, if leg.LegA? then g.target1 else g.target2,
            if leg.LegA? then g.t1Offset else g.t2Offset, g.risk, g.trailStep)
  }

  function LegsOf(g: Geometry, quantityA: int, quantityB: int): seq<LegPlan> {
    (if quantityA > 0 then [LegOf(LegA, g, quantityA)] else []) +
    (if quantityB > 0 then [LegOf(LegB, g, quantityB)] else [])
  }

  datatype Intent = Intent(symbol: string, side: Side, entry: Numeric, atr: Numeric, multiplier: Numeric)

  datatype Config = Config(watchlist: seq<Instrument>, trail: Trail, perTradeRisk: real)

  /** The first watchlist entry with this symbol. */
  function FindSymbol(watchlist: seq<Instrument>, symbol: string): Result<Instrument> {
    if watchlist == [] then Refused(SymbolNotAllowed)
    else if watchlist[0].symbol == symbol then Ok(watchlist[0])
    else FindSymbol(watchlist[1..], symbol)
  }

  function BuildPlan(cfg: Config, i: Intent, headroom: real): Result<Plan> {
    var item :- FindSymbol(cfg.watchlist, i.symbol);
    var g :- Geometrise(i.side, i.entry, i.atr, item.tick, cfg.trail);
    var s :- Size(g.risk, Budget(cfg.perTradeRisk, headroom, i.multiplier), item.lotSize);
    var (lotsA, lotsB) := SplitLots(s.lots);
    Ok(Plan(i.symbol, i.side, g, s, LegsOf(g, lotsA * item.lotSize, lotsB * item.lotSize)))
  }

  function TotalQuantity(legs: seq<LegPlan>): int {
    if legs == [] then 0 else legs[0].quantity + TotalQuantity(legs[1..])
  }

  function TotalRisk(legs: seq<LegPlan>): real {
    if legs == [] then 0.0 else legs[0].RiskInr() + TotalRisk(legs[1..])
  }

  lemma LegsAddUp(g: Geometry, a: int, b: int)
    requires a >= 1 && b >= 0
    ensures TotalQuantity(LegsOf(g, a, b)) == a + b
    ensures TotalRisk(LegsOf(g, a, b)) == Mul((a + b) as real, g.risk)
  {
    var x, y := LegOf(LegA, g, a), LegOf(LegB, g, b);
    if b > 0 {
      assert LegsOf(g, a, b) == [x, y];
      TwoLegs(x, y);
      MulAdds(a as real, b as real, g.risk);
    } else {
      assert LegsOf(g, a, b) == [x];
      assert [x][1..] == [];
    }
  }

  lemma TwoLegs(x: LegPlan, y: LegPlan)
    ensures TotalQuantity([x, y]) == x.quantity + y.quantity
    ensures TotalRisk([x, y]) == x.RiskInr() + y.RiskInr()
  {
    assert [x, y][1..] == [y] && [y][1..] == [];
    assert TotalQuantity([y]) == y.quantity + TotalQuantity([]);
    assert TotalRisk([y]) == y.RiskInr() + TotalRisk([]);
  }

  /** A built plan's legs are whole lots that sum to the sized quantity, their risks sum to
      `riskInr`, and that is within the budget, the per-trade risk and the headroom. */
  lemma PlanIsSound(cfg: Config, i: Intent, headroom: real)
    ensures BuildPlan(cfg, i, headroom).Ok? ==>
      var p := BuildPlan(cfg, i, headroom).value;
      && 1 <= |p.legs| <= 2
      && TotalQuantity(p.legs) == p.sizing.quantity
      && TotalRisk(p.legs) == p.sizing.riskInr <= p.sizing.budget
      && p.sizing.budget <= cfg.perTradeRisk && p.sizing.budget <= headroom
      && p.sizing.budget < Mul((p.sizing.quantity + p.sizing.lotSize) as real, p.sizing.risk)
      && forall leg <- p.legs :: leg.quantity > 0 && WholeLots(leg.quantity, p.sizing.lotSize)
  {
    if BuildPlan(cfg, i, headroom).Ok? {
      var p := BuildPlan(cfg, i, headroom).value;
      var item := FindSymbol(cfg.watchlist, i.symbol).value;
      hide Geometrise, Budget, Size, SplitLots, LegsOf, TotalQuantity, TotalRisk, Mul;
      BudgetIsBounded(cfg.perTradeRisk, headroom, i.multiplier);
      SizeIsLargestAffordable(p.geometry.risk, p.sizing.budget, item.lotSize);
      SplitConserves(p.sizing.lots);
      var (a, b) := SplitLots(p.sizing.lots);
      LotProduct(a, b, item.lotSize);
      LegsAddUp(p.geometry, a * item.lotSize, b * item.lotSize);
      LegsAreWholeLots(p.geometry, a * item.lotSize, b * item.lotSize, item.lotSize);
    }
  }

  lemma LegsAreWholeLots(g: Geometry, a: int, b: int, lot: int)
    requires a >= 1 && b >= 0 && WholeLots(a, lot) && WholeLots(b, lot)
    ensures 1 <= |LegsOf(g, a, b)| <= 2
    ensures forall leg <- LegsOf(g, a, b) :: leg.quantity > 0 && WholeLots(leg.quantity, lot)
  {
  }

  ghost predicate WholeLots(quantity: int, lotSize: int) {
    exists n :: quantity == n * lotSize
  }

  lemma LotProduct(a: int, b: int, lot: int)
    requires a >= 1 && b >= 0 && lot >= 1
    ensures a * lot + b * lot == (a + b) * lot && a * lot >= 1 && b * lot >= 0
    ensures b >= 1 ==> b * lot >= 1
    ensures WholeLots(a * lot, lot) && WholeLots(b * lot, lot)
  {
  }

  /** The watchlist entry found is the first with the symbol, and none is found only when there is none. */
  lemma {:induction false} FindsFirst(watchlist: seq<Instrument>, symbol: string) returns (k: nat)
    ensures FindSymbol(watchlist, symbol).Ok? ==>
              && k < |watchlist| && FindSymbol(watchlist, symbol) == Ok(watchlist[k]) && watchlist[k].symbol == symbol
              && forall j :: 0 <= j < k ==> watchlist[j].symbol != symbol
    ensures FindSymbol(watchlist, symbol).Refused? ==>
              && FindSymbol(watchlist, symbol).reason == SymbolNotAllowed
              && forall j :: 0 <= j < |watchlist| ==> watchlist[j].symbol != symbol
  {
    k := 0;
    if watchlist != [] && watchlist[0].symbol != symbol {
      var rest := FindsFirst(watchlist[1..], symbol);
      k := rest + 1;
      assert forall j :: 0 < j < |watchlist| ==> watchlist[j] == watchlist[1..][j - 1];
    }
  }

  /** A plan is built exactly when the symbol is on the watchlist, the entry price and the ATR are finite
      and positive, the stop distance rounds to a tick or more, and the budget covers one lot. */
  lemma BuildsIff(cfg: Config, i: Intent, headroom: real)
    ensures BuildPlan(cfg, i, headroom).Ok? <==>
      && FindSymbol(cfg.watchlist, i.symbol).Ok?
      && var item := FindSymbol(cfg.watchlist, i.symbol).value;
      && i.entry.Finite? && i.entry.value > 0.0 && i.atr.Finite? && i.atr.value > 0.0
      && item.tick > 0.0 && 1.5 * i.atr.value >= item.tick / 2.0 && item.lotSize >= 1
      && Budget(cfg.perTradeRisk, headroom, i.multiplier)
         >= Mul(item.lotSize as real, Times(Ticks(1.5 * i.atr.value, item.tick), item.tick))
    ensures BuildPlan(cfg, i, headroom).Ok? ==>
      var p := BuildPlan(cfg, i, headroom).value;
      && p.symbol == i.symbol && p.side == i.side == p.geometry.side && p.sizing.risk == p.geometry.risk
      && p.sizing.budget == Budget(cfg.perTradeRisk, headroom, i.multiplier)
      && p.sizing.lotSize == FindSymbol(cfg.watchlist, i.symbol).value.lotSize
  {
    if FindSymbol(cfg.watchlist, i.symbol).Ok? && i.atr.Finite? && i.atr.value > 0.0 {
      var item := FindSymbol(cfg.watchlist, i.symbol).value;
      if item.tick > 0.0 {
        RiskIsATickIff(i.atr.value, item.tick);
        hide Ticks, Times, Mul, Budget, FindSymbol, SplitLots, LegsOf, Size;
        if item.lotSize >= 1 && 1.5 * i.atr.value >= item.tick / 2.0 {
          SizeRefusesOnlyUnaffordable(Times(Ticks(StopDistance(i.atr.value), item.tick), item.tick),
                                      Budget(cfg.perTradeRisk, headroom, i.multiplier), item.lotSize);
        }
      }
    }
    SizedAs(cfg, i, headroom);
  }

  lemma SizedAs(cfg: Config, i: Intent, headroom: real)
    ensures BuildPlan(cfg, i, headroom).Ok? ==>
      var p := BuildPlan(cfg, i, headroom).value;
      && FindSymbol(cfg.watchlist, i.symbol).Ok?
      && var item := FindSymbol(cfg.watchlist, i.symbol).value;
      && p.symbol == i.symbol && p.side == i.side == p.geometry.side && p.sizing.risk == p.geometry.risk
      && p.sizing.budget == Budget(cfg.perTradeRisk, headroom, i.multiplier) && p.sizing.lotSize == item.lotSize >= 1
  {
    hide Budget, FindSymbol, Ticks, Times, SplitLots, LegsOf;
  }

  lemma RiskIsATickIff(atr: real, tick: real)
    requires atr > 0.0 && tick > 0.0
    ensures Times(Ticks(1.5 * atr, tick), tick) >= tick <==> 1.5 * atr >= tick / 2.0
  {
    hide Mul;
    var n := Ticks(1.5 * atr, tick);
    PositiveTicksIff(1.5 * atr, tick);
    MulUnits(tick);
    MulOrder(1.0, n as real, tick);
    MulOrder(n as real, 0.0, tick);
  }

  /** The reason given for a refusal is true of the input. */
  lemma RefusalIsTruthful(cfg: Config, i: Intent, headroom: real)
    requires BuildPlan(cfg, i, headroom).Refused?
    ensures var found, why := FindSymbol(cfg.watchlist, i.symbol), BuildPlan(cfg, i, headroom).reason;
      if found.Refused? then why == SymbolNotAllowed
      else
        match why
        case NonNumeric => i.entry.Unparseable? || i.atr.Unparseable?
        case UndefinedInput => i.entry.Undefined? || i.atr.Undefined?
        case BadEntryPrice => i.entry.Finite? && i.entry.value <= 0.0
        case BadAtr => i.atr.Finite? && i.atr.value <= 0.0
        case BadTickSize => found.value.tick <= 0.0
        case RiskBelowTick => i.atr.Finite? && 1.5 * i.atr.value < found.value.tick / 2.0
        case BadLotSize => found.value.lotSize < 1
        case NoBudget => Budget(cfg.perTradeRisk, headroom, i.multiplier) == 0.0
        case QuantityBelowOne => found.value.lotSize >= 1
        case _ => false
  {
    var k := FindsFirst(cfg.watchlist, i.symbol);
    BudgetIsBounded(cfg.perTradeRisk, headroom, i.multiplier);
    hide Ticks, Times, Mul, Budget, FindSymbol, SplitLots, LegsOf;
    if FindSymbol(cfg.watchlist, i.symbol).Ok? && i.atr.Finite? && i.atr.value > 0.0 {
      var item := FindSymbol(cfg.watchlist, i.symbol).value;
      if item.tick > 0.0 {
        RiskIsATickIff(i.atr.value, item.tick);
      }
    }
  }

  /** Leg A comes first and aims at the nearer target, about 1.5 R away; leg B, there from two lots on,
      aims at the farther, about 2.5 R away; both stop one R on the other side of the entry, and the
      offsets are the distances. */
  lemma LegsAimAtTargets(cfg: Config, i: Intent, headroom: real)
    requires BuildPlan(cfg, i, headroom).Ok?
    ensures var p := BuildPlan(cfg, i, headroom).value;
      var g, sign := p.geometry, if i.side.Buy? then 1.0 else -1.0;
      && |p.legs| == (if p.sizing.lots >= 2 then 2 else 1) && p.legs[0].leg == LegA
      && (|p.legs| == 2 ==> p.legs[1].leg == LegB && p.legs[1].quantity == (p.sizing.lots * 2 + 2) / 5 * p.sizing.lotSize)
      && (forall k :: 0 <= k < |p.legs| ==>
            var leg := p.legs[k];
            && leg.side == i.side && leg.entry == g.entry && leg.trailing == g.trailStep
            && leg.stoplossOffset == g.risk && leg.stop == leg.entry - sign * g.risk
            && leg.target == leg.entry + sign * leg.squareoffOffset
            && var r := if k == 0 then 1.5 * g.risk else 2.5 * g.risk;
               r <= leg.squareoffOffset <= r + 0.5 * g.tick)
  {
    var p := BuildPlan(cfg, i, headroom).value;
    var item := FindSymbol(cfg.watchlist, i.symbol).value;
    GeometryHolds(i.side, i.entry, i.atr, item.tick, cfg.trail);
    SizeIsLargestAffordable(p.geometry.risk, p.sizing.budget, item.lotSize);
    SplitConserves(p.sizing.lots);
    var (a, b) := SplitLots(p.sizing.lots);
    SecondLegIs(p.sizing.lots);
    LotProduct(a, b, item.lotSize);
    hide Budget, Size, SplitLots, FindSymbol, Mul;
  }

  /** Leg B takes the whole number of lots nearest to two fifths. */
  lemma SecondLegIs(lots: int)
    requires lots >= 1
    ensures SplitLots(lots).1 == (lots * 2 + 2) / 5
  {
    var x := lots as real * 0.6;
    var r := RoundHalfUp(x);
    assert r as real <= x + 0.5 < r as real + 1.0;
    assert (10 * r) as real <= (6 * lots + 5) as real < (10 * r + 10) as real;
  }

  // ---------- the daily limit ----------

  function Headroom(limit: real, total: real): real {
    if limit + total > 0.0 then limit + total else 0.0
  }

  /** The headroom is what may still be lost before the limit is reached. */
  lemma HeadroomIs(limit: real, total: real)
    ensures total > -limit ==> total - Headroom(limit, total) == -limit
    ensures total <= -limit ==> Headroom(limit, total) == 0.0
  {
  }

  /** One trade at a time: an intent, and what it made or lost if it was placed. */
  datatype Trade = Trade(intent: Intent, pnl: real)

  /** Session P&L after these trades, each sized on what was left before it. */
  function SessionTotal(cfg: Config, limit: real, trades: seq<Trade>): real {
    if trades == [] then 0.0
    else
      var before := SessionTotal(cfg, limit, trades[..|trades| - 1]);
      var last := trades[|trades| - 1];
      before + if BuildPlan(cfg, last.intent, Headroom(limit, before)).Ok? then last.pnl else 0.0
  }

  /** No placed trade lost more than its plan put at risk. */
  ghost predicate StopsHeld(cfg: Config, limit: real, trades: seq<Trade>) {
    trades == [] ||
    var before := SessionTotal(cfg, limit, trades[..|trades| - 1]);
    var last := trades[|trades| - 1];
    var plan := BuildPlan(cfg, last.intent, Headroom(limit, before));
    && StopsHeld(cfg, limit, trades[..|trades| - 1])
    && (plan.Ok? ==> last.pnl >= -TotalRisk(plan.value.legs))
  }

  /** However many trades, with whatever profits in between, the session never loses more than the limit. */
  lemma {:induction false} DailyLimitHolds(cfg: Config, limit: real, trades: seq<Trade>)
    requires limit >= 0.0 && StopsHeld(cfg, limit, trades)
    ensures SessionTotal(cfg, limit, trades) >= -limit
  {
    if trades != [] {
      var init, last := trades[..|trades| - 1], trades[|trades| - 1];
      DailyLimitHolds(cfg, limit, init);
      var headroom := Headroom(limit, SessionTotal(cfg, limit, init));
      if BuildPlan(cfg, last.intent, headroom).Ok? {
        PlanIsSound(cfg, last.intent, headroom);
      }
    }
  }

  // ---------- the payload guard ----------

  const MAX_OFFSET_FRACTION := 0.4

  predicate OffsetSane(entry: real, offset: real) {
    0.0 < offset <= entry * MAX_OFFSET_FRACTION
  }

  /** `payload_for` transmits a leg only if all three offsets can be distances from its entry. */
  predicate PayloadSane(leg: LegPlan) {
    && OffsetSane(leg.entry, leg.squareoffOffset)
    && OffsetSane(leg.entry, leg.stoplossOffset)
    && OffsetSane(leg.entry, leg.trailing)
  }

  /** A leg of a built plan that passes the guard has its stop and target within 60 % to 140 % of a
      positive entry, on opposite sides of it. */
  lemma SaneLegIsNearEntry(cfg: Config, i: Intent, headroom: real, k: nat)
    requires BuildPlan(cfg, i, headroom).Ok? && k < |BuildPlan(cfg, i, headroom).value.legs|
    requires PayloadSane(BuildPlan(cfg, i, headroom).value.legs[k])
    ensures var leg := BuildPlan(cfg, i, headroom).value.legs[k];
      && leg.entry > 0.0
      && 0.6 * leg.entry <= leg.stop <= 1.4 * leg.entry
      && 0.6 * leg.entry <= leg.target <= 1.4 * leg.entry
      && (if i.side.Buy? then leg.stop < leg.entry < leg.target else leg.target < leg.entry < leg.stop)
  {
  }

  /** And it passes exactly then: the guard refuses nothing else of a built plan, save a trailing step of
      more than 40 % of the entry. */
  lemma SaneIff(cfg: Config, i: Intent, headroom: real, k: nat)
    requires BuildPlan(cfg, i, headroom).Ok? && k < |BuildPlan(cfg, i, headroom).value.legs|
    ensures var leg := BuildPlan(cfg, i, headroom).value.legs[k];
      PayloadSane(leg) <==>
        && 0.6 * leg.entry <= leg.stop <= 1.4 * leg.entry && 0.6 * leg.entry <= leg.target <= 1.4 * leg.entry
        && leg.trailing <= 0.4 * leg.entry
  {
    var p := BuildPlan(cfg, i, headroom).value;
    LegsAimAtTargets(cfg, i, headroom);
    GeometryHolds(i.side, i.entry, i.atr, FindSymbol(cfg.watchlist, i.symbol).value.tick, cfg.trail);
    hide BuildPlan;
    assert p.legs[k].stop == p.legs[k].entry - (if i.side.Buy? then 1.0 else -1.0) * p.geometry.risk;
  }

  lemma PositiveTicksIff(value: real, tick: real)
    requires tick > 0.0 && value > 0.0
    ensures Ticks(value, tick) >= 0
    ensures Ticks(value, tick) >= 1 <==> value >= tick / 2.0
  {
    hide Mul;
    var q := value / tick;
    MulDiv(value, tick);
    MulSign(q, tick);
    MulOrder(0.5, q, tick);
    MulOrder(q, 0.5, tick);
    HalfOf(tick);
  }

  /** An accepted geometry has a positive entry exactly when the entry asked for is at least half a
      tick; otherwise its entry is zero. */
  lemma EntryIsPositiveIff(side: Side, entryPrice: Numeric, atr: Numeric, tick: real, trail: Trail)
    requires Geometrise(side, entryPrice, atr, tick, trail).Ok?
    ensures tick > 0.0 && entryPrice.Finite?
    ensures var g := Geometrise(side, entryPrice, atr, tick, trail).value;
      && (g.entry > 0.0 <==> entryPrice.value >= tick / 2.0)
      && (g.entry > 0.0 || g.entry == 0.0)
  {
    var e, n, h, step, activation := GeometryInTicks(side, entryPrice, atr, tick, trail);
    PositiveTicksIff(entryPrice.value, tick);
    hide Geometrise, Mul;
    MulSign(e as real, tick);
    MulUnits(tick);
  }

  /** A plan for an entry below half a tick is built all the same, but the guard refuses all its legs. */
  lemma ZeroEntryIsNeverSent(cfg: Config, i: Intent, headroom: real)
    requires BuildPlan(cfg, i, headroom).Ok?
    ensures FindSymbol(cfg.watchlist, i.symbol).Ok? && i.entry.Finite?
    ensures i.entry.value < FindSymbol(cfg.watchlist, i.symbol).value.tick / 2.0 ==>
      forall leg <- BuildPlan(cfg, i, headroom).value.legs :: !PayloadSane(leg)
  {
    var item := FindSymbol(cfg.watchlist, i.symbol).value;
    EntryIsPositiveIff(i.side, i.entry, i.atr, item.tick, cfg.trail);
    hide Geometrise, Size, Budget, SplitLots;
  }

  /** Two paise at a tick of five round to nothing, and the geometry is accepted. */
  lemma TwoPaiseRoundToNothing()
    ensures var r := Geometrise(Buy, Finite(0.02), Finite(1.0), 0.05, Trail(1.0, 1.0));
      r.Ok? && r.value.entry == 0.0
  {
    assert Ticks(0.02, 0.05) == 0;
    assert StopDistance(1.0) / 0.05 == 30.0 && Ticks(StopDistance(1.0), 0.05) == 30;
    assert Times(30, 0.05) == 1.5;
  }

  // ---------- order tags ----------

  /** `TCHYN-{yyyymmdd}-{seq}`. */
  datatype Tag = Tag(date: int, seqNo: int)

  class OrderTagSequencer {
    var date: Option<int>
    var seqNo: int

    constructor (start: int)
      ensures date == None && seqNo == start
    {
      date, seqNo := None, start;
    }

    method NextTag(today: int) returns (tag: Tag)
      modifies this
      ensures tag == NextTagOf(old(date), old(seqNo), today)
      ensures date == Some(today) && seqNo == tag.seqNo
    {
      if date != Some(today) {
        date := Some(today);
        seqNo := 0;
      }
      seqNo := seqNo + 1;
      tag := Tag(today, seqNo);
    }
  }

  function NextTagOf(date: Option<int>, seqNo: int, today: int): Tag {
    Tag(today, if date == Some(today) then seqNo + 1 else 1)
  }

  /** The tags drawn on these days. */
  function TagsOn(days: seq<int>, start: int): seq<Tag> {
    if days == [] then []
    else
      var init := TagsOn(days[..|days| - 1], start);
      init + [if init == [] then NextTagOf(None, start, days[|days| - 1])
              else NextTagOf(Some(init[|init| - 1].date), init[|init| - 1].seqNo, days[|days| - 1])]
  }

  lemma {:induction false} TagsOnShape(days: seq<int>, start: int, k: nat)
    requires k < |days|
    ensures |TagsOn(days, start)| == |days|
    ensures TagsOn(days, start)[k].date == days[k]
    ensures TagsOn(days, start)[k].seqNo
         == if k > 0 && days[k - 1] == days[k] then TagsOn(days, start)[k - 1].seqNo + 1 else 1
    decreases |days|
  {
    var init := days[..|days| - 1];
    if init != [] {
      TagsOnShape(init, start, |init| - 1);
      if k < |init| {
        TagsOnShape(init, start, k);
      }
    }
  }

  /** The days never come back to one that was left. */
  ghost predicate NeverReturns(days: seq<int>) {
    forall i, j, k :: 0 <= i < j < k < |days| && days[i] == days[k] ==> days[j] == days[i]
  }

  lemma {:induction false} TagsGrowWithinADay(days: seq<int>, start: int, i: nat, k: nat)
    requires i < k < |days| && forall j :: i <= j <= k ==> days[j] == days[i]
    ensures |TagsOn(days, start)| == |days|
    ensures TagsOn(days, start)[i].seqNo < TagsOn(days, start)[k].seqNo
    decreases k
  {
    TagsOnShape(days, start, k);
    if i < k - 1 {
      TagsGrowWithinADay(days, start, i, k - 1);
    }
  }

  lemma TagsAreUnique(days: seq<int>, start: int, i: nat, k: nat)
    requires NeverReturns(days) && i < k < |days|
    ensures |TagsOn(days, start)| == |days|
    ensures TagsOn(days, start)[i] != TagsOn(days, start)[k]
  {
    TagsOnShape(days, start, i);
    TagsOnShape(days, start, k);
    if days[i] == days[k] {
      TagsGrowWithinADay(days, start, i, k);
    }
  }

  /** Some order at or before `k`, after `from`, opened the day of order `k` with sequence number 1. */
  lemma {:induction false} DayOpens(days: seq<int>, start: int, from: int, k: nat) returns (s: nat)
    requires -1 <= from < k < |days| && (from >= 0 ==> days[from] != days[k])
    ensures from < s <= k && |TagsOn(days, start)| == |days| && TagsOn(days, start)[s] == Tag(days[k], 1)
    decreases k
  {
    TagsOnShape(days, start, k);
    if k == 0 || days[k - 1] != days[k] {
      s := k;
    } else {
      s := DayOpens(days, start, from, k - 1);
    }
  }

  ghost predicate AllDistinct(tags: seq<Tag>) {
    forall i, k :: 0 <= i < k < |tags| ==> tags[i] != tags[k]
  }

  /** No two orders share a tag exactly when the date never returns to one that was left. */
  lemma TagsDistinctIff(days: seq<int>, start: int)
    ensures AllDistinct(TagsOn(days, start)) <==> NeverReturns(days)
  {
    if days != [] {
      TagsOnShape(days, start, 0);
    }
    if NeverReturns(days) {
      forall i, k | 0 <= i < k < |TagsOn(days, start)| ensures TagsOn(days, start)[i] != TagsOn(days, start)[k] {
        TagsAreUnique(days, start, i, k);
      }
    } else {
      var i, j, k :| 0 <= i < j < k < |days| && days[i] == days[k] && days[j] != days[i];
      var s := DayOpens(days, start, -1, i);
      var t := DayOpens(days, start, j, k);
      assert TagsOn(days, start)[s] == TagsOn(days, start)[t];
    }
  }

  /** The constructor's `start` never reaches a tag: the first tag of a process is always number 1. */
  lemma {:induction false} StartIsIgnored(days: seq<int>, start: int)
    ensures TagsOn(days, start) == TagsOn(days, 0)
  {
    if days != [] {
      StartIsIgnored(days[..|days| - 1], start);
    }
  }

  class OrderBuilder {
    const cfg: Config
    const sequencer: OrderTagSequencer

    constructor (cfg: Config, sequencer: OrderTagSequencer)
      ensures this.cfg == cfg && this.sequencer == sequencer
    {
      this.cfg, this.sequencer := cfg, sequencer;
    }

    /** Build the bracket, drawing one fresh tag per leg; a refusal draws none. */
    method Build(i: Intent, headroom: real, today: int) returns (r: Result<Plan>, tags: seq<Tag>)
      modifies sequencer
      ensures r == BuildPlan(cfg, i, headroom)
      ensures r.Refused? ==> tags == [] && unchanged(sequencer)
      ensures r.Ok? ==> |tags| == |r.value.legs| && tags[0] == NextTagOf(old(sequencer.date), old(sequencer.seqNo), today)
      ensures forall k :: 0 < k < |tags| ==> tags[k] == NextTagOf(Some(tags[k - 1].date), tags[k - 1].seqNo, today)
      ensures r.Ok? ==> sequencer.date == Some(today) && sequencer.seqNo == tags[|tags| - 1].seqNo
    {
      tags := [];
      r := BuildPlan(cfg, i, headroom);
      if r.Ok? {
        PlanIsSound(cfg, i, headroom);
        hide BuildPlan;
        for n := 0 to |r.value.legs|
          invariant |tags| == n
          invariant n == 0 ==> unchanged(sequencer)
          invariant n > 0 ==> tags[0] == NextTagOf(old(sequencer.date), old(sequencer.seqNo), today)
          invariant forall k :: 0 < k < n ==> tags[k] == NextTagOf(Some(tags[k - 1].date), tags[k - 1].seqNo, today)
          invariant n > 0 ==> sequencer.date == Some(today) && sequencer.seqNo == tags[n - 1].seqNo && tags[n - 1].date == today
        {
          var tag := sequencer.NextTag(today);
          tags := tags + [tag];
        }
      }
    }
  }
}
