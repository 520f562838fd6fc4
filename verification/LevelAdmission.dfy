/** Which levels of pmm_mister may quote, and the orders it creates for them. */
module LevelAdmission {
  import opened Results
  import opened RealFacts
  import opened PmmMisterModel

  /** Market data of one tick. */
  datatype Feed = Feed(reference: real, now: real, spreadMultiplier: real, quantize: real -> real)

  function Levels(side: Side, c: Config): nat { if side == Buy then |c.buySpreads| else |c.sellSpreads| }
  function Spreads(side: Side, c: Config): seq<real> { if side == Buy then c.buySpreads else c.sellSpreads }
  function Weights(side: Side, c: Config): seq<real> { if side == Buy then c.buyWeights else c.sellWeights }
  function Cooldown(side: Side, c: Config): real { if side == Buy then c.buyCooldown else c.sellCooldown }

  function Power(x: real, n: nat): real { if n == 0 then 1.0 else x * Power(x, n - 1) }

  function DistanceTolerance(level: nat, c: Config): real { c.distanceTolerance * Power(c.toleranceScaling, level) }

  /** How far the market has moved past an entry of this side, relative to the reference. */
  function Distance(side: Side, entry: real, reference: real): real
    requires reference > 0.0
  {
    if side == Buy then (entry - reference) / reference else (reference - entry) / reference
  }

  predicate Accumulates(side: Side, c: Config) { side == (if c.isShort then Sell else Buy) }

  // ------------------------------------------------------------------ blocking conditions

  function ActiveCount(es: seq<Executor>, level: Level): nat {
    if es == [] then 0
    else
      var last := es[|es| - 1];
      ActiveCount(es[..|es| - 1], level) + if last.active && last.level == level then 1 else 0
  }

  function UntradedCount(es: seq<Executor>, level: Level): nat {
    if es == [] then 0
    else
      var last := es[|es| - 1];
      UntradedCount(es[..|es| - 1], level) + if last.active && !last.trading && last.level == level then 1 else 0
  }

  ghost predicate InCooldown(es: seq<Executor>, level: Level, now: real, c: Config)
    requires level.Quote?
  {
    exists e | e in es :: e.level == level && e.lastUpdate.Some? && now - e.lastUpdate.value < Cooldown(level.side, c)
  }

  ghost predicate TooClose(es: seq<Executor>, level: Level, reference: real, c: Config)
    requires level.Quote? && reference > 0.0
  {
    exists e | e in es :: e.level == level && e.active
                          && Distance(level.side, e.entryPrice, reference) < DistanceTolerance(level.index, c)
  }

  /** A level that must not receive a new order this tick. */
  ghost predicate Working(es: seq<Executor>, level: Level, f: Feed, c: Config)
    requires level.Quote? && f.reference > 0.0
  {
    || UntradedCount(es, level) > 0
    || ActiveCount(es, level) >= c.maxActive
    || InCooldown(es, level, f.now, c)
    || TooClose(es, level, f.reference, c)
  }

  lemma DistanceMonotone(side: Side, p: real, q: real, reference: real)
    requires reference > 0.0
    requires if side == Buy then p <= q else q <= p
    ensures Distance(side, p, reference) <= Distance(side, q, reference)
  {
    var x, y := Distance(side, p, reference), Distance(side, q, reference);
    assert (y - x) * reference >= 0.0;
  }

  /** `latest` is the newest order update seen at the level. */
  ghost predicate IsLatest(es: seq<Executor>, level: Level, latest: Option<real>) {
    && (latest.Some? ==> exists e | e in es :: e.level == level && e.lastUpdate == latest)
    && forall e | e in es && e.level == level && e.lastUpdate.Some? ::
         latest.Some? && e.lastUpdate.value <= latest.value
  }

  /** `extreme` is the lowest buy or highest sell entry price among the level's active executors. */
  ghost predicate IsExtreme(es: seq<Executor>, level: Level, extreme: Option<real>)
    requires level.Quote?
  {
    && (extreme.Some? ==> exists e | e in es :: e.level == level && e.active && extreme == Some(e.entryPrice))
    && forall e | e in es && e.level == level && e.active ::
         extreme.Some? && if level.side == Buy then extreme.value <= e.entryPrice else e.entryPrice <= extreme.value
  }

  function Newer(latest: Option<real>, e: Executor): Option<real> {
    if e.lastUpdate.Some? && (latest.None? || latest.value < e.lastUpdate.value) then e.lastUpdate else latest
  }

  function Further(extreme: Option<real>, e: Executor, side: Side): Option<real> {
    if extreme.None? || (if side == Buy then e.entryPrice < extreme.value else extreme.value < e.entryPrice)
    then Some(e.entryPrice) else extreme
  }

  lemma IsLatestSnoc(es: seq<Executor>, e: Executor, level: Level, latest: Option<real>)
    requires IsLatest(es, level, latest)
    ensures IsLatest(es + [e], level, if e.level == level then Newer(latest, e) else latest)
  {
    if latest.Some? {
      var w :| w in es && w.level == level && w.lastUpdate == latest;
      assert w in es + [e];
    }
    assert e in es + [e];
  }

  lemma IsExtremeSnoc(es: seq<Executor>, e: Executor, level: Level, extreme: Option<real>)
    requires level.Quote? && IsExtreme(es, level, extreme)
    ensures IsExtreme(es + [e], level,
                      if e.level == level && e.active then Further(extreme, e, level.side) else extreme)
  {
    if extreme.Some? {
      var w :| w in es && w.level == level && w.active && extreme == Some(w.entryPrice);
      assert w in es + [e];
    }
    assert e in es + [e];
  }

  /** One pass over the executors of a level: counts, latest update, and the extreme entry price. */
  method AnalyseLevel(es: seq<Executor>, level: Level, f: Feed, c: Config) returns (working: bool)
    requires level.Quote? && f.reference > 0.0
    ensures working == Working(es, level, f, c)
  {
    var active, untraded := 0, 0;
    var latest: Option<real>, extreme: Option<real> := None, None;
    for i := 0 to |es|
      invariant active == ActiveCount(es[..i], level) && untraded == UntradedCount(es[..i], level)
      invariant IsLatest(es[..i], level, latest)
      invariant IsExtreme(es[..i], level, extreme)
    {
      hide IsLatest, IsExtreme;
      var e := es[i];
      assert es[..i + 1] == es[..i] + [e];
      assert (es[..i] + [e])[..i] == es[..i];
      IsLatestSnoc(es[..i], e, level, latest);
      IsExtremeSnoc(es[..i], e, level, extreme);
      if e.level == level {
        latest := Newer(latest, e);
        if e.active {
          active := active + 1;
          if !e.trading {
            untraded := untraded + 1;
          }
          extreme := Further(extreme, e, level.side);
        }
      }
    }
    assert es[..|es|] == es;
    LatestDecides(es, level, f, c, latest);
    ExtremeDecides(es, level, f, c, extreme);
    working := untraded > 0 || active >= c.maxActive
               || (latest.Some? && f.now - latest.value < Cooldown(level.side, c))
               || (extreme.Some?
                   && Distance(level.side, extreme.value, f.reference) < DistanceTolerance(level.index, c));
  }

  lemma LatestDecides(es: seq<Executor>, level: Level, f: Feed, c: Config, latest: Option<real>)
    requires level.Quote? && IsLatest(es, level, latest)
    ensures InCooldown(es, level, f.now, c) <==> latest.Some? && f.now - latest.value < Cooldown(level.side, c)
  {
    hide Cooldown;
  }

  lemma ExtremeDecides(es: seq<Executor>, level: Level, f: Feed, c: Config, extreme: Option<real>)
    requires level.Quote? && f.reference > 0.0
    requires IsExtreme(es, level, extreme)
    ensures TooClose(es, level, f.reference, c) <==>
              extreme.Some? && Distance(level.side, extreme.value, f.reference) < DistanceTolerance(level.index, c)
  {
    hide Distance, DistanceTolerance;
    if extreme.Some? {
      forall e | e in es && e.level == level && e.active
        ensures Distance(level.side, extreme.value, f.reference) <= Distance(level.side, e.entryPrice, f.reference)
      {
        DistanceMonotone(level.side, extreme.value, e.entryPrice, f.reference);
      }
    }
  }

  // ------------------------------------------------------------------ executable levels

  ghost function Missing(es: seq<Executor>, side: Side, n: nat, f: Feed, c: Config): seq<Level>
    requires f.reference > 0.0
  {
    if n == 0 then []
    else
      var level := Quote(side, n - 1);
      Missing(es, side, n - 1, f, c) + if Working(es, level, f, c) then [] else [level]
  }

  method MissingLevels(es: seq<Executor>, side: Side, f: Feed, c: Config) returns (missing: seq<Level>)
    requires f.reference > 0.0
    ensures missing == Missing(es, side, Levels(side, c), f, c)
  {
    missing := [];
    for i := 0 to Levels(side, c)
      invariant missing == Missing(es, side, i, f, c)
    {
      var working := AnalyseLevel(es, Quote(side, i), f, c);
      if !working {
        missing := missing + [Quote(side, i)];
      }
    }
  }

  /** The position constraints: which of the two sides may quote at all. */
  function Choose(buys: seq<Level>, sells: seq<Level>, p: Position, reference: real, c: Config): seq<Level> {
    var accumulation, reduction := if c.isShort then sells else buys, if c.isShort then buys else sells;
    if p.basePct < c.minBase then accumulation
    else if p.basePct > c.maxBase then reduction
    else if c.profitProtection && p.breakeven.Some? && p.breakeven.value > 0.0 then
      var losing := if c.isShort then reference > p.breakeven.value else reference < p.breakeven.value;
      var winning := if c.isShort then reference < p.breakeven.value else reference > p.breakeven.value;
      if p.basePct < c.targetBase && losing then accumulation
      else if p.basePct > c.targetBase && winning then reduction
      else buys + sells
    else buys + sells
  }

  ghost function Executable(es: seq<Executor>, p: Position, f: Feed, c: Config): seq<Level>
    requires f.reference > 0.0
  {
    Choose(Missing(es, Buy, Levels(Buy, c), f, c), Missing(es, Sell, Levels(Sell, c), f, c), p, f.reference, c)
  }

  method ExecutableLevels(es: seq<Executor>, p: Position, f: Feed, c: Config) returns (levels: seq<Level>)
    requires f.reference > 0.0
    ensures levels == Executable(es, p, f, c)
  {
    var buys := MissingLevels(es, Buy, f, c);
    var sells := MissingLevels(es, Sell, f, c);
    levels := Choose(buys, sells, p, f.reference, c);
  }

  // ------------------------------------------------------------------ orders

  function TotalWeight(c: Config): real { Sum(c.buyWeights) + Sum(c.sellWeights) }

  function AllocatedBudget(c: Config): real { c.totalQuote * c.allocation }

  function QuoteAmounts(side: Side, c: Config): (r: seq<real>)
    requires TotalWeight(c) != 0.0
    ensures |r| == |Weights(side, c)|
  {
    Split(Weights(side, c), TotalWeight(c), c)
  }

  /** One weight's part of the allocated budget. */
  function Share(weight: real, total: real, c: Config): real
    requires total != 0.0
  {
    weight / total * c.totalQuote * c.allocation
  }

  function Split(weights: seq<real>, total: real, c: Config): (r: seq<real>)
    requires total != 0.0
    ensures |r| == |weights| && forall i | 0 <= i < |r| :: r[i] == Share(weights[i], total, c)
  {
    seq(|weights|, i requires 0 <= i < |weights| => Share(weights[i], total, c))
  }

  function Clip(x: real, c: Config): real {
    var capped := if x < 1.0 then x else 1.0;
    if capped < c.minSkew then c.minSkew else capped
  }

  /** High when the position still has to move in this side's direction. */
  function Skew(side: Side, basePct: real, c: Config): real {
    if c.maxBase <= c.minBase then 1.0
    else if Accumulates(side, c) then Clip((c.maxBase - basePct) / (c.maxBase - c.minBase), c)
    else Clip((basePct - c.minBase) / (c.maxBase - c.minBase), c)
  }

  function SpreadInPct(side: Side, i: nat, f: Feed, c: Config): real
    requires i < Levels(side, c)
  {
    Spreads(side, c)[i] * f.spreadMultiplier
  }

  function OrderPrice(level: Level, f: Feed, c: Config): real
    requires level.Quote? && level.index < Levels(level.side, c)
  {
    var spread := SpreadInPct(level.side, level.index, f, c);
    f.reference * (if level.side == Buy then 1.0 - spread else 1.0 + spread)
  }

  ghost predicate Configured(level: Level, c: Config) {
    level.Quote? && level.index < Levels(level.side, c)
  }

  /** Consistent list lengths, and no division by a zero weight or price. */
  ghost predicate Priceable(f: Feed, c: Config) {
    && f.reference > 0.0 && TotalWeight(c) != 0.0
    && |c.buyWeights| == |c.buySpreads| && |c.sellWeights| == |c.sellSpreads|
    && (forall i: nat | i < |c.buySpreads| :: SpreadInPct(Buy, i, f, c) != 1.0)
    && (forall i: nat | i < |c.sellSpreads| :: SpreadInPct(Sell, i, f, c) != -1.0)
  }

  predicate LosingSide(price: real, p: Position, c: Config) {
    p.breakeven.Some? && p.breakeven.value > 0.0
    && (if c.isShort then price > p.breakeven.value else price < p.breakeven.value)
  }

  function QuoteAmount(level: Level, c: Config): real
    requires level.Quote? && level.index < |Weights(level.side, c)| && TotalWeight(c) != 0.0
  {
    QuoteAmounts(level.side, c)[level.index]
  }

  function InBase(quote: real, price: real, skew: real): real
    requires price != 0.0
  {
    quote / price * skew
  }

  /** The level's budget at this price, skewed, as the exchange rounds it. */
  function OrderAmount(level: Level, price: real, p: Position, f: Feed, c: Config): real
    requires level.Quote? && level.index < |Weights(level.side, c)| && TotalWeight(c) != 0.0 && price != 0.0
  {
    f.quantize(InBase(QuoteAmount(level, c), price, Skew(level.side, p.basePct, c)))
  }

  function LevelOrder(level: Level, p: Position, f: Feed, c: Config): Option<Action>
    requires Priceable(f, c) && Configured(level, c)
  {
    PriceNonZero(level, f, c);
    var price := OrderPrice(level, f, c);
    var amount := OrderAmount(level, price, p, f, c);
    if amount == 0.0 then None
    else if c.profitProtection && !Accumulates(level.side, c) && LosingSide(price, p, c) then None
    else Some(EntryOrder(level, price, amount))
  }

  function Orders(levels: seq<Level>, p: Position, f: Feed, c: Config): seq<Action>
    requires Priceable(f, c) && forall level | level in levels :: Configured(level, c)
  {
    if levels == [] then []
    else
      var init, order := levels[..|levels| - 1], LevelOrder(levels[|levels| - 1], p, f, c);
      assert forall level | level in init :: level in levels;
      Orders(init, p, f, c) + if order.Some? then [order.value] else []
  }

  lemma {:induction false} MissingIsConfigured(es: seq<Executor>, side: Side, n: nat, f: Feed, c: Config)
    requires f.reference > 0.0
    ensures forall level | level in Missing(es, side, n, f, c) ::
              level.Quote? && level.side == side && level.index < n && !Working(es, level, f, c)
  {
    hide Working;
    if n > 0 {
      MissingIsConfigured(es, side, n - 1, f, c);
    }
  }

  lemma ExecutableIsConfigured(es: seq<Executor>, p: Position, f: Feed, c: Config)
    requires f.reference > 0.0
    ensures forall level | level in Executable(es, p, f, c) :: Configured(level, c) && !Working(es, level, f, c)
  {
    hide Working;
    MissingIsConfigured(es, Buy, Levels(Buy, c), f, c);
    MissingIsConfigured(es, Sell, Levels(Sell, c), f, c);
  }

  /** The entry orders of one tick. */
  ghost function Proposal(es: seq<Executor>, p: Position, f: Feed, c: Config): seq<Action>
    requires Priceable(f, c)
  {
    ExecutableIsConfigured(es, p, f, c);
    Orders(Executable(es, p, f, c), p, f, c)
  }

  lemma OrdersSnoc(levels: seq<Level>, i: nat, p: Position, f: Feed, c: Config)
    requires Priceable(f, c) && i < |levels|
    requires forall level | level in levels :: Configured(level, c)
    ensures forall level | level in levels[..i] || level in levels[..i + 1] :: Configured(level, c)
    ensures Orders(levels[..i + 1], p, f, c)
         == Orders(levels[..i], p, f, c)
            + if LevelOrder(levels[i], p, f, c).Some? then [LevelOrder(levels[i], p, f, c).value] else []
  {
    hide LevelOrder, Priceable, Configured;
    assert forall level | level in levels[..i + 1] :: level in levels;
    assert levels[..i + 1][..i] == levels[..i];
  }

  method CreateLevelOrder(level: Level, p: Position, f: Feed, c: Config) returns (order: Option<Action>)
    requires Priceable(f, c) && Configured(level, c)
    ensures order == LevelOrder(level, p, f, c)
  {
    hide OrderAmount, OrderPrice;
    PriceNonZero(level, f, c);
    var price := OrderPrice(level, f, c);
    var amount := OrderAmount(level, price, p, f, c);
    if amount == 0.0 {
      return None;
    }
    if c.profitProtection && !Accumulates(level.side, c) && LosingSide(price, p, c) {
      return None;
    }
    return Some(EntryOrder(level, price, amount));
  }

  method CreateActionsProposal(es: seq<Executor>, p: Position, f: Feed, c: Config) returns (actions: seq<Action>)
    requires Priceable(f, c)
    ensures actions == Proposal(es, p, f, c)
  {
    var levels := ExecutableLevels(es, p, f, c);
    ExecutableIsConfigured(es, p, f, c);
    actions := [];
    for i := 0 to |levels|
      invariant forall level | level in levels[..i] :: Configured(level, c)
      invariant actions == Orders(levels[..i], p, f, c)
    {
      hide Orders, Executable, LevelOrder, Configured, Working;
      OrdersSnoc(levels, i, p, f, c);
      assert Configured(levels[i], c);
      var order := CreateLevelOrder(levels[i], p, f, c);
      if order.Some? {
        actions := actions + [order.value];
      }
    }
    assert levels[..|levels|] == levels;
  }

  lemma PriceNonZero(level: Level, f: Feed, c: Config)
    requires Priceable(f, c) && Configured(level, c)
    ensures OrderPrice(level, f, c) != 0.0
  {
    hide SpreadInPct;
    var spread := SpreadInPct(level.side, level.index, f, c);
    ProductNonZero(f.reference, if level.side == Buy then 1.0 - spread else 1.0 + spread);
  }
}
