/** The entry orders of a pmm_mister tick in plain terms: which levels get one, at what price, for how much. */
module EntryTerms {
  import opened Results
  import opened RealFacts
  import opened PmmMisterModel
  import opened LevelAdmission
  import opened AdmissionLaws

  // ------------------------------------------------------------------ the terms

  /** Buying grows a long position, selling a short one. */
  predicate Grows(side: Side, c: Config) { if c.isShort then side == Sell else side == Buy }

  function SideSpreads(side: Side, c: Config): seq<real> {
    match side
    case Buy => c.buySpreads
    case Sell => c.sellSpreads
  }

  function SideWeights(side: Side, c: Config): seq<real> {
    match side
    case Buy => c.buyWeights
    case Sell => c.sellWeights
  }

  /** Buys rest below the reference price and sells above it, by the spread of their level. */
  function QuotedAt(side: Side, i: nat, f: Feed, c: Config): real
    requires i < |SideSpreads(side, c)|
  {
    match side
    case Buy => f.reference - Gap(f, c.buySpreads[i])
    case Sell => f.reference + Gap(f, c.sellSpreads[i])
  }

  function Gap(f: Feed, spread: real): real { f.reference * f.spreadMultiplier * spread }

  /** The room left in the band for growing, or the way already gone for shrinking; between the minimum skew and one. */
  function Lean(side: Side, p: Position, c: Config): real {
    if c.maxBase <= c.minBase then 1.0
    else
      var width := c.maxBase - c.minBase;
      var part := if Grows(side, c) then (c.maxBase - p.basePct) / width else (p.basePct - c.minBase) / width;
      Max(Min(part, 1.0), c.minSkew)
  }

  /** The level's part of the allocated quote amount. */
  function Allotted(side: Side, i: nat, c: Config): real
    requires i < |SideWeights(side, c)| && Sum(c.buyWeights) + Sum(c.sellWeights) != 0.0
  {
    SideWeights(side, c)[i] / (Sum(c.buyWeights) + Sum(c.sellWeights)) * c.totalQuote * c.allocation
  }

  /** What the allotted quote amount buys at a price, leaned, as the exchange rounds it. */
  function Stake(side: Side, i: nat, price: real, p: Position, f: Feed, c: Config): real
    requires i < |SideWeights(side, c)| && Sum(c.buyWeights) + Sum(c.sellWeights) != 0.0 && price != 0.0
  {
    f.quantize(Leaned(Allotted(side, i, c) / price, Lean(side, p, c)))
  }

  function Leaned(amount: real, lean: real): real { amount * lean }

  /** Something at the level forbids another order there. */
  ghost predicate Blocked(es: seq<Executor>, side: Side, i: nat, f: Feed, c: Config) {
    var level := Quote(side, i);
    || (exists e | e in es :: e.level == level && e.active && !e.trading)
    || ActiveCount(es, level) >= c.maxActive
    || (exists e | e in es :: e.level == level && e.lastUpdate.Some?
                              && f.now - e.lastUpdate.value < if side == Buy then c.buyCooldown else c.sellCooldown)
    || (exists e | e in es :: e.level == level && e.active
                              && (if side == Buy then e.entryPrice - f.reference else f.reference - e.entryPrice)
                                 < f.reference * (c.distanceTolerance * Power(c.toleranceScaling, i)))
  }

  /** What the position asks of a side: only growth below the band, only shrinking above it, and with profit
      protection inside the band only growth at a loss below target and only shrinking at a gain above it. */
  predicate Wanted(side: Side, p: Position, f: Feed, c: Config) {
    if p.basePct < c.minBase then Grows(side, c)
    else if p.basePct > c.maxBase then !Grows(side, c)
    else
      c.profitProtection && p.breakeven.Some? && p.breakeven.value > 0.0 ==>
        var gain := if c.isShort then p.breakeven.value - f.reference else f.reference - p.breakeven.value;
        && (gain < 0.0 && p.basePct < c.targetBase ==> Grows(side, c))
        && (gain > 0.0 && p.basePct > c.targetBase ==> !Grows(side, c))
  }

  /** Under profit protection a shrinking order may not realise a loss. */
  predicate Unprofitable(side: Side, price: real, p: Position, c: Config) {
    && c.profitProtection && !Grows(side, c) && p.breakeven.Some? && p.breakeven.value > 0.0
    && (if c.isShort then p.breakeven.value < price else price < p.breakeven.value)
  }

  /** The tolerance grows by its scaling from level to level. */
  lemma {:induction false} PowerAdds(x: real, m: nat, n: nat)
    ensures Power(x, 0) == 1.0 && Power(x, 1) == x
    ensures Power(x, m + n) == Power(x, m) * Power(x, n)
  {
    if m > 0 {
      PowerAdds(x, m - 1, n);
      assert x * (Power(x, m - 1) * Power(x, n)) == x * Power(x, m - 1) * Power(x, n);
    }
  }

  // ------------------------------------------------------------------ the terms are those of the code

  lemma QuotedIsPrice(side: Side, i: nat, f: Feed, c: Config)
    requires i < |SideSpreads(side, c)|
    ensures Levels(side, c) == |SideSpreads(side, c)| && OrderPrice(Quote(side, i), f, c) == QuotedAt(side, i, f, c)
  {
    var spread := SideSpreads(side, c)[i];
    assert SpreadInPct(side, i, f, c) == spread * f.spreadMultiplier;
    assert f.reference * (1.0 - spread * f.spreadMultiplier) == f.reference - f.reference * f.spreadMultiplier * spread;
    assert f.reference * (1.0 + spread * f.spreadMultiplier) == f.reference + f.reference * f.spreadMultiplier * spread;
  }

  lemma LeanIsSkew(side: Side, p: Position, c: Config)
    ensures Skew(side, p.basePct, c) == Lean(side, p, c)
  {
  }

  lemma AllottedIsAmount(side: Side, i: nat, c: Config)
    requires i < |SideWeights(side, c)| && Sum(c.buyWeights) + Sum(c.sellWeights) != 0.0
    ensures TotalWeight(c) != 0.0 && i < |Weights(side, c)| && QuoteAmount(Quote(side, i), c) == Allotted(side, i, c)
  {
    hide Sum;
  }

  lemma {:induction false} UntradedExists(es: seq<Executor>, level: Level)
    ensures UntradedCount(es, level) > 0 <==> exists e | e in es :: e.level == level && e.active && !e.trading
  {
    if es != [] {
      var n := |es| - 1;
      assert es == es[..n] + [es[n]];
      UntradedExists(es[..n], level);
      if e :| e in es && e.level == level && e.active && !e.trading {
        assert e in es[..n] || e == es[n];
      }
    }
  }

  lemma DistanceBelow(side: Side, entry: real, reference: real, t: real)
    requires reference > 0.0
    ensures Distance(side, entry, reference) < t
       <==> (if side == Buy then entry - reference else reference - entry) < reference * t
  {
    var x := if side == Buy then entry - reference else reference - entry;
    var q := x / reference;
    assert q * reference == x;
    assert (t - q) * reference == reference * t - x;
  }

  lemma BlockedIsWorking(es: seq<Executor>, side: Side, i: nat, f: Feed, c: Config)
    requires f.reference > 0.0
    ensures Working(es, Quote(side, i), f, c) <==> Blocked(es, side, i, f, c)
  {
    hide ActiveCount, UntradedCount, Power, Distance;
    var level := Quote(side, i);
    UntradedExists(es, level);
    forall e | e in es
      ensures Distance(side, e.entryPrice, f.reference) < DistanceTolerance(i, c)
         <==> (if side == Buy then e.entryPrice - f.reference else f.reference - e.entryPrice)
              < f.reference * (c.distanceTolerance * Power(c.toleranceScaling, i))
    {
      DistanceBelow(side, e.entryPrice, f.reference, DistanceTolerance(i, c));
    }
  }

  lemma {:induction false} MissingIff(es: seq<Executor>, side: Side, n: nat, f: Feed, c: Config, level: Level)
    requires f.reference > 0.0
    ensures level in Missing(es, side, n, f, c)
       <==> level.Quote? && level.side == side && level.index < n && !Working(es, level, f, c)
  {
    hide Working;
    if n > 0 {
      MissingIff(es, side, n - 1, f, c, level);
    }
  }

  lemma ExecutableIff(es: seq<Executor>, p: Position, f: Feed, c: Config, side: Side, i: nat)
    requires f.reference > 0.0
    ensures Quote(side, i) in Executable(es, p, f, c)
       <==> i < |SideSpreads(side, c)| && !Blocked(es, side, i, f, c) && Wanted(side, p, f, c)
  {
    hide Working, Blocked, Missing;
    MissingIff(es, Buy, Levels(Buy, c), f, c, Quote(side, i));
    MissingIff(es, Sell, Levels(Sell, c), f, c, Quote(side, i));
    BlockedIsWorking(es, side, i, f, c);
  }

  lemma {:induction false} OrdersInclude(levels: seq<Level>, p: Position, f: Feed, c: Config, level: Level)
    requires Priceable(f, c) && (forall level | level in levels :: Configured(level, c)) && level in levels
    ensures Configured(level, c)
    ensures LevelOrder(level, p, f, c).Some? ==> LevelOrder(level, p, f, c).value in Orders(levels, p, f, c)
  {
    hide LevelOrder, Priceable, Configured;
    var n := |levels| - 1;
    assert levels == levels[..n] + [levels[n]];
    if level in levels[..n] {
      OrdersInclude(levels[..n], p, f, c, level);
    }
  }

  lemma OrderOfTerms(side: Side, i: nat, p: Position, f: Feed, c: Config, price: real, amount: real)
    requires Priceable(f, c) && i < |SideSpreads(side, c)|
    ensures QuotedAt(side, i, f, c) != 0.0
    ensures LevelOrder(Quote(side, i), p, f, c) == Some(EntryOrder(Quote(side, i), price, amount))
       <==> && price == QuotedAt(side, i, f, c)
            && amount == Stake(side, i, price, p, f, c) != 0.0 && !Unprofitable(side, price, p, c)
  {
    hide LevelOrder, OrderAmount, Stake, OrderPrice, QuotedAt, TotalWeight, Unprofitable, Priceable;
    WeightsAre(f, c);
    QuotedIsPrice(side, i, f, c);
    var level, own := Quote(side, i), QuotedAt(side, i, f, c);
    PriceNonZero(level, f, c);
    AmountIsTerm(side, i, p, f, c, own);
    OrderInParts(level, p, f, c, own, Stake(side, i, own, p, f, c));
    UnprofitableIsLosing(side, own, p, c);
  }

  lemma OrderInParts(level: Level, p: Position, f: Feed, c: Config, price: real, amount: real)
    requires Priceable(f, c) && Configured(level, c) && level.index < |Weights(level.side, c)|
    requires price == OrderPrice(level, f, c) != 0.0 && amount == OrderAmount(level, price, p, f, c)
    ensures LevelOrder(level, p, f, c)
         == if amount == 0.0 || (c.profitProtection && !Accumulates(level.side, c) && LosingSide(price, p, c)) then None
            else Some(EntryOrder(level, price, amount))
  {
    hide OrderPrice, OrderAmount;
  }

  lemma AmountIsTerm(side: Side, i: nat, p: Position, f: Feed, c: Config, price: real)
    requires Sum(c.buyWeights) + Sum(c.sellWeights) != 0.0 && i < |SideWeights(side, c)| && price != 0.0
    ensures TotalWeight(c) != 0.0 && i < |Weights(side, c)|
    ensures OrderAmount(Quote(side, i), price, p, f, c) == Stake(side, i, price, p, f, c)
  {
    hide Skew, QuoteAmount, Lean, Allotted, InBase, Leaned, Sum;
    LeanIsSkew(side, p, c);
    AllottedIsAmount(side, i, c);
    InBaseIs(Allotted(side, i, c), price, Lean(side, p, c));
  }

  lemma InBaseIs(quote: real, price: real, skew: real)
    requires price != 0.0
    ensures InBase(quote, price, skew) == Leaned(quote / price, skew)
  {
  }

  lemma WeightsAre(f: Feed, c: Config)
    requires Priceable(f, c)
    ensures Sum(c.buyWeights) + Sum(c.sellWeights) != 0.0
    ensures |c.buyWeights| == |c.buySpreads| && |c.sellWeights| == |c.sellSpreads|
  {
  }

  lemma UnprofitableIsLosing(side: Side, price: real, p: Position, c: Config)
    ensures Unprofitable(side, price, p, c) <==> c.profitProtection && !Accumulates(side, c) && LosingSide(price, p, c)
  {
  }

  // ------------------------------------------------------------------ the proposal

  /** A level gets an order exactly when nothing blocks it, the position wants its side, the rounded amount is not
      zero and no loss would be realised; the price and the amount are the level's own. */
  lemma EntryIff(es: seq<Executor>, p: Position, f: Feed, c: Config, side: Side, i: nat, price: real, amount: real)
    requires Priceable(f, c)
    ensures EntryOrder(Quote(side, i), price, amount) in Proposal(es, p, f, c)
       <==> && i < |SideSpreads(side, c)| && !Blocked(es, side, i, f, c) && Wanted(side, p, f, c)
            && price == QuotedAt(side, i, f, c) != 0.0
            && amount == Stake(side, i, price, p, f, c) != 0.0
            && !Unprofitable(side, price, p, c)
  {
    hide Executable, Blocked, Wanted, LevelOrder, Orders, QuotedAt, Stake, Unprofitable;
    var a, levels := EntryOrder(Quote(side, i), price, amount), Executable(es, p, f, c);
    ExecutableIsConfigured(es, p, f, c);
    ExecutableIff(es, p, f, c, side, i);
    OrdersComeFrom(levels, p, f, c);
    if i < |SideSpreads(side, c)| {
      OrderOfTerms(side, i, p, f, c, price, amount);
      if Quote(side, i) in levels {
        OrdersInclude(levels, p, f, c, Quote(side, i));
      }
    }
  }

  lemma EntryPrice(es: seq<Executor>, p: Position, f: Feed, c: Config, a: Action)
    requires Priceable(f, c) && a in Proposal(es, p, f, c)
    ensures a.EntryOrder? && a.level.Quote? && a.level.index < |SideSpreads(a.level.side, c)|
    ensures a.price == QuotedAt(a.level.side, a.level.index, f, c)
  {
    hide Executable, Blocked, Wanted, LevelOrder, Orders, QuotedAt, Stake, Unprofitable;
    ExecutableIsConfigured(es, p, f, c);
    OrdersComeFrom(Executable(es, p, f, c), p, f, c);
    EntryIff(es, p, f, c, a.level.side, a.level.index, a.price, a.amount);
  }

  /** With spreads that are not negative the orders of a tick never cross: no buy is above the reference price, no
      sell below it, and on each side the wider spread lies at least as far away. */
  lemma EntriesNeverCross(es: seq<Executor>, p: Position, f: Feed, c: Config, a: Action, b: Action)
    requires Priceable(f, c) && a in Proposal(es, p, f, c) && b in Proposal(es, p, f, c)
    requires f.spreadMultiplier >= 0.0
    requires forall i | 0 <= i < |c.buySpreads| :: c.buySpreads[i] >= 0.0
    requires forall i | 0 <= i < |c.sellSpreads| :: c.sellSpreads[i] >= 0.0
    ensures a.EntryOrder? && a.level.Quote? && b.EntryOrder? && b.level.Quote?
    ensures if a.level.side == Buy then a.price <= f.reference else a.price >= f.reference
    ensures a.level.side == Buy && b.level.side == Sell ==> a.price <= b.price
    ensures a.level.index < |SideSpreads(a.level.side, c)| && b.level.index < |SideSpreads(b.level.side, c)|
    ensures a.level.side == b.level.side
            && SideSpreads(a.level.side, c)[a.level.index] <= SideSpreads(b.level.side, c)[b.level.index] ==>
              if a.level.side == Buy then b.price <= a.price else a.price <= b.price
  {
    hide Proposal, Gap;
    EntryPrice(es, p, f, c, a);
    EntryPrice(es, p, f, c, b);
    var near, far := SideSpreads(a.level.side, c)[a.level.index], SideSpreads(b.level.side, c)[b.level.index];
    GapNonNegative(f, near);
    GapNonNegative(f, far);
    if near <= far {
      GapGrows(f, near, far);
    }
  }

  lemma GapNonNegative(f: Feed, spread: real)
    requires f.reference > 0.0 && f.spreadMultiplier >= 0.0 && spread >= 0.0
    ensures Gap(f, spread) >= 0.0
  {
    ProductSign(f.reference, f.spreadMultiplier);
    ProductSign(f.reference * f.spreadMultiplier, spread);
  }

  lemma GapGrows(f: Feed, near: real, far: real)
    requires f.reference > 0.0 && f.spreadMultiplier >= 0.0 && near <= far
    ensures Gap(f, near) <= Gap(f, far)
  {
    GapNonNegative(f, far - near);
    assert Gap(f, far - near) == Gap(f, far) - Gap(f, near);
  }
}
