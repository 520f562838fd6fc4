/** When the orders of a pmm_mister tick stay within the allocated budget: exactly when no skew can exceed one. */
module BudgetBound {
  import opened Results
  import opened RealFacts
  import opened PmmMisterModel
  import opened LevelAdmission
  import opened AdmissionLaws

  /** A market whose amounts need no rounding. */
  ghost predicate Exact(f: Feed) { forall x: real :: f.quantize(x) == x }

  /** The base inside its band and no entry price to protect: both sides may quote. */
  predicate InBand(p: Position, c: Config) { c.minBase <= p.basePct <= c.maxBase && p.breakeven.None? }

  /** One such market for any configuration: at this multiplier every level sits at the reference. */
  const FLAT := Feed(1.0, 0.0, 0.0, x => x)

  lemma FlatIsPriceable(c: Config)
    requires TotalWeight(c) > 0.0 && |c.buyWeights| == |c.buySpreads| && |c.sellWeights| == |c.sellSpreads|
    ensures Priceable(FLAT, c) && MarketSettings(FLAT, c)
  {
    hide TotalWeight;
    forall level | Configured(level, c) ensures OrderPrice(level, FLAT, c) == 1.0 {
      assert Spreads(level.side, c)[level.index] * 0.0 == 0.0;
    }
  }

  lemma NothingWorks(level: Level, f: Feed, c: Config)
    requires level.Quote? && f.reference > 0.0 && c.maxActive >= 1
    ensures !Working([], level, f, c)
  {
  }

  /** With nothing listed every level quotes, so the levels of a side hold its whole share. */
  lemma {:induction false} AllMissing(side: Side, n: nat, f: Feed, c: Config)
    requires Priceable(f, c) && c.maxActive >= 1 && n <= Levels(side, c)
    ensures Weighted(Missing([], side, n, f, c), c)
    ensures n <= |QuoteAmounts(side, c)|
         && QuoteTotal(Missing([], side, n, f, c), c) == Sum(QuoteAmounts(side, c)[..n])
  {
    hide Working, QuoteAmounts, QuoteTotal, QuoteAmount, Sum;
    MissingIsConfigured([], side, n, f, c);
    var amounts := QuoteAmounts(side, c);
    if n == 0 {
      QuoteTotalOfNone(c);
      assert amounts[..0] == [];
      SumOfNone();
    } else {
      AllMissing(side, n - 1, f, c);
      SumPrefix(amounts, n - 1);
      var level := Quote(side, n - 1);
      AmountOfLevel(level, c);
      NothingWorks(level, f, c);
      QuoteTotalSnoc(Missing([], side, n - 1, f, c), level, c);
    }
  }

  lemma AllExecutable(p: Position, f: Feed, c: Config)
    requires Priceable(f, c) && c.maxActive >= 1 && InBand(p, c)
    ensures var levels := Executable([], p, f, c);
            Weighted(levels, c) && QuoteTotal(levels, c) == AllocatedBudget(c)
  {
    hide Missing, Sum, QuoteAmounts, QuoteTotal, AllocatedBudget;
    var buys, sells := Missing([], Buy, Levels(Buy, c), f, c), Missing([], Sell, Levels(Sell, c), f, c);
    AllMissing(Buy, Levels(Buy, c), f, c);
    AllMissing(Sell, Levels(Sell, c), f, c);
    WholeSide(Buy, f, c);
    WholeSide(Sell, f, c);
    QuoteTotalConcat(buys, sells, c);
    SplitIsExact(c);
  }

  lemma WholeSide(side: Side, f: Feed, c: Config)
    requires Priceable(f, c)
    ensures QuoteAmounts(side, c)[..Levels(side, c)] == QuoteAmounts(side, c)
  {
    hide Split;
  }

  lemma SkewedNotional(quote: real, price: real, skew: real)
    requires price != 0.0
    ensures (quote / price * skew) * price == skew * quote
  {
    var x := quote / price;
    assert x * price == quote;
    assert x * skew * price == skew * (x * price);
  }

  function OrderNotional(order: Option<Action>): real {
    if order.Some? && order.value.EntryOrder? then order.value.amount * order.value.price else 0.0
  }

  function Scaled(x: real, k: real): real { k * x }

  /** Each level spends its share times the minimum skew. */
  lemma LevelSpends(level: Level, p: Position, f: Feed, c: Config)
    requires Priceable(f, c) && Exact(f) && InBand(p, c) && Configured(level, c) && !SkewCapped(c)
    ensures var order := LevelOrder(level, p, f, c);
            (order.Some? ==> order.value.EntryOrder?)
            && OrderNotional(order) == Scaled(QuoteAmount(level, c), c.minSkew)
  {
    hide OrderPrice, QuoteAmount, Accumulates;
    assert Skew(level.side, p.basePct, c) == c.minSkew;
    PriceNonZero(level, f, c);
    SkewedNotional(QuoteAmount(level, c), OrderPrice(level, f, c), c.minSkew);
  }

  lemma ScaledAdds(x: real, y: real, k: real)
    ensures Scaled(x + y, k) == Scaled(x, k) + Scaled(y, k) && Scaled(0.0, k) == 0.0
  {
  }

  lemma {:induction false} OrdersSpend(levels: seq<Level>, p: Position, f: Feed, c: Config)
    requires Priceable(f, c) && Exact(f) && InBand(p, c) && !SkewCapped(c) && TotalWeight(c) != 0.0 && Weighted(levels, c)
    requires forall level | level in levels :: Configured(level, c)
    ensures Notional(Orders(levels, p, f, c)) == Scaled(QuoteTotal(levels, c), c.minSkew)
  {
    hide LevelOrder, QuoteAmount, Priceable, SkewCapped, Notional, Configured, Scaled, InBand;
    if levels == [] {
      NotionalOfNone();
      ScaledAdds(0.0, 0.0, c.minSkew);
    } else {
      var init, last := levels[..|levels| - 1], levels[|levels| - 1];
      assert last in levels;
      assert forall level | level in init :: level in levels;
      OrdersSpend(init, p, f, c);
      LevelSpends(last, p, f, c);
      ScaledAdds(QuoteTotal(init, c), QuoteAmount(last, c), c.minSkew);
      var order := LevelOrder(last, p, f, c);
      if order.Some? {
        NotionalSnoc(Orders(init, p, f, c), order.value);
      } else {
        assert Orders(init, p, f, c) + [] == Orders(init, p, f, c);
      }
    }
  }

  /** With a minimum skew above one and a non-empty band, every tick that starts with nothing
      listed and the base in its band quotes all levels and spends the budget that many times over. */
  lemma SkewAboveOneOverspends(p: Position, f: Feed, c: Config)
    requires Priceable(f, c) && Exact(f) && InBand(p, c)
    requires !SkewCapped(c) && c.maxActive >= 1 && AllocatedBudget(c) > 0.0
    ensures Notional(Proposal([], p, f, c)) == c.minSkew * AllocatedBudget(c) > AllocatedBudget(c)
  {
    hide Executable, Notional, Proposal, Orders, QuoteTotal, AllocatedBudget, TotalWeight, Priceable, MarketSettings,
         InBand, Scaled, Weighted, Configured;
    Above(AllocatedBudget(c), c.minSkew);
    WholeProposal(p, f, c);
    OrdersSpend(Executable([], p, f, c), p, f, c);
    ScaledIs(AllocatedBudget(c), c.minSkew);
  }

  lemma WholeProposal(p: Position, f: Feed, c: Config)
    requires Priceable(f, c) && InBand(p, c) && c.maxActive >= 1
    ensures f.reference > 0.0 && TotalWeight(c) != 0.0
    ensures var levels := Executable([], p, f, c);
      && Weighted(levels, c) && QuoteTotal(levels, c) == AllocatedBudget(c)
      && (forall level | level in levels :: Configured(level, c))
      && Proposal([], p, f, c) == Orders(levels, p, f, c)
  {
    hide Executable, Orders, QuoteTotal, AllocatedBudget, TotalWeight, Configured, InBand, Weighted;
    ExecutableIsConfigured([], p, f, c);
    AllExecutable(p, f, c);
  }

  lemma ScaledIs(x: real, k: real)
    ensures Scaled(x, k) == k * x
  {
  }

  lemma Above(x: real, k: real)
    requires x > 0.0 && k > 1.0
    ensures k * x > x
  {
    assert (k - 1.0) * x > 0.0;
  }

  /** Every tick of a configuration, whatever is listed and whatever the market, stays within the
      allocated budget exactly when no skew can exceed one. */
  lemma BudgetKeptIff(c: Config)
    requires BudgetWeights(c) && AllocatedBudget(c) > 0.0 && c.maxActive >= 1
    requires |c.buyWeights| == |c.buySpreads| && |c.sellWeights| == |c.sellSpreads|
    ensures (forall es, p, f | Priceable(f, c) && MarketSettings(f, c) ::
               Notional(Proposal(es, p, f, c)) <= AllocatedBudget(c))
       <==> SkewCapped(c)
  {
    hide Notional, Proposal, Priceable, MarketSettings, AllocatedBudget;
    if SkewCapped(c) {
      forall es, p, f | Priceable(f, c) && MarketSettings(f, c)
        ensures Notional(Proposal(es, p, f, c)) <= AllocatedBudget(c)
      {
        ProposalWithinBudget(es, p, f, c);
      }
    } else {
      FlatIsPriceable(c);
      SkewAboveOneOverspends(Position(0.0, c.minBase, 0.0, None, None), FLAT, c);
    }
  }
}
