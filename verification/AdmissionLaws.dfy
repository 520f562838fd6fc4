/** What every proposal of pmm_mister keeps: per-level caps, the side the position asks for,
    no loss taken under profit protection, and the allocated budget. */
module AdmissionLaws {
  import opened Results
  import opened RealFacts
  import opened PmmMisterModel
  import opened LevelAdmission

  // ------------------------------------------------------------------ who may quote

  lemma {:induction false} OrdersComeFrom(levels: seq<Level>, p: Position, f: Feed, c: Config)
    requires Priceable(f, c) && forall level | level in levels :: Configured(level, c)
    ensures forall a | a in Orders(levels, p, f, c) ::
              a.EntryOrder? && a.level in levels && LevelOrder(a.level, p, f, c) == Some(a)
  {
    hide OrderPrice, OrderAmount, Skew, QuoteAmount, Priceable;
    if levels != [] {
      assert forall level | level in levels[..|levels| - 1] :: level in levels;
      OrdersComeFrom(levels[..|levels| - 1], p, f, c);
    }
  }

  /** Every entry order is for a configured level with room, far enough from its open entries. */
  lemma EntryIsAdmitted(es: seq<Executor>, p: Position, f: Feed, c: Config, a: Action)
    requires Priceable(f, c) && a in Proposal(es, p, f, c)
    ensures a.EntryOrder? && Configured(a.level, c) && LevelOrder(a.level, p, f, c) == Some(a)
    ensures UntradedCount(es, a.level) == 0 && ActiveCount(es, a.level) < c.maxActive
    ensures forall e | e in es && e.level == a.level && e.lastUpdate.Some? ::
              f.now - e.lastUpdate.value >= Cooldown(a.level.side, c)
    ensures forall e | e in es && e.level == a.level && e.active ::
              Distance(a.level.side, e.entryPrice, f.reference) >= DistanceTolerance(a.level.index, c)
  {
    hide OrderPrice, OrderAmount, LevelOrder, Distance, DistanceTolerance, Cooldown;
    ExecutableIsConfigured(es, p, f, c);
    OrdersComeFrom(Executable(es, p, f, c), p, f, c);
  }

  lemma ChosenSides(es: seq<Executor>, p: Position, f: Feed, c: Config, level: Level)
    requires f.reference > 0.0 && level in Executable(es, p, f, c)
    ensures level.Quote?
    ensures p.basePct < c.minBase ==> Accumulates(level.side, c)
    ensures p.basePct >= c.minBase && p.basePct > c.maxBase ==> !Accumulates(level.side, c)
  {
    hide Working, Missing;
    MissingIsConfigured(es, Buy, Levels(Buy, c), f, c);
    MissingIsConfigured(es, Sell, Levels(Sell, c), f, c);
  }

  /** Below the minimum position only accumulating orders are created, above the maximum only
      reducing ones, and under profit protection no reducing order is priced past breakeven. */
  lemma EntryServesPosition(es: seq<Executor>, p: Position, f: Feed, c: Config, a: Action)
    requires Priceable(f, c) && a in Proposal(es, p, f, c)
    ensures a.EntryOrder? && a.level.Quote?
    ensures p.basePct < c.minBase ==> Accumulates(a.level.side, c)
    ensures p.basePct >= c.minBase && p.basePct > c.maxBase ==> !Accumulates(a.level.side, c)
    ensures c.profitProtection && !Accumulates(a.level.side, c) && p.breakeven.Some? && p.breakeven.value > 0.0 ==>
              if c.isShort then a.price <= p.breakeven.value else a.price >= p.breakeven.value
  {
    hide OrderPrice, OrderAmount, Executable;
    ExecutableIsConfigured(es, p, f, c);
    OrdersComeFrom(Executable(es, p, f, c), p, f, c);
    ChosenSides(es, p, f, c, a.level);
  }

  // ------------------------------------------------------------------ one order per level

  function OrdersAt(actions: seq<Action>, level: Level): nat {
    if actions == [] then 0
    else
      var last := actions[|actions| - 1];
      OrdersAt(actions[..|actions| - 1], level) + if last.EntryOrder? && last.level == level then 1 else 0
  }

  function Occurrences(levels: seq<Level>, level: Level): nat {
    if levels == [] then 0
    else Occurrences(levels[..|levels| - 1], level) + if levels[|levels| - 1] == level then 1 else 0
  }

  lemma {:induction false} OccurrencesConcat(a: seq<Level>, b: seq<Level>, level: Level)
    ensures Occurrences(a + b, level) == Occurrences(a, level) + Occurrences(b, level)
  {
    if b == [] {
      assert a + b == a;
    } else {
      assert (a + b)[..|a + b| - 1] == a + b[..|b| - 1];
      OccurrencesConcat(a, b[..|b| - 1], level);
    }
  }

  lemma {:induction false} MissingOnce(es: seq<Executor>, side: Side, n: nat, f: Feed, c: Config, level: Level)
    requires f.reference > 0.0
    ensures Occurrences(Missing(es, side, n, f, c), level)
            <= if level.Quote? && level.side == side && level.index < n then 1 else 0
  {
    hide Working;
    if n > 0 {
      MissingOnce(es, side, n - 1, f, c, level);
      OccurrencesConcat(Missing(es, side, n - 1, f, c), [Quote(side, n - 1)], level);
      assert Missing(es, side, n - 1, f, c) + [] == Missing(es, side, n - 1, f, c);
    }
  }

  lemma ExecutableOnce(es: seq<Executor>, p: Position, f: Feed, c: Config, level: Level)
    requires f.reference > 0.0
    ensures Occurrences(Executable(es, p, f, c), level) <= 1
  {
    hide Missing, Occurrences;
    var buys, sells := Missing(es, Buy, Levels(Buy, c), f, c), Missing(es, Sell, Levels(Sell, c), f, c);
    MissingOnce(es, Buy, Levels(Buy, c), f, c, level);
    MissingOnce(es, Sell, Levels(Sell, c), f, c, level);
    OccurrencesConcat(buys, sells, level);
  }

  lemma OrdersAtSnoc(actions: seq<Action>, a: Action, level: Level)
    ensures OrdersAt(actions + [a], level) == OrdersAt(actions, level) + if a.EntryOrder? && a.level == level then 1 else 0
  {
    assert (actions + [a])[..|actions|] == actions;
  }

  lemma NoneCounted(level: Level)
    ensures OrdersAt([], level) == 0 == Occurrences([], level)
  {
  }

  lemma OccurrencesLast(levels: seq<Level>, level: Level)
    requires levels != []
    ensures Occurrences(levels, level)
         == Occurrences(levels[..|levels| - 1], level) + if levels[|levels| - 1] == level then 1 else 0
  {
  }

  lemma OrderOfLevel(level: Level, p: Position, f: Feed, c: Config)
    requires Priceable(f, c) && Configured(level, c) && LevelOrder(level, p, f, c).Some?
    ensures LevelOrder(level, p, f, c).value.EntryOrder? && LevelOrder(level, p, f, c).value.level == level
  {
    hide OrderPrice, OrderAmount;
  }

  lemma {:induction false} OrdersAtMost(levels: seq<Level>, p: Position, f: Feed, c: Config, level: Level)
    requires Priceable(f, c) && forall l | l in levels :: Configured(l, c)
    ensures OrdersAt(Orders(levels, p, f, c), level) <= Occurrences(levels, level)
  {
    hide LevelOrder, OrdersAt, Occurrences, Priceable, Configured;
    if levels == [] {
      NoneCounted(level);
    } else {
      var init, last := levels[..|levels| - 1], levels[|levels| - 1];
      assert last in levels;
      assert forall l | l in init :: l in levels;
      OrdersAtMost(init, p, f, c, level);
      OccurrencesLast(levels, level);
      var order := LevelOrder(last, p, f, c);
      if order.Some? {
        OrderOfLevel(last, p, f, c);
        OrdersAtSnoc(Orders(init, p, f, c), order.value, level);
      } else {
        assert Orders(init, p, f, c) + [] == Orders(init, p, f, c);
      }
    }
  }

  /** No level receives two orders in one tick. */
  lemma OneOrderPerLevel(es: seq<Executor>, p: Position, f: Feed, c: Config, level: Level)
    requires Priceable(f, c)
    ensures OrdersAt(Proposal(es, p, f, c), level) <= 1
  {
    hide Executable, Orders, OrdersAt;
    ExecutableIsConfigured(es, p, f, c);
    ExecutableOnce(es, p, f, c, level);
    OrdersAtMost(Executable(es, p, f, c), p, f, c, level);
  }

  // ------------------------------------------------------------------ the budget

  lemma SharesAdd(v: real, w: real, total: real, c: Config)
    requires total != 0.0
    ensures Share(v, total, c) + Share(w, total, c) == Share(v + w, total, c)
  {
    var x, y := v / total, w / total;
    assert (v + w) / total == x + y;
    var k := c.totalQuote * c.allocation;
    assert x * c.totalQuote * c.allocation == x * k && y * c.totalQuote * c.allocation == y * k;
    assert (x + y) * c.totalQuote * c.allocation == (x + y) * k;
  }

  lemma {:induction false} SplitSum(weights: seq<real>, total: real, c: Config)
    requires total != 0.0
    ensures Sum(Split(weights, total, c)) == Share(Sum(weights), total, c)
  {
    hide Share;
    if weights == [] {
      NothingShared(total, c);
    } else {
      var init := weights[..|weights| - 1];
      assert Split(weights, total, c)[..|weights| - 1] == Split(init, total, c);
      SplitSum(init, total, c);
      SharesAdd(Sum(init), weights[|weights| - 1], total, c);
    }
  }

  lemma NothingShared(total: real, c: Config)
    requires total != 0.0
    ensures Share(0.0, total, c) == 0.0
  {
    assert 0.0 / total == 0.0;
  }

  lemma WholeShared(total: real, c: Config)
    requires total != 0.0
    ensures Share(total, total, c) == AllocatedBudget(c)
  {
    assert total / total == 1.0;
  }

  /** The quote amounts of all buy and sell levels add up to exactly the allocated budget. */
  lemma SplitIsExact(c: Config)
    requires TotalWeight(c) != 0.0
    ensures Sum(QuoteAmounts(Buy, c)) + Sum(QuoteAmounts(Sell, c)) == AllocatedBudget(c)
  {
    hide Sum, Split, Share, AllocatedBudget;
    SplitSum(c.buyWeights, TotalWeight(c), c);
    SplitSum(c.sellWeights, TotalWeight(c), c);
    SharesAdd(Sum(c.buyWeights), Sum(c.sellWeights), TotalWeight(c), c);
    WholeShared(TotalWeight(c), c);
  }

  function Notional(actions: seq<Action>): real {
    if actions == [] then 0.0
    else
      var last := actions[|actions| - 1];
      Notional(actions[..|actions| - 1]) + if last.EntryOrder? then last.amount * last.price else 0.0
  }

  /** The exchange rounds amounts down, and every level's price is positive. */
  ghost predicate MarketSettings(f: Feed, c: Config) {
    && (forall x: real :: f.quantize(x) <= x)
    && (forall level | Configured(level, c) :: OrderPrice(level, f, c) > 0.0)
  }

  /** Settings under which the split is a budget at all. */
  ghost predicate BudgetWeights(c: Config) {
    && TotalWeight(c) > 0.0 && c.totalQuote >= 0.0 && c.allocation >= 0.0
    && (forall i | 0 <= i < |c.buyWeights| :: c.buyWeights[i] >= 0.0)
    && (forall i | 0 <= i < |c.sellWeights| :: c.sellWeights[i] >= 0.0)
  }

  /** No skew above one: either the minimum is not, or the band is empty and the skew is one. */
  predicate SkewCapped(c: Config) { c.minSkew <= 1.0 || c.maxBase <= c.minBase }

  ghost predicate BudgetSettings(f: Feed, c: Config) { MarketSettings(f, c) && BudgetWeights(c) && SkewCapped(c) }

  lemma SkewAtMostOne(side: Side, basePct: real, c: Config)
    requires SkewCapped(c)
    ensures Skew(side, basePct, c) <= 1.0
  {
    hide Accumulates;
  }

  lemma RoundedWithin(amount: real, quote: real, price: real, skew: real)
    requires price > 0.0 && quote >= 0.0 && skew <= 1.0 && amount <= quote / price * skew
    ensures amount * price <= quote
  {
    var x := quote / price;
    assert x * price == quote;
    assert (x * skew - amount) * price >= 0.0;
    assert x * skew * price == quote * skew;
    assert quote * (1.0 - skew) >= 0.0;
  }

  lemma ShareNonNegative(w: real, total: real, t: real, a: real)
    requires w >= 0.0 && total > 0.0 && t >= 0.0 && a >= 0.0
    ensures w / total * t * a >= 0.0
  {
    assert w / total >= 0.0;
    assert w / total * t >= 0.0;
  }

  /** One level's order never spends more than the level's share, and never a negative share. */
  lemma OrderWithinShare(level: Level, p: Position, f: Feed, c: Config)
    requires Priceable(f, c) && Configured(level, c) && BudgetSettings(f, c)
    requires LevelOrder(level, p, f, c).Some?
    ensures var a := LevelOrder(level, p, f, c).value;
            a.amount * a.price <= QuoteAmount(level, c)
    ensures QuoteAmount(level, c) >= 0.0
  {
    hide OrderPrice, Skew, LosingSide, Accumulates;
    var price := OrderPrice(level, f, c);
    ShareNonNegative(Weights(level.side, c)[level.index], TotalWeight(c), c.totalQuote, c.allocation);
    SkewAtMostOne(level.side, p.basePct, c);
    RoundedWithin(OrderAmount(level, price, p, f, c), QuoteAmount(level, c), price, Skew(level.side, p.basePct, c));
  }

  function QuoteTotal(levels: seq<Level>, c: Config): real
    requires TotalWeight(c) != 0.0
    requires forall level | level in levels :: level.Quote? && level.index < |Weights(level.side, c)|
  {
    if levels == [] then 0.0
    else
      assert forall level | level in levels[..|levels| - 1] :: level in levels;
      QuoteTotal(levels[..|levels| - 1], c) + QuoteAmount(levels[|levels| - 1], c)
  }

  lemma ShareOfLevel(level: Level, f: Feed, c: Config)
    requires Priceable(f, c) && Configured(level, c) && BudgetSettings(f, c)
    ensures level.index < |Weights(level.side, c)| && QuoteAmount(level, c) >= 0.0
  {
    ShareNonNegative(Weights(level.side, c)[level.index], TotalWeight(c), c.totalQuote, c.allocation);
  }

  ghost predicate Weighted(levels: seq<Level>, c: Config) {
    forall level | level in levels :: level.Quote? && level.index < |Weights(level.side, c)|
  }

  lemma NotionalSnoc(actions: seq<Action>, a: Action)
    requires a.EntryOrder?
    ensures Notional(actions + [a]) == Notional(actions) + a.amount * a.price
  {
    assert (actions + [a])[..|actions|] == actions;
  }

  lemma {:induction false} OrdersWithinTotal(levels: seq<Level>, p: Position, f: Feed, c: Config)
    requires Priceable(f, c) && BudgetSettings(f, c) && Weighted(levels, c)
    requires forall level | level in levels :: Configured(level, c)
    ensures Notional(Orders(levels, p, f, c)) <= QuoteTotal(levels, c)
  {
    hide LevelOrder, QuoteAmount, Priceable, BudgetSettings, Notional, Configured;
    if levels == [] {
      assert Notional([]) == 0.0 by { NotionalOfNone(); }
    } else {
      var init, last := levels[..|levels| - 1], levels[|levels| - 1];
      assert last in levels;
      assert forall level | level in init :: level in levels;
      OrdersWithinTotal(init, p, f, c);
      ShareOfLevel(last, f, c);
      var order := LevelOrder(last, p, f, c);
      if order.Some? {
        OrderShape(last, p, f, c);
        OrderWithinShare(last, p, f, c);
        NotionalSnoc(Orders(init, p, f, c), order.value);
      } else {
        assert Orders(init, p, f, c) + [] == Orders(init, p, f, c);
      }
    }
  }

  lemma NotionalOfNone()
    ensures Notional([]) == 0.0
  {
  }

  lemma OrderShape(level: Level, p: Position, f: Feed, c: Config)
    requires Priceable(f, c) && Configured(level, c) && LevelOrder(level, p, f, c).Some?
    ensures LevelOrder(level, p, f, c).value.EntryOrder?
  {
    hide OrderPrice, OrderAmount;
  }

  lemma {:induction false} MissingTotal(es: seq<Executor>, side: Side, n: nat, f: Feed, c: Config)
    requires Priceable(f, c) && BudgetSettings(f, c) && n <= Levels(side, c)
    ensures Weighted(Missing(es, side, n, f, c), c)
    ensures n <= |QuoteAmounts(side, c)|
         && QuoteTotal(Missing(es, side, n, f, c), c) <= Sum(QuoteAmounts(side, c)[..n])
  {
    hide Working, QuoteAmounts, BudgetSettings, QuoteTotal, QuoteAmount, Sum;
    MissingIsConfigured(es, side, n, f, c);
    var amounts := QuoteAmounts(side, c);
    if n == 0 {
      QuoteTotalOfNone(c);
      assert amounts[..0] == [];
      SumOfNone();
    } else {
      MissingTotal(es, side, n - 1, f, c);
      SumPrefix(amounts, n - 1);
      var level := Quote(side, n - 1);
      ShareOfLevel(level, f, c);
      AmountOfLevel(level, c);
      var before := Missing(es, side, n - 1, f, c);
      if Working(es, level, f, c) {
        assert before + [] == before;
      } else {
        QuoteTotalSnoc(before, level, c);
      }
    }
  }

  lemma AmountOfLevel(level: Level, c: Config)
    requires level.Quote? && TotalWeight(c) != 0.0 && level.index < |Weights(level.side, c)|
    ensures QuoteAmount(level, c) == QuoteAmounts(level.side, c)[level.index]
  {
  }

  lemma SumOfNone()
    ensures Sum([]) == 0.0
  {
  }

  lemma QuoteTotalOfNone(c: Config)
    requires TotalWeight(c) != 0.0
    ensures QuoteTotal([], c) == 0.0
  {
  }

  lemma SumPrefix(xs: seq<real>, n: nat)
    requires n < |xs|
    ensures Sum(xs[..n + 1]) == Sum(xs[..n]) + xs[n]
  {
    assert xs[..n + 1][..n] == xs[..n];
  }

  lemma QuoteTotalSnoc(levels: seq<Level>, level: Level, c: Config)
    requires TotalWeight(c) != 0.0 && Weighted(levels, c) && Weighted(levels + [level], c)
    ensures level.Quote? && level.index < |Weights(level.side, c)|
    ensures QuoteTotal(levels + [level], c) == QuoteTotal(levels, c) + QuoteAmount(level, c)
  {
    hide QuoteAmount;
    assert level in levels + [level];
    assert (levels + [level])[..|levels|] == levels;
  }

  lemma SideTotal(es: seq<Executor>, side: Side, f: Feed, c: Config)
    requires Priceable(f, c) && BudgetSettings(f, c)
    ensures var missing := Missing(es, side, Levels(side, c), f, c);
            Weighted(missing, c) && QuoteTotal(missing, c) <= Sum(QuoteAmounts(side, c))
    ensures 0.0 <= Sum(QuoteAmounts(side, c))
  {
    hide BudgetSettings, Missing, Sum, QuoteAmounts, QuoteTotal;
    MissingTotal(es, side, Levels(side, c), f, c);
    var amounts := QuoteAmounts(side, c);
    assert amounts[..Levels(side, c)] == amounts;
    AmountsNonNegative(side, f, c);
  }

  lemma {:induction false} SumNonNegative(xs: seq<real>)
    requires forall i | 0 <= i < |xs| :: xs[i] >= 0.0
    ensures Sum(xs) >= 0.0
  {
    if xs != [] {
      SumNonNegative(xs[..|xs| - 1]);
    }
  }

  lemma AmountsNonNegative(side: Side, f: Feed, c: Config)
    requires Priceable(f, c) && BudgetSettings(f, c)
    ensures Sum(QuoteAmounts(side, c)) >= 0.0
  {
    hide Sum, Split, BudgetSettings;
    forall i | 0 <= i < |QuoteAmounts(side, c)| ensures QuoteAmounts(side, c)[i] >= 0.0 {
      ShareOfLevel(Quote(side, i), f, c);
    }
    SumNonNegative(QuoteAmounts(side, c));
  }

  lemma {:induction false} QuoteTotalConcat(a: seq<Level>, b: seq<Level>, c: Config)
    requires TotalWeight(c) != 0.0 && Weighted(a, c) && Weighted(b, c) && Weighted(a + b, c)
    ensures QuoteTotal(a + b, c) == QuoteTotal(a, c) + QuoteTotal(b, c)
  {
    hide QuoteAmount;
    if b == [] {
      assert a + b == a;
    } else {
      var init := b[..|b| - 1];
      assert (a + b)[..|a + b| - 1] == a + init;
      assert forall level | level in init :: level in b;
      assert forall level | level in a + init :: level in a + b;
      QuoteTotalConcat(a, init, c);
    }
  }

  lemma ExecutableTotal(es: seq<Executor>, p: Position, f: Feed, c: Config)
    requires Priceable(f, c) && BudgetSettings(f, c)
    ensures var levels := Executable(es, p, f, c);
            Weighted(levels, c) && QuoteTotal(levels, c) <= Sum(QuoteAmounts(Buy, c)) + Sum(QuoteAmounts(Sell, c))
  {
    hide BudgetSettings, Missing, Sum, QuoteAmounts, QuoteTotal;
    var buys, sells := Missing(es, Buy, Levels(Buy, c), f, c), Missing(es, Sell, Levels(Sell, c), f, c);
    SideTotal(es, Buy, f, c);
    SideTotal(es, Sell, f, c);
    QuoteTotalConcat(buys, sells, c);
  }

  /** The orders of one tick never commit more quote than the allocated budget. */
  lemma ProposalWithinBudget(es: seq<Executor>, p: Position, f: Feed, c: Config)
    requires Priceable(f, c) && BudgetSettings(f, c)
    ensures Notional(Proposal(es, p, f, c)) <= AllocatedBudget(c)
  {
    hide BudgetSettings, Executable, Sum, QuoteAmounts, QuoteTotal, Orders, Notional, AllocatedBudget, Weighted;
    ExecutableIsConfigured(es, p, f, c);
    ExecutableTotal(es, p, f, c);
    OrdersWithinTotal(Executable(es, p, f, c), p, f, c);
    SplitIsExact(c);
  }
}
