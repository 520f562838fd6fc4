/** The entry order of the single-position controller: quoted price, frozen barriers and a
    notional that the cash profit cap cannot turn into a worse bet. */
module PositionSizing {
  import opened Results
  import opened RealFacts
  import opened MeanReversion

  /** Controller settings beside the mean-reversion ones. */
  datatype Budget = Budget(totalAmountQuote: real, takeProfitQuote: real, leverage: nat,
                           quoteOffset: real, maxBidAskSpread: real)
  {
    predicate Valid() {
      totalAmountQuote > 0.0 && takeProfitQuote > 0.0 && 1 <= leverage <= 5
      && 0.0 <= quoteOffset < 1.0 && 0.0 < maxBidAskSpread < 1.0
    }
  }

  /** What the exchange provides: the book, its rounding of prices and amounts, its minima. */
  datatype Market = Market(bid: real, ask: real, quantizePrice: real -> real, quantizeAmount: real -> real,
                           minOrderSize: real, minNotional: real)

  datatype Entry = Entry(isBuy: bool, price: real, amount: real, leverage: nat, barriers: Barriers)

  function Mid(m: Market): real { (m.bid + m.ask) / 2.0 }

  /** Never better than the own side of the book, and at least the offset away from the middle. */
  function RawPrice(m: Market, isBuy: bool, b: Budget): real {
    if isBuy then Min(m.bid, Mid(m) * (1.0 - b.quoteOffset)) else Max(m.ask, Mid(m) * (1.0 + b.quoteOffset))
  }

  function QuotedPrice(m: Market, isBuy: bool, b: Budget): real { m.quantizePrice(RawPrice(m, isBuy, b)) }

  /** The largest notional whose loss at the stop, costs included, is covered by the cash target. */
  function RiskBudget(stopLoss: real, s: Settings, b: Budget): real
    requires s.Valid() && stopLoss > 0.0
  {
    assert s.minRewardRisk * (stopLoss + s.roundTripCost) > 0.0;
    b.takeProfitQuote / (s.minRewardRisk * (stopLoss + s.roundTripCost))
  }

  function Sized(isBuy: bool, price: real, barriers: Barriers, m: Market, s: Settings, b: Budget): Result<Entry>
    requires s.Valid() && barriers.stopLoss > 0.0 && price > 0.0
  {
    var notional := Min(b.totalAmountQuote, RiskBudget(barriers.stopLoss, s, b));
    var amount := m.quantizeAmount(notional / price);
    if amount <= 0.0 || amount < m.minOrderSize || amount * price < m.minNotional then
      Err("Budget below exchange minimum order size")
    else if amount * price > notional then Err("Quantized order exceeds notional budget")
    else Ok(Entry(isBuy, price, amount, b.leverage, barriers))
  }

  lemma AcceptedStopPositive(snapshot: Snapshot, price: real, s: Settings)
    requires s.Valid() && snapshot.std > 0.0 && CalculateBarriers(snapshot, price, s).Ok?
    ensures price > 0.0 && CalculateBarriers(snapshot, price, s).value.stopLoss > 0.0
  {
    hide Reward, Target, ReversionSide;
  }

  function EntryOrder(snapshot: Snapshot, m: Market, s: Settings, b: Budget): Result<Entry>
    requires s.Valid() && snapshot.std > 0.0
  {
    if !(0.0 < m.bid < m.ask) then Err("Invalid order book")
    else if (m.ask - m.bid) / Mid(m) > b.maxBidAskSpread then Err("Bid/ask spread too wide")
    else
      var isBuy := snapshot.signal == 1;
      var price := QuotedPrice(m, isBuy, b);
      if price <= 0.0 || (isBuy && price >= m.ask) || (!isBuy && price <= m.bid) then
        Err("Quantized price would cross the book")
      else if CalculateBarriers(snapshot, price, s).Err? then Err(CalculateBarriers(snapshot, price, s).error)
      else
        AcceptedStopPositive(snapshot, price, s);
        Sized(isBuy, price, CalculateBarriers(snapshot, price, s).value, m, s, b)
  }

  // ------------------------------------------------------------------ what the barriers promise

  lemma ScoreToPrice(z: real, d: real, std: real, bound: real)
    requires std > 0.0 && z == d / std
    ensures z <= -bound ==> d <= -(bound * std)
    ensures z >= bound ==> d >= bound * std
  {
    assert z * std == d;
    if z <= -bound { assert (z + bound) * std <= 0.0; }
    if z >= bound { assert (z - bound) * std >= 0.0; }
  }

  lemma SideBand(z: real, s: Settings)
    requires s.Valid() && ReversionSide(z, s) != 0
    ensures ReversionSide(z, s) == 1 ==> -s.maxEntryZ <= z <= -s.entryZ
    ensures ReversionSide(z, s) != 1 ==> ReversionSide(z, s) == -1 && s.entryZ <= z <= s.maxEntryZ
  {
  }

  lemma MarginArithmetic(mean: real, entry: real, std: real, entryZ: real, exitZ: real)
    ensures (mean - exitZ * std) - (mean - entryZ * std) == (entryZ - exitZ) * std
    ensures (mean + entryZ * std) - (mean + exitZ * std) == (entryZ - exitZ) * std
  {
  }

  /** The frozen target lies on the profit side of the entry by at least (entryZ - exitZ) deviations. */
  lemma TargetOnProfitSide(snapshot: Snapshot, entry: real, s: Settings)
    requires s.Valid() && snapshot.std > 0.0 && CalculateBarriers(snapshot, entry, s).Ok?
    ensures var target := CalculateBarriers(snapshot, entry, s).value.targetPrice;
            && (snapshot.signal == 1 || snapshot.signal == -1)
            && (snapshot.signal == 1 ==> target - entry >= (s.entryZ - s.exitZ) * snapshot.std)
            && (snapshot.signal == -1 ==> entry - target >= (s.entryZ - s.exitZ) * snapshot.std)
            && (s.entryZ - s.exitZ) * snapshot.std > 0.0
  {
    hide Reward, Stop, ReversionSide;
    var d := entry - snapshot.mean;
    var z := d / snapshot.std;
    SideBand(z, s);
    ScoreToPrice(z, d, snapshot.std, s.entryZ);
    MarginArithmetic(snapshot.mean, entry, snapshot.std, s.entryZ, s.exitZ);
    BarrierFields(snapshot, entry, s);
  }

  lemma BarrierFields(snapshot: Snapshot, entry: real, s: Settings)
    requires s.Valid() && snapshot.std > 0.0 && CalculateBarriers(snapshot, entry, s).Ok?
    ensures var b := CalculateBarriers(snapshot, entry, s).value;
            && entry > 0.0 && snapshot.signal == ReversionSide((entry - snapshot.mean) / snapshot.std, s) != 0
            && b.targetPrice == Target(snapshot, s)
            && b.takeProfit == Reward(snapshot, entry, s)
            && b.stopLoss == Stop(snapshot, entry, s)
            && s.minStopLoss <= b.stopLoss <= s.maxStopLoss
            && b.takeProfit - s.roundTripCost >= s.minNetEdge
            && (b.takeProfit - s.roundTripCost) / (b.stopLoss + s.roundTripCost) >= s.minRewardRisk
  {
    hide Reward, Target, ReversionSide;
  }

  // ------------------------------------------------------------------ what the sizing preserves

  lemma QuotientAtLeast(x: real, y: real, t: real)
    requires y > 0.0 && x / y >= t
    ensures x >= t * y
  {
    var q := x / y;
    assert q * y == x;
    assert (q - t) * y >= 0.0;
  }

  lemma RiskCovered(n: real, ratio: real, risk: real, cap: real, budget: real)
    requires n > 0.0 && ratio > 0.0 && risk > 0.0 && ratio * risk > 0.0
    requires budget == cap / (ratio * risk) && n <= budget
    ensures ratio * (n * risk) <= cap
    ensures n * risk <= cap / ratio
  {
    var unit := ratio * risk;
    assert budget * unit == cap;
    assert (budget - n) * unit >= 0.0;
    assert n * unit == ratio * (n * risk);
    var q := cap / ratio;
    assert q * ratio == cap;
    assert (q - n * risk) * ratio >= 0.0;
  }

  lemma NetRewardCovers(n: real, net: real, ratio: real, risk: real)
    requires n > 0.0 && net >= ratio * risk
    ensures n * net >= ratio * (n * risk)
  {
    assert n * (net - ratio * risk) >= 0.0;
    assert n * (ratio * risk) == ratio * (n * risk);
  }

  lemma PositiveProduct(x: real, y: real)
    requires x > 0.0 && y > 0.0
    ensures x * y > 0.0
  {
  }

  /** Every order sent: its loss at the stop stays within the cash target over the ratio, the
      smaller of cash target and price target still pays `minRewardRisk` times that loss, and its
      notional never exceeds the budget, whatever the leverage. */
  lemma SizingKeepsRewardRisk(snapshot: Snapshot, m: Market, s: Settings, b: Budget)
    requires s.Valid() && b.Valid() && snapshot.std > 0.0 && EntryOrder(snapshot, m, s, b).Ok?
    ensures var e := EntryOrder(snapshot, m, s, b).value;
            var n, risk := e.amount * e.price, e.barriers.stopLoss + s.roundTripCost;
            && 0.0 < n <= b.totalAmountQuote
            && n * risk <= b.takeProfitQuote / s.minRewardRisk
            && b.takeProfitQuote >= s.minRewardRisk * (n * risk)
            && n * (e.barriers.takeProfit - s.roundTripCost) >= s.minRewardRisk * (n * risk)
  {
    hide Reward, Stop, Target, ReversionSide, QuotedPrice, Mid, CalculateBarriers, Sized, RiskBudget;
    var price := QuotedPrice(m, snapshot.signal == 1, b);
    BarrierFields(snapshot, price, s);
    SizedKeepsRewardRisk(snapshot.signal == 1, price, CalculateBarriers(snapshot, price, s).value, m, s, b);
  }

  lemma SizedWithin(isBuy: bool, price: real, barriers: Barriers, m: Market, s: Settings, b: Budget)
    requires s.Valid() && price > 0.0 && barriers.stopLoss > 0.0 && Sized(isBuy, price, barriers, m, s, b).Ok?
    ensures var e := Sized(isBuy, price, barriers, m, s, b).value;
            && e.price == price && e.barriers == barriers && e.amount > 0.0
            && e.amount * price <= b.totalAmountQuote && e.amount * price <= RiskBudget(barriers.stopLoss, s, b)
  {
    hide RiskBudget;
  }

  lemma SizedKeepsRewardRisk(isBuy: bool, price: real, barriers: Barriers, m: Market, s: Settings, b: Budget)
    requires s.Valid() && b.Valid() && price > 0.0 && barriers.stopLoss > 0.0
    requires (barriers.takeProfit - s.roundTripCost) / (barriers.stopLoss + s.roundTripCost) >= s.minRewardRisk
    requires Sized(isBuy, price, barriers, m, s, b).Ok?
    ensures var e := Sized(isBuy, price, barriers, m, s, b).value;
            e.price == price && e.barriers == barriers
    ensures var e := Sized(isBuy, price, barriers, m, s, b).value;
            var n, risk := e.amount * price, barriers.stopLoss + s.roundTripCost;
            && 0.0 < n <= b.totalAmountQuote
            && n * risk <= b.takeProfitQuote / s.minRewardRisk
            && b.takeProfitQuote >= s.minRewardRisk * (n * risk)
            && n * (barriers.takeProfit - s.roundTripCost) >= s.minRewardRisk * (n * risk)
  {
    hide Sized;
    var e := Sized(isBuy, price, barriers, m, s, b).value;
    var n, risk := e.amount * price, barriers.stopLoss + s.roundTripCost;
    SizedWithin(isBuy, price, barriers, m, s, b);
    PositiveProduct(e.amount, price);
    PositiveProduct(s.minRewardRisk, risk);
    RiskCovered(n, s.minRewardRisk, risk, b.takeProfitQuote, RiskBudget(barriers.stopLoss, s, b));
    QuotientAtLeast(barriers.takeProfit - s.roundTripCost, risk, s.minRewardRisk);
    NetRewardCovers(n, barriers.takeProfit - s.roundTripCost, s.minRewardRisk, risk);
  }

  /** The order joins its own side of the book and trades towards the mean. */
  lemma EntryIsPassive(snapshot: Snapshot, m: Market, s: Settings, b: Budget)
    requires s.Valid() && snapshot.std > 0.0 && EntryOrder(snapshot, m, s, b).Ok?
    ensures var e := EntryOrder(snapshot, m, s, b).value;
            && e.isBuy == (snapshot.signal == 1)
            && (e.isBuy ==> e.price < m.ask && e.barriers.targetPrice - e.price >= (s.entryZ - s.exitZ) * snapshot.std)
            && (!e.isBuy ==> e.price > m.bid && e.price - e.barriers.targetPrice >= (s.entryZ - s.exitZ) * snapshot.std)
            && (s.entryZ - s.exitZ) * snapshot.std > 0.0
  {
    hide QuotedPrice, Mid, CalculateBarriers, RiskBudget;
    TargetOnProfitSide(snapshot, QuotedPrice(m, snapshot.signal == 1, b), s);
  }
}
