/** The cross-exchange market making controller: one batch of executors per side at a time, and
    the imbalance of filled executors bounded by the limit and the number of levels. */
module XemmLevels {
  datatype Side = Buy | Sell

  /** A configured level: the profitability it aims for and its weight within the side. */
  datatype Level = Level(target: real, amount: real)

  datatype Config = Config(buys: seq<Level>, sells: seq<Level>, totalQuote: real,
                           minProfitability: real, maxProfitability: real, maxImbalance: int)

  datatype Executor = Executor(side: Side, done: bool, filled: bool)

  datatype Order = Order(side: Side, amount: real, minProfit: real, target: real, maxProfit: real)

  function Sum(levels: seq<Level>): real {
    if levels == [] then 0.0 else Sum(levels[..|levels| - 1]) + levels[|levels| - 1].amount
  }

  // ------------------------------------------------------------------ counting executors

  function Active(es: seq<Executor>, side: Side): nat {
    if es == [] then 0
    else
      var last := es[|es| - 1];
      Active(es[..|es| - 1], side) + if !last.done && last.side == side then 1 else 0
  }

  function Filled(es: seq<Executor>, side: Side): nat {
    if es == [] then 0
    else
      var last := es[|es| - 1];
      Filled(es[..|es| - 1], side) + if last.done && last.filled && last.side == side then 1 else 0
  }

  function Imbalance(es: seq<Executor>): int { Filled(es, Buy) - Filled(es, Sell) }

  // ------------------------------------------------------------------ one tick

  function LevelOrder(side: Side, level: Level, total: real, mid: real, c: Config): Order
    requires total != 0.0 && mid != 0.0
  {
    Order(side, level.amount / total * (c.totalQuote * 0.5) / mid,
          level.target - c.minProfitability, level.target, level.target + c.maxProfitability)
  }

  function SideOrders(side: Side, levels: seq<Level>, total: real, mid: real, c: Config): seq<Order>
    requires levels != [] ==> total != 0.0
    requires mid != 0.0
  {
    if levels == [] then []
    else
      var n := |levels| - 1;
      SideOrders(side, levels[..n], total, mid, c) + [LevelOrder(side, levels[n], total, mid, c)]
  }

  /** Weights and a mid price the amounts can be divided by. */
  predicate Divisible(mid: real, c: Config) {
    && mid != 0.0 && (c.buys != [] ==> Sum(c.buys) != 0.0) && (c.sells != [] ==> Sum(c.sells) != 0.0)
  }

  /** A side quotes all of its levels when it has nothing active and its imbalance limit is not met. */
  function Orders(es: seq<Executor>, mid: real, c: Config): seq<Order>
    requires Divisible(mid, c)
  {
    (if Active(es, Buy) == 0 && Imbalance(es) < c.maxImbalance
     then SideOrders(Buy, c.buys, Sum(c.buys), mid, c) else [])
    + (if Active(es, Sell) == 0 && Imbalance(es) > -c.maxImbalance
       then SideOrders(Sell, c.sells, Sum(c.sells), mid, c) else [])
  }

  /** The per-level test counts every active executor of the side, whatever its target. */
  method DetermineExecutorActions(es: seq<Executor>, mid: real, c: Config) returns (orders: seq<Order>)
    requires Divisible(mid, c)
    ensures orders == Orders(es, mid, c)
  {
    hide LevelOrder, Active, Filled, Sum;
    var activeBuys, activeSells := Active(es, Buy), Active(es, Sell);
    var imbalance := Filled(es, Buy) - Filled(es, Sell);
    var totalBuy, totalSell := Sum(c.buys), Sum(c.sells);
    orders := [];
    for i := 0 to |c.buys|
      invariant orders == if activeBuys == 0 && imbalance < c.maxImbalance
                          then SideOrders(Buy, c.buys[..i], totalBuy, mid, c) else []
    {
      assert c.buys[..i + 1][..i] == c.buys[..i];
      if activeBuys == 0 && imbalance < c.maxImbalance {
        orders := orders + [LevelOrder(Buy, c.buys[i], totalBuy, mid, c)];
      }
    }
    assert c.buys[..|c.buys|] == c.buys;
    ghost var buyOrders := orders;
    for i := 0 to |c.sells|
      invariant orders == buyOrders + if activeSells == 0 && imbalance > -c.maxImbalance
                                      then SideOrders(Sell, c.sells[..i], totalSell, mid, c) else []
    {
      assert c.sells[..i + 1][..i] == c.sells[..i];
      if activeSells == 0 && imbalance > -c.maxImbalance {
        ghost var before := SideOrders(Sell, c.sells[..i], totalSell, mid, c);
        var order := LevelOrder(Sell, c.sells[i], totalSell, mid, c);
        assert buyOrders + (before + [order]) == buyOrders + before + [order];
        orders := orders + [order];
      }
    }
    assert c.sells[..|c.sells|] == c.sells;
  }

  // ------------------------------------------------------------------ the orders in plain terms

  /** The order of one level: its part of half the total at the mid price, and the profitability band around its target. */
  predicate OrderFor(o: Order, side: Side, level: Level, total: real, mid: real, c: Config) {
    && o.side == side && o.target == level.target
    && o.minProfit + c.minProfitability == level.target && o.maxProfit == level.target + c.maxProfitability
    && 2.0 * (o.amount * mid * total) == level.amount * c.totalQuote
  }

  lemma OrderForIs(o: Order, side: Side, level: Level, total: real, mid: real, c: Config)
    requires total != 0.0 && mid != 0.0
    ensures o == LevelOrder(side, level, total, mid, c) <==> OrderFor(o, side, level, total, mid, c)
  {
    var x := level.amount / total * (c.totalQuote * 0.5);
    AmountTimes(level.amount, total, mid, c);
    assert x / mid * mid == x;
    if OrderFor(o, side, level, total, mid, c) {
      SameProduct(o.amount, x / mid, mid, total);
    }
  }

  lemma AmountTimes(amount: real, total: real, mid: real, c: Config)
    requires total != 0.0 && mid != 0.0
    ensures 2.0 * (amount / total * (c.totalQuote * 0.5) / mid * mid * total) == amount * c.totalQuote
  {
    var q := amount / total;
    assert q * total == amount;
    var x := q * (c.totalQuote * 0.5);
    assert x / mid * mid == x;
    assert x * total == q * total * (c.totalQuote * 0.5);
  }

  lemma SameProduct(a: real, b: real, mid: real, total: real)
    requires mid != 0.0 && total != 0.0 && a * mid * total == b * mid * total
    ensures a == b
  {
    assert (a * mid - b * mid) * total == 0.0;
    assert (a - b) * mid == 0.0;
  }

  lemma {:induction false} SideOrdersAt(side: Side, levels: seq<Level>, total: real, mid: real, c: Config, i: nat)
    requires total != 0.0 && mid != 0.0 && i < |levels|
    ensures i < |SideOrders(side, levels, total, mid, c)|
         && OrderFor(SideOrders(side, levels, total, mid, c)[i], side, levels[i], total, mid, c)
  {
    hide LevelOrder, OrderFor;
    var n := |levels| - 1;
    SideSize(side, levels[..n], total, mid, c);
    if i < n {
      SideOrdersAt(side, levels[..n], total, mid, c, i);
    } else {
      OrderForIs(LevelOrder(side, levels[n], total, mid, c), side, levels[n], total, mid, c);
    }
  }

  lemma {:induction false} NobodyActive(es: seq<Executor>, side: Side)
    ensures Active(es, side) == 0 <==> !exists e | e in es :: !e.done && e.side == side
  {
    if es != [] {
      var n := |es| - 1;
      assert es == es[..n] + [es[n]];
      NobodyActive(es[..n], side);
    }
  }

  /** A side quotes exactly when none of its executors is active and the imbalance has not reached its limit; then
      every level gets its own order, in order, buys first. */
  lemma OrdersTerms(es: seq<Executor>, mid: real, c: Config)
    requires Divisible(mid, c)
    ensures var buys, sells := (if (exists e | e in es :: !e.done && e.side == Buy) || Imbalance(es) >= c.maxImbalance
                                then 0 else |c.buys|),
                               (if (exists e | e in es :: !e.done && e.side == Sell) || Imbalance(es) <= -c.maxImbalance
                                then 0 else |c.sells|);
            var orders := Orders(es, mid, c);
      && |orders| == buys + sells
      && (forall i | 0 <= i < buys :: OrderFor(orders[i], Buy, c.buys[i], Sum(c.buys), mid, c))
      && (forall i | 0 <= i < sells :: OrderFor(orders[buys + i], Sell, c.sells[i], Sum(c.sells), mid, c))
  {
    hide Active, Filled, Sum, SideOrders, OrderFor;
    NobodyActive(es, Buy);
    NobodyActive(es, Sell);
    SideSize(Buy, c.buys, Sum(c.buys), mid, c);
    SideSize(Sell, c.sells, Sum(c.sells), mid, c);
    forall i | 0 <= i < |c.buys|
      ensures OrderFor(SideOrders(Buy, c.buys, Sum(c.buys), mid, c)[i], Buy, c.buys[i], Sum(c.buys), mid, c)
    {
      SideOrdersAt(Buy, c.buys, Sum(c.buys), mid, c, i);
    }
    forall i | 0 <= i < |c.sells|
      ensures OrderFor(SideOrders(Sell, c.sells, Sum(c.sells), mid, c)[i], Sell, c.sells[i], Sum(c.sells), mid, c)
    {
      SideOrdersAt(Sell, c.sells, Sum(c.sells), mid, c, i);
    }
  }

  // ------------------------------------------------------------------ the side's budget

  function Value(order: Order, mid: real): real { order.amount * mid }

  function Notional(orders: seq<Order>, mid: real): real {
    if orders == [] then 0.0 else Notional(orders[..|orders| - 1], mid) + Value(orders[|orders| - 1], mid)
  }

  /** A weight's part of half the total, in quote. */
  function Scaled(weight: real, total: real, c: Config): real
    requires total != 0.0
  {
    weight * (c.totalQuote * 0.5 / total)
  }

  lemma ScaledAdds(v: real, w: real, total: real, c: Config)
    requires total != 0.0
    ensures Scaled(v + w, total, c) == Scaled(v, total, c) + Scaled(w, total, c)
  {
  }

  lemma OrderNotional(side: Side, level: Level, total: real, mid: real, c: Config)
    requires total != 0.0 && mid != 0.0
    ensures Value(LevelOrder(side, level, total, mid, c), mid) == Scaled(level.amount, total, c)
  {
    var half, share := c.totalQuote * 0.5, level.amount / total;
    assert share * total == level.amount;
    var unit := half / total;
    assert unit * total == half;
    assert share * half == share * (unit * total) == unit * (share * total);
  }

  lemma {:induction false} SideNotional(side: Side, levels: seq<Level>, total: real, mid: real, c: Config)
    requires total != 0.0 && mid != 0.0
    ensures Notional(SideOrders(side, levels, total, mid, c), mid) == Scaled(Sum(levels), total, c)
  {
    hide LevelOrder, Scaled, Value;
    ScaledAdds(0.0, 0.0, total, c);
    if levels != [] {
      var n := |levels| - 1;
      SideNotional(side, levels[..n], total, mid, c);
      OrderNotional(side, levels[n], total, mid, c);
      ScaledAdds(Sum(levels[..n]), levels[n].amount, total, c);
      assert SideOrders(side, levels, total, mid, c)[..n] == SideOrders(side, levels[..n], total, mid, c) by {
        SideSize(side, levels[..n], total, mid, c);
      }
      SideSize(side, levels, total, mid, c);
    }
  }

  lemma {:induction false} SideSize(side: Side, levels: seq<Level>, total: real, mid: real, c: Config)
    requires levels != [] ==> total != 0.0
    requires mid != 0.0
    ensures |SideOrders(side, levels, total, mid, c)| == |levels|
    ensures forall o | o in SideOrders(side, levels, total, mid, c) :: o.side == side
  {
    if levels != [] {
      SideSize(side, levels[..|levels| - 1], total, mid, c);
    }
  }

  /** A side that quotes commits exactly half of the total quote amount. */
  lemma HalfPerSide(side: Side, levels: seq<Level>, mid: real, c: Config)
    requires mid != 0.0 && Sum(levels) != 0.0
    ensures Notional(SideOrders(side, levels, Sum(levels), mid, c), mid) == c.totalQuote * 0.5
  {
    hide LevelOrder, SideOrders, Sum;
    SideNotional(side, levels, Sum(levels), mid, c);
    var unit := c.totalQuote * 0.5 / Sum(levels);
    assert unit * Sum(levels) == c.totalQuote * 0.5;
  }

  // ------------------------------------------------------------------ runs

  function Started(orders: seq<Order>): seq<Executor> {
    seq(|orders|, i requires 0 <= i < |orders| => Executor(orders[i].side, false, false))
  }

  /** One controller tick, or one executor ending, filled or not; ended executors stay in the list. */
  ghost predicate Step(es: seq<Executor>, es': seq<Executor>, c: Config) {
    || (exists mid :: Divisible(mid, c) && es' == es + Started(Orders(es, mid, c)))
    || (exists k: nat, filled :: k < |es| && !es[k].done && es' == es[k := Executor(es[k].side, true, filled)])
  }

  ghost predicate Leads(es: seq<Executor>, es': seq<Executor>, c: Config, n: nat)
    decreases n
  {
    if n == 0 then es == es'
    else exists middle :: Leads(es, middle, c, n - 1) && Step(middle, es', c)
  }

  /** Filled executors plus the ones in flight stay within the limit and one batch. */
  ghost predicate Bounded(es: seq<Executor>, c: Config) {
    && Imbalance(es) + Active(es, Buy) <= c.maxImbalance - 1 + |c.buys|
    && Imbalance(es) - Active(es, Sell) >= -(c.maxImbalance - 1 + |c.sells|)
  }

  lemma {:induction false} CountsConcat(a: seq<Executor>, b: seq<Executor>, side: Side)
    ensures Active(a + b, side) == Active(a, side) + Active(b, side)
    ensures Filled(a + b, side) == Filled(a, side) + Filled(b, side)
  {
    if b == [] {
      assert a + b == a;
    } else {
      assert (a + b)[..|a + b| - 1] == a + b[..|b| - 1];
      CountsConcat(a, b[..|b| - 1], side);
    }
  }

  lemma CountsOne(e: Executor, side: Side)
    ensures Active([e], side) == if !e.done && e.side == side then 1 else 0
    ensures Filled([e], side) == if e.done && e.filled && e.side == side then 1 else 0
  {
    assert [e][..0] == [];
  }

  lemma CountsReplaced(es: seq<Executor>, k: nat, e: Executor, side: Side)
    requires k < |es|
    ensures Active(es[k := e], side) - Active([e], side) == Active(es, side) - Active([es[k]], side)
    ensures Filled(es[k := e], side) - Filled([e], side) == Filled(es, side) - Filled([es[k]], side)
  {
    hide Active, Filled;
    assert es == es[..k] + [es[k]] + es[k + 1..];
    assert es[k := e] == es[..k] + [e] + es[k + 1..];
    CountsConcat(es[..k] + [es[k]], es[k + 1..], side);
    CountsConcat(es[..k], [es[k]], side);
    CountsConcat(es[..k] + [e], es[k + 1..], side);
    CountsConcat(es[..k], [e], side);
  }

  lemma EndKeepsBound(es: seq<Executor>, k: nat, filled: bool, c: Config)
    requires k < |es| && !es[k].done && Bounded(es, c)
    ensures Bounded(es[k := Executor(es[k].side, true, filled)], c)
  {
    hide Active, Filled;
    var e := Executor(es[k].side, true, filled);
    forall side: Side
      ensures Active(es[k := e], side) - Active([e], side) == Active(es, side) - Active([es[k]], side)
      ensures Filled(es[k := e], side) - Filled([e], side) == Filled(es, side) - Filled([es[k]], side)
    {
      CountsReplaced(es, k, e, side);
    }
    CountsOne(e, Buy);
    CountsOne(e, Sell);
    CountsOne(es[k], Buy);
    CountsOne(es[k], Sell);
  }

  lemma {:induction false} StartedCounts(orders: seq<Order>, side: Side)
    ensures Filled(Started(orders), side) == 0 && Active(Started(orders), side) <= |orders|
    ensures (forall o | o in orders :: o.side == side) ==> Active(Started(orders), side) == |orders|
    ensures (forall o | o in orders :: o.side != side) ==> Active(Started(orders), side) == 0
  {
    if orders != [] {
      var n := |orders| - 1;
      assert Started(orders)[..n] == Started(orders[..n]);
      assert orders[n] in orders;
      assert forall o | o in orders[..n] :: o in orders;
      StartedCounts(orders[..n], side);
    }
  }

  /** What one tick adds to each side: nothing, or the whole batch if nothing was active there. */
  lemma TickAdds(es: seq<Executor>, mid: real, c: Config, side: Side)
    requires Divisible(mid, c)
    ensures var started := Started(Orders(es, mid, c));
      && Filled(started, side) == 0
      && Active(started, side) ==
         if Active(es, side) != 0 then 0
         else if side == Buy then (if Imbalance(es) < c.maxImbalance then |c.buys| else 0)
         else if Imbalance(es) > -c.maxImbalance then |c.sells| else 0
  {
    hide Active, Filled, SideOrders, Sum;
    var buys := if Active(es, Buy) == 0 && Imbalance(es) < c.maxImbalance
                then SideOrders(Buy, c.buys, Sum(c.buys), mid, c) else [];
    var sells := if Active(es, Sell) == 0 && Imbalance(es) > -c.maxImbalance
                 then SideOrders(Sell, c.sells, Sum(c.sells), mid, c) else [];
    SideSize(Buy, c.buys, Sum(c.buys), mid, c);
    SideSize(Sell, c.sells, Sum(c.sells), mid, c);
    assert Started(buys + sells) == Started(buys) + Started(sells);
    CountsConcat(Started(buys), Started(sells), side);
    StartedCounts(buys, side);
    StartedCounts(sells, side);
  }

  lemma TickKeepsBound(es: seq<Executor>, mid: real, c: Config)
    requires Divisible(mid, c) && Bounded(es, c)
    ensures Bounded(es + Started(Orders(es, mid, c)), c)
  {
    hide Active, Filled, Orders, Started;
    TickAdds(es, mid, c, Buy);
    TickAdds(es, mid, c, Sell);
    CountsConcat(es, Started(Orders(es, mid, c)), Buy);
    CountsConcat(es, Started(Orders(es, mid, c)), Sell);
  }

  lemma StepKeepsBound(es: seq<Executor>, es': seq<Executor>, c: Config)
    requires Step(es, es', c) && Bounded(es, c)
    ensures Bounded(es', c)
  {
    hide Bounded, Orders, Started, Divisible;
    if mid :| Divisible(mid, c) && es' == es + Started(Orders(es, mid, c)) {
      TickKeepsBound(es, mid, c);
    } else {
      var k: nat, filled :| k < |es| && !es[k].done && es' == es[k := Executor(es[k].side, true, filled)];
      EndKeepsBound(es, k, filled, c);
    }
  }

  lemma {:induction false} LeadsKeepsBound(es: seq<Executor>, es': seq<Executor>, c: Config, n: nat)
    requires Leads(es, es', c, n) && Bounded(es, c)
    ensures Bounded(es', c)
    decreases n
  {
    hide Step, Bounded;
    if n > 0 {
      var middle :| Leads(es, middle, c, n - 1) && Step(middle, es', c);
      LeadsKeepsBound(es, middle, c, n - 1);
      StepKeepsBound(middle, es', c);
    }
  }

  /** Along every run, however executors end: the imbalance overshoots the limit by less than one batch. */
  lemma ImbalanceBounded(es: seq<Executor>, c: Config, n: nat)
    requires c.maxImbalance >= 1 && Leads([], es, c, n)
    ensures -(c.maxImbalance - 1 + |c.sells|) <= Imbalance(es) <= c.maxImbalance - 1 + |c.buys|
  {
    LeadsKeepsBound([], es, c, n);
  }

  // ------------------------------------------------------------------ the bound is reached

  lemma {:induction false} LeadsOn(es: seq<Executor>, middle: seq<Executor>, es': seq<Executor>, c: Config,
                                   m: nat, n: nat)
    requires Leads(es, middle, c, m) && Leads(middle, es', c, n)
    ensures Leads(es, es', c, m + n)
    decreases n
  {
    hide Step;
    if n > 0 {
      var last :| Leads(middle, last, c, n - 1) && Step(last, es', c);
      LeadsOn(es, middle, last, c, m, n - 1);
    }
  }

  /** A started batch of which the first `m` have ended, those from `lo` up to `hi` filled. */
  function Ending(orders: seq<Order>, lo: nat, hi: nat, m: nat): seq<Executor> {
    seq(|orders|, i requires 0 <= i < |orders| => Executor(orders[i].side, i < m, i < m && lo <= i < hi))
  }

  lemma {:induction false} BatchEnds(es: seq<Executor>, orders: seq<Order>, lo: nat, hi: nat, m: nat, c: Config)
    requires m <= |orders|
    ensures Leads(es + Started(orders), es + Ending(orders, lo, hi, m), c, m)
  {
    if m == 0 {
      hide Step;
      assert Ending(orders, lo, hi, 0) == Started(orders);
    } else {
      hide Step, Ending, Started;
      BatchEnds(es, orders, lo, hi, m - 1, c);
      OneEnds(es, orders, lo, hi, m - 1, c);
      assert Leads(es + Started(orders), es + Ending(orders, lo, hi, m), c, m);
    }
  }

  lemma OneEnds(es: seq<Executor>, orders: seq<Order>, lo: nat, hi: nat, m: nat, c: Config)
    requires m < |orders|
    ensures Step(es + Ending(orders, lo, hi, m), es + Ending(orders, lo, hi, m + 1), c)
  {
    hide Orders, Divisible, Started;
    var before, after := es + Ending(orders, lo, hi, m), es + Ending(orders, lo, hi, m + 1);
    var k: nat := |es| + m;
    assert before[k] == Executor(orders[m].side, false, false);
    assert after == before[k := Executor(before[k].side, true, lo <= m < hi)];
  }

  lemma {:induction false} EndedCounts(orders: seq<Order>, lo: nat, hi: nat, side: Side, asked: Side)
    requires lo <= hi && forall i | lo <= i < |orders| && i < hi :: orders[i].side == side
    ensures Active(Ending(orders, lo, hi, |orders|), asked) == 0
    ensures Filled(Ending(orders, lo, hi, |orders|), asked)
         == if asked != side || |orders| <= lo then 0 else if hi < |orders| then hi - lo else |orders| - lo
  {
    if orders != [] {
      var n := |orders| - 1;
      assert Ending(orders, lo, hi, |orders|)[..n] == Ending(orders[..n], lo, hi, n);
      EndedCounts(orders[..n], lo, hi, side, asked);
    }
  }

  function LevelsOf(side: Side, c: Config): seq<Level> { if side == Buy then c.buys else c.sells }

  function Signed(side: Side, n: int): int { if side == Buy then n else -n }

  /** Where the orders of a side start when both sides quote. */
  function Offset(side: Side, c: Config): nat { if side == Buy then 0 else |c.buys| }

  /** From a quiet moment below the limit, one round can fill any number of the levels of a side. */
  lemma Round(es: seq<Executor>, mid: real, c: Config, side: Side, j: nat) returns (es': seq<Executor>, n: nat)
    requires Divisible(mid, c) && j <= |LevelsOf(side, c)|
    requires Active(es, Buy) == 0 && Active(es, Sell) == 0 && -c.maxImbalance < Imbalance(es) < c.maxImbalance
    ensures Leads(es, es', c, n) && Active(es', Buy) == 0 && Active(es', Sell) == 0
    ensures Imbalance(es') == Imbalance(es) + Signed(side, j)
  {
    hide *;
    var orders := Orders(es, mid, c);
    var lo := Offset(side, c);
    BothSidesQuote(es, mid, c, side, j);
    RoundSteps(es, mid, c, lo, lo + j, orders);
    es', n := es + Ending(orders, lo, lo + j, |orders|), 1 + |orders|;
    RoundCounts(es, c, lo, j, side, orders);
  }

  lemma BothSidesQuote(es: seq<Executor>, mid: real, c: Config, side: Side, j: nat)
    requires Divisible(mid, c) && j <= |LevelsOf(side, c)|
    requires Active(es, Buy) == 0 && Active(es, Sell) == 0 && -c.maxImbalance < Imbalance(es) < c.maxImbalance
    ensures var orders := Orders(es, mid, c);
            var lo := Offset(side, c);
            lo + j <= |orders| && forall i | lo <= i < lo + j :: orders[i].side == side
  {
    hide Active, Filled, Sum, SideOrders;
    SideSize(Buy, c.buys, Sum(c.buys), mid, c);
    SideSize(Sell, c.sells, Sum(c.sells), mid, c);
  }

  lemma RoundSteps(es: seq<Executor>, mid: real, c: Config, lo: nat, hi: nat, orders: seq<Order>)
    requires Divisible(mid, c) && orders == Orders(es, mid, c)
    ensures Leads(es, es + Ending(orders, lo, hi, |orders|), c, 1 + |orders|)
  {
    hide Orders, Divisible, Started, Ending;
    assert Step(es, es + Started(orders), c);
    assert Leads(es, es, c, 0);
    assert Leads(es, es + Started(orders), c, 1);
    BatchEnds(es, orders, lo, hi, |orders|, c);
    LeadsOn(es, es + Started(orders), es + Ending(orders, lo, hi, |orders|), c, 1, |orders|);
  }

  lemma RoundCounts(es: seq<Executor>, c: Config, lo: nat, j: nat, side: Side, orders: seq<Order>)
    requires lo + j <= |orders| && forall i | lo <= i < lo + j :: orders[i].side == side
    ensures var es' := es + Ending(orders, lo, lo + j, |orders|);
      && Active(es', Buy) == Active(es, Buy) && Active(es', Sell) == Active(es, Sell)
      && Imbalance(es') == Imbalance(es) + Signed(side, j)
  {
    hide Active, Filled, Ending;
    EndedCounts(orders, lo, lo + j, side, Buy);
    EndedCounts(orders, lo, lo + j, side, Sell);
    CountsConcat(es, Ending(orders, lo, lo + j, |orders|), Buy);
    CountsConcat(es, Ending(orders, lo, lo + j, |orders|), Sell);
  }

  lemma {:induction false} Climb(mid: real, c: Config, side: Side, i: nat) returns (es: seq<Executor>, n: nat)
    requires Divisible(mid, c) && LevelsOf(side, c) != [] && i < c.maxImbalance
    ensures Leads([], es, c, n) && Active(es, Buy) == 0 && Active(es, Sell) == 0 && Imbalance(es) == Signed(side, i)
  {
    hide Step, Divisible;
    es, n := [], 0;
    if i > 0 {
      var near, m := Climb(mid, c, side, i - 1);
      var far, k := Round(near, mid, c, side, 1);
      LeadsOn([], near, far, c, m, k);
      es, n := far, m + k;
    }
  }

  /** Both bounds are exact: some run reaches each of them, whatever the limit and the levels. */
  lemma BoundIsReached(mid: real, c: Config, side: Side) returns (es: seq<Executor>, n: nat)
    requires Divisible(mid, c) && LevelsOf(side, c) != [] && c.maxImbalance >= 1
    ensures Leads([], es, c, n) && Imbalance(es) == Signed(side, c.maxImbalance - 1 + |LevelsOf(side, c)|)
  {
    hide Leads, Divisible, Imbalance, Active;
    var near, m := Climb(mid, c, side, c.maxImbalance - 1);
    var far, k := Round(near, mid, c, side, |LevelsOf(side, c)|);
    LeadsOn([], near, far, c, m, k);
    es, n := far, m + k;
  }
}
