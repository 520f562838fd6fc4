/** The pairing of position orders uses no order twice, and for closed positions the paired result
    is the marked-to-market result. */
module PerformanceLaws {
  import opened Results
  import opened Performance

  // ------------------------------------------------------------------ no order twice

  function Firsts(pairs: seq<(Trade, Trade)>): seq<Trade> {
    if pairs == [] then [] else Firsts(pairs[..|pairs| - 1]) + [pairs[|pairs| - 1].0]
  }

  function Seconds(pairs: seq<(Trade, Trade)>): seq<Trade> {
    if pairs == [] then [] else Seconds(pairs[..|pairs| - 1]) + [pairs[|pairs| - 1].1]
  }

  lemma {:induction false} ZipSides(opens: seq<Trade>, closes: seq<Trade>, n: nat)
    requires n <= |Zip(opens, closes)|
    ensures Firsts(Zip(opens, closes)[..n]) == opens[..n] && Seconds(Zip(opens, closes)[..n]) == closes[..n]
  {
    hide Zip;
    if n > 0 {
      assert Zip(opens, closes)[..n][..n - 1] == Zip(opens, closes)[..n - 1];
      ZipSides(opens, closes, n - 1);
    }
  }

  lemma {:induction false} PositionsSplit(orders: seq<Trade>)
    ensures multiset(At(orders, Open)) + multiset(At(orders, Close)) + multiset(At(orders, Nil)) == multiset(orders)
  {
    if orders != [] {
      assert orders == [orders[0]] + orders[1..];
      PositionsSplit(orders[1..]);
    }
  }

  lemma PrefixWithin(s: seq<Trade>, n: nat)
    requires n <= |s|
    ensures multiset(s[..n]) <= multiset(s)
  {
    assert s == s[..n] + s[n..];
  }

  /** Counting repetitions, the long and short pairs together use only orders that are there. */
  lemma NoOrderTwice(buys: seq<Trade>, sells: seq<Trade>)
    ensures var long, short := Zip(At(buys, Open), At(sells, Close)), Zip(At(sells, Open), At(buys, Close));
      && multiset(Firsts(long)) + multiset(Seconds(short)) <= multiset(buys)
      && multiset(Seconds(long)) + multiset(Firsts(short)) <= multiset(sells)
  {
    hide At, Firsts, Seconds;
    var long, short := Zip(At(buys, Open), At(sells, Close)), Zip(At(sells, Open), At(buys, Close));
    assert long[..|long|] == long && short[..|short|] == short;
    ZipSides(At(buys, Open), At(sells, Close), |long|);
    ZipSides(At(sells, Open), At(buys, Close), |short|);
    PrefixWithin(At(buys, Open), |long|);
    PrefixWithin(At(sells, Close), |long|);
    PrefixWithin(At(sells, Open), |short|);
    PrefixWithin(At(buys, Close), |short|);
    PositionsSplit(buys);
    PositionsSplit(sells);
  }

  // ------------------------------------------------------------------ single fills

  ghost predicate SingleFills(orders: seq<Trade>) {
    forall i, j | 0 <= i < j < |orders| :: orders[i].orderId != orders[j].orderId
  }

  lemma {:induction false} IdsOfSingles(orders: seq<Trade>)
    requires SingleFills(orders)
    ensures |Ids(orders)| == |orders| && forall i | 0 <= i < |orders| :: Ids(orders)[i] == orders[i].orderId
  {
    if orders != [] {
      IdsOfSingles(orders[..|orders| - 1]);
    }
  }

  lemma {:induction false} AbsentId(orders: seq<Trade>, id: string)
    requires forall o | o in orders :: o.orderId != id
    ensures WithId(orders, id) == []
  {
    if orders != [] {
      assert orders[|orders| - 1] in orders;
      AbsentId(orders[..|orders| - 1], id);
    }
  }

  lemma {:induction false} GroupOfSingle(orders: seq<Trade>, i: nat)
    requires SingleFills(orders) && i < |orders|
    ensures WithId(orders, orders[i].orderId) == [orders[i]]
  {
    var n := |orders| - 1;
    if i < n {
      GroupOfSingle(orders[..n], i);
    } else {
      AbsentId(orders[..n], orders[n].orderId);
    }
  }

  lemma SumsOfOne(o: Trade)
    ensures PriceSum([o]) == o.price && AmountSum([o]) == o.amount
  {
    var none: seq<Trade> := [o][..0];
    assert none == [];
    assert PriceSum(none) == 0.0 && AmountSum(none) == 0.0;
  }

  lemma MergedSingle(o: Trade)
    ensures Merged([o]) == o
  {
    hide PriceSum, AmountSum;
    SumsOfOne(o);
    assert (|[o]| as real) == 1.0;
    assert o.price / 1.0 == o.price;
  }

  /** Orders with one fill each pass through aggregation unchanged. */
  lemma AggregationKeepsSingles(orders: seq<Trade>)
    requires SingleFills(orders)
    ensures Aggregated(orders) == orders
  {
    hide Ids, WithId, Merged;
    IdsOfSingles(orders);
    forall i | 0 <= i < |orders| ensures Aggregated(orders)[i] == orders[i] {
      GroupOfSingle(orders, i);
      MergedSingle(orders[i]);
    }
  }

  // ------------------------------------------------------------------ two results agree

  ghost predicate NoneDeducted(ts: seq<Trade>) { forall t | t in ts :: t.deducted.None? }

  lemma {:induction false} MarkConcat(a: seq<Trade>, b: seq<Trade>, price: real)
    ensures MarkToMarket(a + b, price) == MarkToMarket(a, price) + MarkToMarket(b, price)
  {
    hide Gain, DeductedFee;
    if b == [] {
      assert a + b == a;
    } else {
      assert (a + b)[..|a + b| - 1] == a + b[..|b| - 1];
      MarkConcat(a, b[..|b| - 1], price);
    }
  }

  lemma MarkOne(t: Trade, price: real)
    requires t.deducted.None?
    ensures MarkToMarket([t], price) == Gain(t, price)
  {
    hide Gain;
    assert [t][..0] == [];
  }

  lemma KindSnoc(init: seq<Trade>, t: Trade, kind: Kind, price: real)
    requires t.deducted.None?
    ensures MarkToMarket(OfKind(init + [t], kind), price)
         == MarkToMarket(OfKind(init, kind), price) + if t.kind == kind then Gain(t, price) else 0.0
  {
    hide MarkToMarket, Gain;
    assert (init + [t])[..|init|] == init;
    assert OfKind(init, kind) + [] == OfKind(init, kind);
    MarkOne(t, price);
    MarkConcat(OfKind(init, kind), [t], price);
  }

  lemma {:induction false} MarkByKind(ts: seq<Trade>, price: real)
    requires NoneDeducted(ts)
    ensures MarkToMarket(ts, price) == MarkToMarket(OfKind(ts, Buy), price) + MarkToMarket(OfKind(ts, Sell), price)
  {
    if ts == [] {
    } else {
      var init, t := ts[..|ts| - 1], ts[|ts| - 1];
      assert t in ts && ts == init + [t];
      MarkByKind(init, price);
      hide MarkToMarket, OfKind, Gain, NoneDeducted;
      MarkOne(t, price);
      MarkConcat(init, [t], price);
      KindSnoc(init, t, Buy, price);
      KindSnoc(init, t, Sell, price);
      OtherGain(t, price);
    }
  }

  lemma OtherGain(t: Trade, price: real)
    ensures t.kind == Other ==> Gain(t, price) == 0.0
  {
  }

  lemma {:induction false} MarkByPosition(orders: seq<Trade>, price: real)
    requires NoneDeducted(orders) && forall t | t in orders :: t.position != Nil
    ensures MarkToMarket(orders, price)
         == MarkToMarket(At(orders, Open), price) + MarkToMarket(At(orders, Close), price)
  {
    if orders != [] {
      var t, rest := orders[0], orders[1..];
      assert t in orders && orders == [t] + rest;
      assert forall o | o in rest :: o in orders;
      MarkByPosition(rest, price);
      hide MarkToMarket, NoneDeducted;
      MarkConcat([t], rest, price);
      MarkConcat([t], At(rest, t.position), price);
    }
  }

  /** What the pairs' unequal amounts leave exposed to the price. */
  function Residual(pairs: seq<(Trade, Trade)>, price: real): real {
    if pairs == [] then 0.0
    else
      var p := pairs[|pairs| - 1];
      Residual(pairs[..|pairs| - 1], price) + Exposure(p.0, p.1, price)
  }

  function Exposure(open: Trade, close: Trade, price: real): real {
    (open.amount - close.amount) * (price - open.price)
  }

  lemma LongPair(open: Trade, close: Trade, price: real)
    requires open.kind == Buy && close.kind == Sell
    ensures Gain(open, price) + Gain(close, price)
         == LongGain((open, close)) + Exposure(open, close, price)
  {
  }

  lemma ShortPair(open: Trade, close: Trade, price: real)
    requires open.kind == Sell && close.kind == Buy
    ensures Gain(open, price) + Gain(close, price)
         == ShortGain((open, close)) - Exposure(open, close, price)
  {
  }

  ghost predicate AllOf(ts: seq<Trade>, kind: Kind) { forall t | t in ts :: t.kind == kind && t.deducted.None? }

  lemma MarkLast(ts: seq<Trade>, n: nat, price: real)
    requires n < |ts| && ts[n].deducted.None?
    ensures MarkToMarket(ts[..n + 1], price) == MarkToMarket(ts[..n], price) + Gain(ts[n], price)
  {
    hide Gain;
    assert ts[..n + 1][..n] == ts[..n];
  }

  lemma PnlLast(pairs: seq<(Trade, Trade)>, n: nat, price: real)
    requires n < |pairs|
    ensures LongPnl(pairs[..n + 1]) == LongPnl(pairs[..n]) + LongGain(pairs[n])
    ensures ShortPnl(pairs[..n + 1]) == ShortPnl(pairs[..n]) + ShortGain(pairs[n])
    ensures Residual(pairs[..n + 1], price) == Residual(pairs[..n], price) + Exposure(pairs[n].0, pairs[n].1, price)
  {
    hide Exposure, LongGain, ShortGain;
    assert pairs[..n + 1][..n] == pairs[..n];
  }

  lemma MemberOf(ts: seq<Trade>, i: nat, kind: Kind)
    requires i < |ts| && AllOf(ts, kind)
    ensures ts[i].kind == kind && ts[i].deducted.None?
  {
  }

  lemma NothingMarked(a: seq<Trade>, b: seq<Trade>, pairs: seq<(Trade, Trade)>, price: real)
    requires a == [] && b == [] && pairs == []
    ensures MarkToMarket(a, price) == MarkToMarket(b, price) == 0.0
    ensures LongPnl(pairs) == ShortPnl(pairs) == Residual(pairs, price) == 0.0
  {
  }

  lemma {:induction false} LongMark(opens: seq<Trade>, closes: seq<Trade>, n: nat, price: real)
    requires |opens| == |closes| && n <= |opens| && AllOf(opens, Buy) && AllOf(closes, Sell)
    ensures MarkToMarket(opens[..n], price) + MarkToMarket(closes[..n], price)
         == LongPnl(Zip(opens, closes)[..n]) + Residual(Zip(opens, closes)[..n], price)
  {
    hide MarkToMarket, LongPnl, Residual, Gain, Exposure, LongGain, AllOf, Zip;
    if n == 0 {
      NothingMarked(opens[..0], closes[..0], Zip(opens, closes)[..0], price);
    } else {
      LongMark(opens, closes, n - 1, price);
      MemberOf(opens, n - 1, Buy);
      MemberOf(closes, n - 1, Sell);
      MarkLast(opens, n - 1, price);
      MarkLast(closes, n - 1, price);
      PnlLast(Zip(opens, closes), n - 1, price);
      LongPair(opens[n - 1], closes[n - 1], price);
    }
  }

  lemma {:induction false} ShortMark(opens: seq<Trade>, closes: seq<Trade>, n: nat, price: real)
    requires |opens| == |closes| && n <= |opens| && AllOf(opens, Sell) && AllOf(closes, Buy)
    ensures MarkToMarket(opens[..n], price) + MarkToMarket(closes[..n], price)
         == ShortPnl(Zip(opens, closes)[..n]) - Residual(Zip(opens, closes)[..n], price)
  {
    hide MarkToMarket, ShortPnl, Residual, Gain, Exposure, ShortGain, AllOf, Zip;
    if n == 0 {
      NothingMarked(opens[..0], closes[..0], Zip(opens, closes)[..0], price);
    } else {
      ShortMark(opens, closes, n - 1, price);
      MemberOf(opens, n - 1, Sell);
      MemberOf(closes, n - 1, Buy);
      MarkLast(opens, n - 1, price);
      MarkLast(closes, n - 1, price);
      PnlLast(Zip(opens, closes), n - 1, price);
      ShortPair(opens[n - 1], closes[n - 1], price);
    }
  }

  lemma {:induction false} KindKept(ts: seq<Trade>, kind: Kind)
    ensures forall t | t in OfKind(ts, kind) :: t.kind == kind && t in ts
  {
    if ts != [] {
      KindKept(ts[..|ts| - 1], kind);
      assert ts[|ts| - 1] in ts;
    }
  }

  lemma {:induction false} PositionKept(orders: seq<Trade>, position: Position)
    ensures forall t | t in At(orders, position) :: t in orders
  {
    if orders != [] {
      PositionKept(orders[1..], position);
      assert orders[0] in orders;
    }
  }

  /** Every position that was opened was closed again, order by order. */
  ghost predicate FullyPaired(buys: seq<Trade>, sells: seq<Trade>) {
    && |At(buys, Open)| == |At(sells, Close)| && |At(sells, Open)| == |At(buys, Close)|
    && (forall t | t in buys + sells :: t.position != Nil)
  }

  lemma PairsMark(buys: seq<Trade>, sells: seq<Trade>, price: real)
    requires FullyPaired(buys, sells) && AllOf(buys, Buy) && AllOf(sells, Sell)
    ensures MarkToMarket(buys, price) + MarkToMarket(sells, price)
         == DerivativePnl(buys, sells)
            + Residual(Zip(At(buys, Open), At(sells, Close)), price)
            - Residual(Zip(At(sells, Open), At(buys, Close)), price)
  {
    hide At, MarkToMarket, LongPnl, ShortPnl, Residual, Zip;
    var bo, bc, so, sc := At(buys, Open), At(buys, Close), At(sells, Open), At(sells, Close);
    assert forall t :: (t in buys ==> t in buys + sells) && (t in sells ==> t in buys + sells);
    PositionKept(buys, Open);
    PositionKept(buys, Close);
    PositionKept(sells, Open);
    PositionKept(sells, Close);
    MarkByPosition(buys, price);
    MarkByPosition(sells, price);
    LongMark(bo, sc, |bo|, price);
    ShortMark(so, bc, |so|, price);
    assert bo[..|bo|] == bo && sc[..|sc|] == sc && so[..|so|] == so && bc[..|bc|] == bc;
    assert Zip(bo, sc)[..|bo|] == Zip(bo, sc) && Zip(so, bc)[..|so|] == Zip(so, bc);
  }

  /** For single-fill orders that all pair up and no deducted fees, marking to market exceeds the paired
      result by exactly what unequal pair amounts leave open. */
  lemma DerivativeAgainstMark(ts: seq<Trade>, price: real)
    requires NoneDeducted(ts)
    requires var buys, sells := OfKind(ts, Buy), OfKind(ts, Sell);
             SingleFills(buys) && SingleFills(sells) && FullyPaired(buys, sells)
    ensures var buys, sells := OfKind(ts, Buy), OfKind(ts, Sell);
            MarkToMarket(ts, price)
            == DerivativePnl(Aggregated(buys), Aggregated(sells))
               + Residual(Zip(At(buys, Open), At(sells, Close)), price)
               - Residual(Zip(At(sells, Open), At(buys, Close)), price)
  {
    hide MarkToMarket, OfKind, At, DerivativePnl, Residual, Aggregated, FullyPaired, SingleFills, Zip;
    var buys, sells := OfKind(ts, Buy), OfKind(ts, Sell);
    AggregationKeepsSingles(buys);
    AggregationKeepsSingles(sells);
    KindKept(ts, Buy);
    KindKept(ts, Sell);
    MarkByKind(ts, price);
    PairsMark(buys, sells, price);
  }

  lemma {:induction false} NoExposure(pairs: seq<(Trade, Trade)>, price: real)
    requires forall p | p in pairs :: p.0.amount == p.1.amount
    ensures Residual(pairs, price) == 0.0
  {
    if pairs != [] {
      assert pairs[|pairs| - 1] in pairs;
      NoExposure(pairs[..|pairs| - 1], price);
    }
  }

  ghost predicate EqualAmounts(opens: seq<Trade>, closes: seq<Trade>) {
    forall i | 0 <= i < |opens| && i < |closes| :: opens[i].amount == closes[i].amount
  }

  /** With equal amounts in every pair the two formulas give the same result, at every price. */
  lemma PnlsAgree(ts: seq<Trade>, price: real)
    requires NoneDeducted(ts)
    requires var buys, sells := OfKind(ts, Buy), OfKind(ts, Sell);
      && SingleFills(buys) && SingleFills(sells) && FullyPaired(buys, sells)
      && EqualAmounts(At(buys, Open), At(sells, Close)) && EqualAmounts(At(sells, Open), At(buys, Close))
    ensures DerivativePnl(Aggregated(OfKind(ts, Buy)), Aggregated(OfKind(ts, Sell))) == MarkToMarket(ts, price)
    ensures TradePnl(ts, price) == MarkToMarket(ts, price)
  {
    hide MarkToMarket, OfKind, At, DerivativePnl, Residual, Aggregated, FullyPaired, SingleFills, NoneDeducted;
    DerivativeAgainstMark(ts, price);
    var buys, sells := OfKind(ts, Buy), OfKind(ts, Sell);
    NoExposure(Zip(At(buys, Open), At(sells, Close)), price);
    NoExposure(Zip(At(sells, Open), At(buys, Close)), price);
  }
}
