/** Trading performance: volumes, the marked-to-market result, and the pairing of position orders. */
module Performance {
  import opened Results
  import opened RealFacts

  datatype Kind = Buy | Sell | Other
  datatype Position = Open | Close | Nil

  /** `deducted` is the fee percentage when the fee is taken from the returns. */
  datatype Trade = Trade(orderId: string, kind: Kind, isFill: bool, position: Position, price: real, amount: real,
                         deducted: Option<real>)

  // ------------------------------------------------------------------ volumes

  function Volume(t: Trade): real { t.amount * t.price }

  function DeductedFee(t: Trade): real {
    if t.deducted.Some? then t.amount * t.price * t.deducted.value else 0.0
  }

  function BuyBase(ts: seq<Trade>): real {
    if ts == [] then 0.0
    else var t := ts[|ts| - 1]; BuyBase(ts[..|ts| - 1]) + if t.kind == Buy then t.amount else 0.0
  }

  function SellBase(ts: seq<Trade>): real {
    if ts == [] then 0.0
    else var t := ts[|ts| - 1]; SellBase(ts[..|ts| - 1]) + if t.kind == Sell then -t.amount else 0.0
  }

  function BuyQuote(ts: seq<Trade>): real {
    if ts == [] then 0.0
    else var t := ts[|ts| - 1]; BuyQuote(ts[..|ts| - 1]) + if t.kind == Buy then -Volume(t) else 0.0
  }

  /** Deducted fees of every trade, buys included, are booked on the sell side. */
  function SellQuote(ts: seq<Trade>): real {
    if ts == [] then 0.0
    else
      var t := ts[|ts| - 1];
      SellQuote(ts[..|ts| - 1]) + (if t.kind == Sell then Volume(t) else 0.0) - DeductedFee(t)
  }

  lemma VolumesStep(ts: seq<Trade>, i: nat)
    requires i < |ts|
    ensures BuyBase(ts[..i + 1]) == BuyBase(ts[..i]) + if ts[i].kind == Buy then ts[i].amount else 0.0
    ensures SellBase(ts[..i + 1]) == SellBase(ts[..i]) + if ts[i].kind == Sell then -ts[i].amount else 0.0
    ensures BuyQuote(ts[..i + 1]) == BuyQuote(ts[..i]) + if ts[i].kind == Buy then -Volume(ts[i]) else 0.0
    ensures SellQuote(ts[..i + 1])
         == SellQuote(ts[..i]) + (if ts[i].kind == Sell then Volume(ts[i]) else 0.0) - DeductedFee(ts[i])
    ensures OfKind(ts[..i + 1], Buy) == OfKind(ts[..i], Buy) + if ts[i].kind == Buy then [ts[i]] else []
    ensures OfKind(ts[..i + 1], Sell) == OfKind(ts[..i], Sell) + if ts[i].kind == Sell then [ts[i]] else []
  {
    hide Volume, DeductedFee;
    assert ts[..i + 1][..i] == ts[..i];
  }

  function OfKind(ts: seq<Trade>, kind: Kind): seq<Trade> {
    if ts == [] then []
    else OfKind(ts[..|ts| - 1], kind) + if ts[|ts| - 1].kind == kind then [ts[|ts| - 1]] else []
  }

  // ------------------------------------------------------------------ pairing

  function At(orders: seq<Trade>, position: Position): seq<Trade> {
    if orders == [] then []
    else if orders[0].position == position then [orders[0]] + At(orders[1..], position)
    else At(orders[1..], position)
  }

  function Smaller(m: nat, n: nat): nat { if m < n then m else n }

  /** The i-th of one list with the i-th of the other, as far as both go. */
  function Zip(opens: seq<Trade>, closes: seq<Trade>): (pairs: seq<(Trade, Trade)>)
    ensures |pairs| == Smaller(|opens|, |closes|)
    ensures forall i | 0 <= i < |pairs| :: pairs[i] == (opens[i], closes[i])
  {
    seq(Smaller(|opens|, |closes|), i requires 0 <= i < Smaller(|opens|, |closes|) => (opens[i], closes[i]))
  }

  /** Index of the first order at this position, or the length when there is none. */
  function FirstAt(orders: seq<Trade>, position: Position): (k: nat)
    ensures k <= |orders| && (k < |orders| ==> orders[k].position == position)
    ensures k == |orders| <==> At(orders, position) == []
  {
    if orders == [] || orders[0].position == position then 0 else 1 + FirstAt(orders[1..], position)
  }

  function Without(orders: seq<Trade>, k: nat): seq<Trade>
    requires k < |orders|
  {
    orders[..k] + orders[k + 1..]
  }

  lemma AtCons(o: Trade, rest: seq<Trade>, position: Position)
    ensures At([o] + rest, position) == if o.position == position then [o] + At(rest, position) else At(rest, position)
  {
    assert ([o] + rest)[1..] == rest;
  }

  /** Taking the first order at a position shortens that filtered list by its head and no other. */
  lemma {:induction false} TakeFirst(orders: seq<Trade>, position: Position, other: Position)
    requires At(orders, position) != []
    ensures var k := FirstAt(orders, position);
      && k < |orders| && orders[k] == At(orders, position)[0]
      && At(Without(orders, k), position) == At(orders, position)[1..]
      && (other != position ==> At(Without(orders, k), other) == At(orders, other))
  {
    NothingAt(position);
    var k := FirstAt(orders, position);
    var o, rest := orders[0], orders[1..];
    assert orders == [o] + rest;
    AtCons(o, rest, position);
    AtCons(o, rest, other);
    hide At;
    if o.position != position {
      TakeFirst(rest, position, other);
      assert Without(orders, k) == [o] + Without(rest, k - 1);
      AtCons(o, Without(rest, k - 1), position);
      AtCons(o, Without(rest, k - 1), other);
    } else {
      assert Without(orders, 0) == rest;
    }
  }

  lemma NothingAt(position: Position)
    ensures At([], position) == []
  {
  }

  /** `position_order`: the first open order with the first close order, both taken out; nothing
      changes when either is missing. */
  method PositionOrder(open: seq<Trade>, close: seq<Trade>)
    returns (pair: Option<(Trade, Trade)>, open': seq<Trade>, close': seq<Trade>)
    ensures pair.Some? <==> At(open, Open) != [] && At(close, Close) != []
    ensures pair.None? ==> open' == open && close' == close
    ensures pair.Some? ==>
              && pair.value == (At(open, Open)[0], At(close, Close)[0])
              && |open'| + 1 == |open| && |close'| + 1 == |close|
              && At(open', Open) == At(open, Open)[1..] && At(open', Close) == At(open, Close)
              && At(close', Close) == At(close, Close)[1..] && At(close', Open) == At(close, Open)
  {
    var i, j := FirstAt(open, Open), FirstAt(close, Close);
    if i == |open| || j == |close| {
      return None, open, close;
    }
    TakeFirst(open, Open, Close);
    TakeFirst(close, Close, Open);
    return Some((open[i], close[j])), Without(open, i), Without(close, j);
  }

  lemma ZipHead(opens: seq<Trade>, closes: seq<Trade>)
    requires opens != [] && closes != []
    ensures Zip(opens, closes) == [(opens[0], closes[0])] + Zip(opens[1..], closes[1..])
  {
  }

  /** The pairing loop. It ends, and it pairs the i-th opening with the i-th closing order. */
  method PairPositions(buys: seq<Trade>, sells: seq<Trade>) returns (long: seq<(Trade, Trade)>, short: seq<(Trade, Trade)>)
    ensures long == Zip(At(buys, Open), At(sells, Close))
    ensures short == Zip(At(sells, Open), At(buys, Close))
  {
    var b, s := buys, sells;
    long, short := [], [];
    while true
      invariant long + Zip(At(b, Open), At(s, Close)) == Zip(At(buys, Open), At(sells, Close))
      invariant short + Zip(At(s, Open), At(b, Close)) == Zip(At(sells, Open), At(buys, Close))
      decreases |b| + |s|
    {
      hide Zip, At;
      ghost var bo, bc, so, sc := At(b, Open), At(b, Close), At(s, Open), At(s, Close);
      var lng, b1, s1 := PositionOrder(b, s);
      if lng.Some? {
        ZipHead(bo, sc);
        assert long + ([lng.value] + Zip(bo[1..], sc[1..])) == long + [lng.value] + Zip(bo[1..], sc[1..]);
        long := long + [lng.value];
      }
      var sht, s2, b2 := PositionOrder(s1, b1);
      if sht.Some? {
        ZipHead(so, bc);
        assert short + ([sht.value] + Zip(so[1..], bc[1..])) == short + [sht.value] + Zip(so[1..], bc[1..]);
        short := short + [sht.value];
      }
      b, s := b2, s2;
      if lng.None? && sht.None? {
        ZipNone(bo, sc);
        ZipNone(so, bc);
        break;
      }
    }
  }

  lemma ZipNone(opens: seq<Trade>, closes: seq<Trade>)
    ensures opens == [] || closes == [] ==> Zip(opens, closes) == []
  {
  }

  // ------------------------------------------------------------------ derivative results

  function LongGain(p: (Trade, Trade)): real { (p.1.price - p.0.price) * p.1.amount }
  function ShortGain(p: (Trade, Trade)): real { (p.0.price - p.1.price) * p.1.amount }

  function LongPnl(pairs: seq<(Trade, Trade)>): real {
    if pairs == [] then 0.0 else LongPnl(pairs[..|pairs| - 1]) + LongGain(pairs[|pairs| - 1])
  }

  function ShortPnl(pairs: seq<(Trade, Trade)>): real {
    if pairs == [] then 0.0 else ShortPnl(pairs[..|pairs| - 1]) + ShortGain(pairs[|pairs| - 1])
  }

  function DerivativePnl(buys: seq<Trade>, sells: seq<Trade>): real {
    LongPnl(Zip(At(buys, Open), At(sells, Close))) + ShortPnl(Zip(At(sells, Open), At(buys, Close)))
  }

  method DerivativePnls(long: seq<(Trade, Trade)>, short: seq<(Trade, Trade)>) returns (pnls: seq<real>)
    ensures Sum(pnls) == LongPnl(long) + ShortPnl(short)
  {
    pnls := [];
    for i := 0 to |long|
      invariant Sum(pnls) == LongPnl(long[..i])
    {
      assert long[..i + 1][..i] == long[..i];
      var pnl := (long[i].1.price - long[i].0.price) * long[i].1.amount;
      assert (pnls + [pnl])[..|pnls|] == pnls;
      pnls := pnls + [pnl];
    }
    assert long[..|long|] == long;
    for i := 0 to |short|
      invariant Sum(pnls) == LongPnl(long) + ShortPnl(short[..i])
    {
      assert short[..i + 1][..i] == short[..i];
      var pnl := (short[i].0.price - short[i].1.price) * short[i].1.amount;
      assert (pnls + [pnl])[..|pnls|] == pnls;
      pnls := pnls + [pnl];
    }
    assert short[..|short|] == short;
  }

  // ------------------------------------------------------------------ aggregation of fills

  function WithId(orders: seq<Trade>, id: string): seq<Trade> {
    if orders == [] then []
    else WithId(orders[..|orders| - 1], id) + if orders[|orders| - 1].orderId == id then [orders[|orders| - 1]] else []
  }

  /** Order ids by first appearance. */
  function Ids(orders: seq<Trade>): seq<string> {
    if orders == [] then []
    else
      var ids, id := Ids(orders[..|orders| - 1]), orders[|orders| - 1].orderId;
      if id in ids then ids else ids + [id]
  }

  function PriceSum(group: seq<Trade>): real {
    if group == [] then 0.0 else PriceSum(group[..|group| - 1]) + group[|group| - 1].price
  }

  function AmountSum(group: seq<Trade>): real {
    if group == [] then 0.0 else AmountSum(group[..|group| - 1]) + group[|group| - 1].amount
  }

  /** One order from all its fills: mean price, summed amount, everything else from the first. */
  function Merged(group: seq<Trade>): Trade
    requires group != []
  {
    group[0].(price := PriceSum(group) / (|group| as real), amount := AmountSum(group))
  }

  lemma {:induction false} GroupsNonEmpty(orders: seq<Trade>, id: string)
    ensures id in Ids(orders) <==> WithId(orders, id) != []
  {
    if orders != [] {
      GroupsNonEmpty(orders[..|orders| - 1], id);
    }
  }

  ghost function MergedAll(orders: seq<Trade>, ids: seq<string>): seq<Trade>
    requires forall id | id in ids :: WithId(orders, id) != []
  {
    seq(|ids|, i requires 0 <= i < |ids| => Merged(WithId(orders, ids[i])))
  }

  ghost function Aggregated(orders: seq<Trade>): seq<Trade> {
    assert forall id | id in Ids(orders) :: WithId(orders, id) != [] by {
      forall id | id in Ids(orders) ensures WithId(orders, id) != [] {
        GroupsNonEmpty(orders, id);
      }
    }
    MergedAll(orders, Ids(orders))
  }

  method GroupById(orders: seq<Trade>) returns (ids: seq<string>, groups: map<string, seq<Trade>>)
    ensures ids == Ids(orders) && forall id | id in ids :: id in groups && groups[id] == WithId(orders, id)
  {
    ids, groups := [], map[];
    for i := 0 to |orders|
      invariant ids == Ids(orders[..i]) && groups.Keys == set id | id in ids
      invariant forall id | id in groups :: groups[id] == WithId(orders[..i], id)
    {
      assert orders[..i + 1][..i] == orders[..i];
      var order := orders[i];
      GroupsNonEmpty(orders[..i], order.orderId);
      if order.orderId in groups {
        groups := groups[order.orderId := groups[order.orderId] + [order]];
      } else {
        ids := ids + [order.orderId];
        groups := groups[order.orderId := [order]];
      }
    }
    assert orders[..|orders|] == orders;
  }

  method AggregateOrders(orders: seq<Trade>) returns (aggregated: seq<Trade>)
    ensures aggregated == Aggregated(orders)
  {
    var ids, groups := GroupById(orders);
    aggregated := [];
    for i := 0 to |ids|
      invariant |aggregated| == i
      invariant forall k | 0 <= k < i :: aggregated[k] == Aggregated(orders)[k]
    {
      GroupsNonEmpty(orders, ids[i]);
      var merged := MergeGroup(groups[ids[i]]);
      aggregated := aggregated + [merged];
    }
  }

  method MergeGroup(group: seq<Trade>) returns (merged: Trade)
    requires group != []
    ensures merged == Merged(group)
  {
    var prices, amounts := 0.0, 0.0;
    for i := 0 to |group|
      invariant prices == PriceSum(group[..i]) && amounts == AmountSum(group[..i])
    {
      assert group[..i + 1][..i] == group[..i];
      prices := prices + group[i].price;
      amounts := amounts + group[i].amount;
    }
    assert group[..|group|] == group;
    merged := group[0].(price := prices / (|group| as real), amount := amounts);
  }

  // ------------------------------------------------------------------ the metrics object

  /** A base and a quote amount, in quote. */
  function Worth(base: real, quote: real, price: real): real { base * price + quote }

  predicate AreDerivatives(ts: seq<Trade>) {
    ts != [] && ts[0].isFill && forall t | t in ts :: t.position != Nil
  }

  class PerformanceMetrics {
    var buyBase: real
    var sellBase: real
    var totalBase: real
    var buyQuote: real
    var sellQuote: real
    var totalQuote: real
    var startBase: real
    var startQuote: real
    var curPrice: real
    var holdValue: real
    var curValue: real
    var tradePnl: real

    constructor ()
      ensures buyBase == sellBase == buyQuote == sellQuote == 0.0
    {
      buyBase, sellBase, totalBase, buyQuote, sellQuote, totalQuote := 0.0, 0.0, 0.0, 0.0, 0.0, 0.0;
      startBase, startQuote, curPrice, holdValue, curValue, tradePnl := 0.0, 0.0, 0.0, 0.0, 0.0, 0.0;
    }

    method PreprocessTrades(ts: seq<Trade>) returns (buys: seq<Trade>, sells: seq<Trade>)
      modifies this
      ensures buys == OfKind(ts, Buy) && sells == OfKind(ts, Sell)
      ensures buyBase == old(buyBase) + BuyBase(ts) && sellBase == old(sellBase) + SellBase(ts)
      ensures buyQuote == old(buyQuote) + BuyQuote(ts) && sellQuote == old(sellQuote) + SellQuote(ts)
      ensures totalBase == buyBase + sellBase && totalQuote == buyQuote + sellQuote
    {
      buys, sells := [], [];
      for i := 0 to |ts|
        invariant buys == OfKind(ts[..i], Buy) && sells == OfKind(ts[..i], Sell)
        invariant buyBase == old(buyBase) + BuyBase(ts[..i]) && sellBase == old(sellBase) + SellBase(ts[..i])
        invariant buyQuote == old(buyQuote) + BuyQuote(ts[..i]) && sellQuote == old(sellQuote) + SellQuote(ts[..i])
      {
        hide *;
        VolumesStep(ts, i);
        var t := ts[i];
        var volume := Volume(t);
        if t.kind == Buy {
          buys := buys + [t];
          buyBase := buyBase + t.amount;
          buyQuote := buyQuote - volume;
        } else if t.kind == Sell {
          sells := sells + [t];
          sellBase := sellBase - t.amount;
          sellQuote := sellQuote + volume;
        }
        sellQuote := sellQuote - DeductedFee(t);
      }
      assert ts[..|ts|] == ts;
      totalBase := buyBase + sellBase;
      totalQuote := buyQuote + sellQuote;
    }

    method CalculateTradePnl(buys: seq<Trade>, sells: seq<Trade>)
      modifies this`tradePnl
      ensures tradePnl == if AreDerivatives(buys) || AreDerivatives(sells)
                          then DerivativePnl(Aggregated(buys), Aggregated(sells)) else curValue - holdValue
    {
      tradePnl := curValue - holdValue;
      if AreDerivatives(buys) || AreDerivatives(sells) {
        var b := AggregateOrders(buys);
        var s := AggregateOrders(sells);
        var long, short := PairPositions(b, s);
        var pnls := DerivativePnls(long, short);
        tradePnl := Sum(pnls);
      }
    }

    /** The result shown to the user, from the trades, the balances and the oracle's price if any. */
    method InitializeMetrics(ts: seq<Trade>, curBase: real, curQuote: real, oracle: Option<real>)
      requires ts != []
      requires buyBase == sellBase == buyQuote == sellQuote == 0.0
      modifies this
      ensures curPrice == if oracle.Some? then oracle.value else ts[|ts| - 1].price
      ensures tradePnl == TradePnl(ts, curPrice)
    {
      hide Worth, BuyBase, SellBase, BuyQuote, SellQuote, MarkToMarket, AreDerivatives, DerivativePnl, Aggregated, OfKind;
      var buys, sells := PreprocessTrades(ts);
      startBase := curBase - totalBase;
      startQuote := curQuote - totalQuote;
      curPrice := if oracle.Some? then oracle.value else ts[|ts| - 1].price;
      holdValue := Worth(startBase, startQuote, curPrice);
      curValue := Worth(curBase, curQuote, curPrice);
      BalancesCancel(curBase, curQuote, totalBase, totalQuote, curPrice);
      VolumesMark(ts, curPrice);
      CalculateTradePnl(buys, sells);
    }
  }

  // ------------------------------------------------------------------ marking to market

  /** What holding this trade to the current price has earned. */
  function Gain(t: Trade, price: real): real {
    match t.kind
    case Buy => t.amount * (price - t.price)
    case Sell => -(t.amount * (price - t.price))
    case Other => 0.0
  }

  function MarkToMarket(ts: seq<Trade>, price: real): real {
    if ts == [] then 0.0
    else
      var t := ts[|ts| - 1];
      MarkToMarket(ts[..|ts| - 1], price) + Gain(t, price) - DeductedFee(t)
  }

  /** The trade result: pairs of position orders for derivatives, signed amounts times the price
      move since the trade, less deducted fees, for everything else. No balance enters. */
  ghost function TradePnl(ts: seq<Trade>, price: real): real {
    var buys, sells := OfKind(ts, Buy), OfKind(ts, Sell);
    if AreDerivatives(buys) || AreDerivatives(sells) then DerivativePnl(Aggregated(buys), Aggregated(sells))
    else MarkToMarket(ts, price)
  }

  lemma BalancesCancel(base: real, quote: real, flowBase: real, flowQuote: real, price: real)
    ensures Worth(base, quote, price) - Worth(base - flowBase, quote - flowQuote, price)
         == Worth(flowBase, flowQuote, price)
  {
  }

  lemma FlowsMark(base: real, flow: real, price: real, t: Trade)
    requires base == (if t.kind == Buy then t.amount else if t.kind == Sell then -t.amount else 0.0)
    requires flow == (if t.kind == Buy then -Volume(t) else if t.kind == Sell then Volume(t) else 0.0)
    ensures Worth(base, flow - DeductedFee(t), price) == Gain(t, price) - DeductedFee(t)
  {
  }

  /** Base and quote volumes valued at any price are the marked-to-market gains less deducted fees. */
  lemma {:induction false} VolumesMark(ts: seq<Trade>, price: real)
    ensures Worth(BuyBase(ts) + SellBase(ts), BuyQuote(ts) + SellQuote(ts), price) == MarkToMarket(ts, price)
  {
    hide DeductedFee, Gain, Volume, Worth;
    if ts == [] {
      WorthOfNothing(price);
    } else {
      var init, t := ts[..|ts| - 1], ts[|ts| - 1];
      VolumesMark(init, price);
      var base := if t.kind == Buy then t.amount else if t.kind == Sell then -t.amount else 0.0;
      var flow := if t.kind == Buy then -Volume(t) else if t.kind == Sell then Volume(t) else 0.0;
      FlowsMark(base, flow, price, t);
      WorthAdds(BuyBase(init) + SellBase(init), BuyQuote(init) + SellQuote(init), base, flow - DeductedFee(t), price);
    }
  }

  lemma WorthOfNothing(price: real)
    ensures Worth(0.0, 0.0, price) == 0.0
  {
  }

  lemma WorthAdds(base: real, quote: real, base': real, quote': real, price: real)
    ensures Worth(base + base', quote + quote', price) == Worth(base, quote, price) + Worth(base', quote', price)
  {
  }
}
