/** The trade result in plain terms: when trades count as derivatives, what each trade earns, and what the fills of
    one order come to. */
module PerformanceTerms {
  import opened Results
  import opened RealFacts
  import opened Performance

  // ------------------------------------------------------------------ spot or derivative

  /** The trades of one side are derivatives: there are some, the first is a recorded fill, and each has a position. */
  predicate DerivativeSide(ts: seq<Trade>, kind: Kind) {
    && (exists i | 0 <= i < |ts| ::
          ts[i].kind == kind && ts[i].isFill && forall j | 0 <= j < i :: ts[j].kind != kind)
    && (forall t | t in ts && t.kind == kind :: t.position == Open || t.position == Close)
  }

  lemma {:induction false} OfKindIff(ts: seq<Trade>, kind: Kind, t: Trade)
    ensures t in OfKind(ts, kind) <==> t in ts && t.kind == kind
  {
    if ts != [] {
      var n := |ts| - 1;
      assert ts == ts[..n] + [ts[n]];
      OfKindIff(ts[..n], kind, t);
    }
  }

  /** The first trade of a side heads its list. */
  lemma {:induction false} OfKindHead(ts: seq<Trade>, kind: Kind, i: nat)
    requires i < |ts| && ts[i].kind == kind && forall j | 0 <= j < i :: ts[j].kind != kind
    ensures OfKind(ts, kind) != [] && OfKind(ts, kind)[0] == ts[i]
  {
    var n := |ts| - 1;
    if i < n {
      OfKindHead(ts[..n], kind, i);
    } else {
      NoneOfKind(ts[..n], kind);
    }
  }

  lemma {:induction false} NoneOfKind(ts: seq<Trade>, kind: Kind)
    requires forall j | 0 <= j < |ts| :: ts[j].kind != kind
    ensures OfKind(ts, kind) == []
  {
    if ts != [] {
      NoneOfKind(ts[..|ts| - 1], kind);
    }
  }

  lemma {:induction false} FirstOfKind(ts: seq<Trade>, kind: Kind) returns (i: nat)
    requires OfKind(ts, kind) != []
    ensures i < |ts| && ts[i].kind == kind && forall j | 0 <= j < i :: ts[j].kind != kind
  {
    i := 0;
    while i < |ts| && ts[i].kind != kind
      invariant i <= |ts| && forall j | 0 <= j < i :: ts[j].kind != kind
    {
      i := i + 1;
    }
    if i == |ts| {
      NoneOfKind(ts, kind);
    }
  }

  lemma DerivativeSideIs(ts: seq<Trade>, kind: Kind)
    ensures AreDerivatives(OfKind(ts, kind)) <==> DerivativeSide(ts, kind)
  {
    hide OfKind;
    forall t ensures t in OfKind(ts, kind) <==> t in ts && t.kind == kind {
      OfKindIff(ts, kind, t);
    }
    if OfKind(ts, kind) != [] {
      var i := FirstOfKind(ts, kind);
      OfKindHead(ts, kind, i);
    }
  }

  // ------------------------------------------------------------------ what a spot trade earns

  /** Bought at one price and worth another, or the other way round, less the part deducted as fee. */
  function Earned(t: Trade, price: real): real {
    var paid, worth := t.amount * t.price, t.amount * price;
    (if t.kind == Buy then worth - paid else if t.kind == Sell then paid - worth else 0.0)
    - (if t.deducted.Some? then paid * t.deducted.value else 0.0)
  }

  function EarnedBy(ts: seq<Trade>, price: real): real {
    if ts == [] then 0.0 else Earned(ts[0], price) + EarnedBy(ts[1..], price)
  }

  lemma EarnedIs(t: Trade, price: real)
    ensures Gain(t, price) - DeductedFee(t) == Earned(t, price)
  {
    assert t.amount * (price - t.price) == t.amount * price - t.amount * t.price;
  }

  lemma {:induction false} EarnedSnoc(ts: seq<Trade>, t: Trade, price: real)
    ensures EarnedBy(ts + [t], price) == EarnedBy(ts, price) + Earned(t, price)
  {
    hide Earned;
    if ts == [] {
      assert ts + [t] == [t];
      assert EarnedBy([t], price) == Earned(t, price) + EarnedBy([], price);
    } else {
      assert (ts + [t])[1..] == ts[1..] + [t];
      EarnedSnoc(ts[1..], t, price);
    }
  }

  lemma {:induction false} MarkIs(ts: seq<Trade>, price: real)
    ensures MarkToMarket(ts, price) == EarnedBy(ts, price)
  {
    hide Gain, DeductedFee, Earned;
    if ts != [] {
      var n := |ts| - 1;
      MarkIs(ts[..n], price);
      EarnedIs(ts[n], price);
      assert ts == ts[..n] + [ts[n]];
      EarnedSnoc(ts[..n], ts[n], price);
    }
  }

  // ------------------------------------------------------------------ the fills of one order

  function Prices(group: seq<Trade>): seq<real> { seq(|group|, i requires 0 <= i < |group| => group[i].price) }
  function Amounts(group: seq<Trade>): seq<real> { seq(|group|, i requires 0 <= i < |group| => group[i].amount) }

  lemma {:induction false} SumsAre(group: seq<Trade>)
    ensures PriceSum(group) == Sum(Prices(group)) && AmountSum(group) == Sum(Amounts(group))
  {
    if group != [] {
      var n := |group| - 1;
      SumsAre(group[..n]);
      assert Prices(group)[..n] == Prices(group[..n]) && Amounts(group)[..n] == Amounts(group[..n]);
    }
  }

  /** The fills of one order become one with the mean of their prices and the sum of their amounts. */
  lemma MergedTerms(group: seq<Trade>)
    requires group != []
    ensures var m := Merged(group);
      && m == group[0].(price := m.price, amount := m.amount)
      && m.price * (|group| as real) == Sum(Prices(group)) && m.amount == Sum(Amounts(group))
  {
    hide Sum, PriceSum, AmountSum;
    SumsAre(group);
    var q := PriceSum(group) / (|group| as real);
    assert q * (|group| as real) == PriceSum(group);
  }

  // ------------------------------------------------------------------ the pairs of one side

  /** What the i-th pairs earn: the price difference on the closing amount. */
  function PairsEarn(opens: seq<Trade>, closes: seq<Trade>, long: bool, n: nat): real
    requires n <= |opens| && n <= |closes|
  {
    if n == 0 then 0.0
    else
      var open, close := opens[n - 1], closes[n - 1];
      PairsEarn(opens, closes, long, n - 1)
      + (if long then close.amount * close.price - close.amount * open.price
         else close.amount * open.price - close.amount * close.price)
  }

  lemma PairEarns(open: Trade, close: Trade)
    ensures LongGain((open, close)) == close.amount * close.price - close.amount * open.price
    ensures ShortGain((open, close)) == close.amount * open.price - close.amount * close.price
  {
  }

  lemma {:induction false} PairsEarnIs(opens: seq<Trade>, closes: seq<Trade>, n: nat)
    requires n <= |Zip(opens, closes)|
    ensures LongPnl(Zip(opens, closes)[..n]) == PairsEarn(opens, closes, true, n)
    ensures ShortPnl(Zip(opens, closes)[..n]) == PairsEarn(opens, closes, false, n)
  {
    hide LongGain, ShortGain, Zip;
    if n > 0 {
      PairsEarnIs(opens, closes, n - 1);
      PairEarns(opens[n - 1], closes[n - 1]);
      assert Zip(opens, closes)[..n][..n - 1] == Zip(opens, closes)[..n - 1];
    }
  }

  function Shorter(a: seq<Trade>, b: seq<Trade>): nat { if |b| <= |a| then |b| else |a| }

  /** The result of the trades: of the pairs of opening and closing orders when a side consists of derivatives, and
      otherwise of every trade marked to the current price. */
  lemma ResultTerms(ts: seq<Trade>, price: real)
    ensures var buys, sells := Aggregated(OfKind(ts, Buy)), Aggregated(OfKind(ts, Sell));
            var bo, bc, so, sc := At(buys, Open), At(buys, Close), At(sells, Open), At(sells, Close);
            TradePnl(ts, price)
            == if DerivativeSide(ts, Buy) || DerivativeSide(ts, Sell)
               then PairsEarn(bo, sc, true, Shorter(bo, sc)) + PairsEarn(so, bc, false, Shorter(so, bc))
               else EarnedBy(ts, price)
  {
    hide OfKind, Aggregated, At, AreDerivatives, DerivativeSide, MarkToMarket, LongPnl, ShortPnl, PairsEarn, EarnedBy;
    DerivativeSideIs(ts, Buy);
    DerivativeSideIs(ts, Sell);
    MarkIs(ts, price);
    var buys, sells := Aggregated(OfKind(ts, Buy)), Aggregated(OfKind(ts, Sell));
    var bo, bc, so, sc := At(buys, Open), At(buys, Close), At(sells, Open), At(sells, Close);
    PairsEarnIs(bo, sc, Shorter(bo, sc));
    PairsEarnIs(so, bc, Shorter(so, bc));
    assert Zip(bo, sc)[..Shorter(bo, sc)] == Zip(bo, sc) && Zip(so, bc)[..Shorter(so, bc)] == Zip(so, bc);
  }
}
