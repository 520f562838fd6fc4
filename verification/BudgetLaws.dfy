/** Collateral is never promised twice: what fitted candidates tie up stays within the balances. */
module BudgetLaws {
  import opened Results
  import opened OrderCandidates
  import opened BudgetChecker

  // ------------------------------------------------------------------ collateral per unit of amount

  function UnitPrice(m: Market, price: real): real { if m.isBuy then price else 1.0 }

  function FeeRate(m: Market, f: Fees): real {
    var token, feeToken, percent := OrderToken(m), FeeToken(m, f.schema), Percent(m, f.schema);
    if feeToken != token then f.rate(token, feeToken) * percent else percent
  }

  /** The percent fee on one unit of amount, in the fee token. */
  function FeeUnit(m: Market, price: real, f: Fees): real { UnitPrice(m, price) * FeeRate(m, f) }

  /** What one unit of amount ties up in this token, fixed fees aside. */
  function Unit(m: Market, price: real, f: Fees, token: string): real {
    (if token == OrderToken(m) then UnitPrice(m, price) else 0.0)
    + if AddedToCost(m, f.schema) && token == FeeToken(m, f.schema) then FeeUnit(m, price, f) else 0.0
  }

  function Times(x: real, y: real): real { x * y }

  function Need(c: Candidate, f: Fees, token: string): real { Times(c.amount, Unit(c.market, c.price, f, token)) }

  /** Collateral entries that belong to the amount. */
  ghost predicate Priced(c: Candidate, f: Fees) {
    && c.order == Some(TokenAmount(OrderToken(c.market), Times(c.amount, UnitPrice(c.market, c.price))))
    && c.percentFee == (if AddedToCost(c.market, f.schema)
                        then Some(TokenAmount(FeeToken(c.market, f.schema),
                                              Times(c.amount, FeeUnit(c.market, c.price, f))))
                        else None)
    && c.fixed == FixedFees(c.market, f.schema)
  }

  ghost predicate Cleared(c: Candidate) {
    c.amount == 0.0 && c.order == None && c.percentFee == None && c.fixed == []
  }

  ghost predicate SameMarket(c: Candidate, c': Candidate) { c'.market == c.market && c'.price == c.price }

  lemma PopulatePriced(c: Candidate, f: Fees)
    requires c.percentFee.Some? ==> AddedToCost(c.market, f.schema)
    ensures Priced(Populate(c, f), f) && SameMarket(c, Populate(c, f)) && Populate(c, f).amount == c.amount
  {
    hide FeeUnit, Times, OrderSize, UnitPrice, AddedToCost, PercentImpact;
    SizeIs(c);
    ImpactIs(c, f);
  }

  lemma ImpactIs(c: Candidate, f: Fees)
    ensures PercentImpact(c, f)
         == if AddedToCost(c.market, f.schema)
            then Some(TokenAmount(FeeToken(c.market, f.schema), Times(c.amount, FeeUnit(c.market, c.price, f))))
            else None
  {
    hide FeeUnit, Times, OrderSize, AddedToCost, Percent;
    FeeIs(c, f);
    var amount := Times(c.amount, FeeUnit(c.market, c.price, f));
    assert AddedToCost(c.market, f.schema) ==> PercentImpact(c, f).value.amount == amount;
  }

  lemma SizeIs(c: Candidate)
    ensures OrderSize(c) == Times(c.amount, UnitPrice(c.market, c.price))
  {
    if c.market.isBuy {
      assert UnitPrice(c.market, c.price) == c.price;
      assert Times(c.amount, c.price) == c.amount * c.price;
    } else {
      assert UnitPrice(c.market, c.price) == 1.0;
      assert Times(c.amount, 1.0) == c.amount;
    }
  }

  lemma FeeIs(c: Candidate, f: Fees)
    ensures var token, feeToken, percent := OrderToken(c.market), FeeToken(c.market, f.schema), Percent(c.market, f.schema);
            Times(c.amount, FeeUnit(c.market, c.price, f))
            == if feeToken != token then OrderSize(c) * f.rate(token, feeToken) * percent else OrderSize(c) * percent
  {
    hide OrderSize, UnitPrice, Percent;
    SizeIs(c);
    var x, u := c.amount, UnitPrice(c.market, c.price);
    var token, feeToken, percent := OrderToken(c.market), FeeToken(c.market, f.schema), Percent(c.market, f.schema);
    if feeToken != token {
      ThreeFactors(x, u, f.rate(token, feeToken), percent, FeeRate(c.market, f));
    } else {
      TwoFactors(x, u, percent);
    }
  }

  lemma TwoFactors(x: real, u: real, p: real)
    ensures Times(x, u) * p == Times(x, u * p)
  {
    assert x * u * p == x * (u * p);
  }

  lemma ThreeFactors(x: real, u: real, r: real, p: real, g: real)
    requires g == r * p
    ensures Times(x, u) * r * p == Times(x, u * g)
  {
    assert x * u * r * p == (x * u) * (r * p);
    TwoFactors(x, u, g);
  }

  lemma NeedParts(c: Candidate, f: Fees, token: string)
    ensures Need(c, f, token)
         == (if token == OrderToken(c.market) then Times(c.amount, UnitPrice(c.market, c.price)) else 0.0)
            + if AddedToCost(c.market, f.schema) && token == FeeToken(c.market, f.schema)
              then Times(c.amount, FeeUnit(c.market, c.price, f)) else 0.0
  {
  }

  lemma PricedCollateral(c: Candidate, f: Fees, token: string)
    requires Priced(c, f)
    ensures Collateral(c, token) == Need(c, f, token) + FlatSum(c.fixed, token)
  {
    hide Need, FlatSum, Times, UnitPrice, FeeUnit, AddedToCost, FeeToken;
    NeedParts(c, f, token);
  }

  /** A populated candidate ties up a fixed rate per unit of its amount, plus the fixed fees of its market. */
  lemma PopulatedCollateral(c: Candidate, f: Fees, token: string)
    requires c.percentFee.Some? ==> AddedToCost(c.market, f.schema)
    ensures Collateral(Populate(c, f), token)
         == c.amount * Unit(c.market, c.price, f, token) + FlatSum(FixedFees(c.market, f.schema), token)
  {
    PopulatePriced(c, f);
    hide Populate, Collateral, FlatSum, Unit;
    PricedCollateral(Populate(c, f), f, token);
  }

  // ------------------------------------------------------------------ shrinking

  lemma ScaledTimes(x: real, s: real, k: real, x': real)
    requires x' == x * s
    ensures Times(x, k) * s == Times(x', k)
  {
    assert x * k * s == x * s * k;
  }

  lemma ScaledEntryPriced(entry: Option<TokenAmount>, x: real, k: real, s: real, x': real)
    requires entry.Some? ==> entry.value.amount == Times(x, k)
    requires x' == x * s
    ensures ScaledEntry(entry, s) == if entry.Some? then Some(TokenAmount(entry.value.token, Times(x', k))) else None
  {
    ScaledTimes(x, s, k, x');
    hide Times;
    if entry.Some? {
      var scaled := ScaledEntry(entry, s).value;
      assert scaled.amount == entry.value.amount * s == Times(x', k);
      assert scaled == TokenAmount(entry.value.token, Times(x', k));
    }
  }

  lemma ScalePriced(c: Candidate, s: real, f: Fees)
    requires Priced(c, f)
    ensures var c' := Scale(c, s);
      && c'.resized && SameMarket(c, c') && c'.amount == c.amount * s
      && if c.amount * s == 0.0 then Cleared(c') else Priced(c', f)
  {
    hide Times, UnitPrice, FeeUnit, AddedToCost, FeeToken;
    var c' := Scale(c, s);
    assert c'.amount == c.amount * s;
    ScaledEntryPriced(c.order, c.amount, UnitPrice(c.market, c.price), s, c'.amount);
    ScaledEntryPriced(c.percentFee, c.amount, FeeUnit(c.market, c.price, f), s, c'.amount);
  }

  /** A bound on need plus fee survives shrinking, whatever the sign of the need. */
  lemma KeepsFit(x: real, x': real, k: real, a: real, available: real)
    requires 0.0 <= x' <= x && a <= available && Times(x, k) + a <= available
    ensures Times(x', k) + a <= available
  {
    if k > 0.0 {
      assert (x - x') * k >= 0.0;
    } else {
      assert x' * (-k) >= 0.0;
    }
  }

  /** Shrinking by `room / need` makes the need exactly the room. */
  lemma ShrinkToRoom(x: real, k: real, room: real, s: real, x': real)
    requires x > 0.0 && 0.0 <= room < Times(x, k) && s == room / Times(x, k) && x' == x * s
    ensures 0.0 <= x' <= x && Times(x', k) == room
  {
    SmallRatio(room, Times(x, k));
    assert s * Times(x, k) == room;
    assert x * (1.0 - s) >= 0.0 && x * s >= 0.0;
    ScaledTimes(x, s, k, x');
  }

  lemma SmallRatio(r: real, n: real)
    requires 0.0 <= r < n
    ensures 0.0 <= r / n < 1.0
  {
    var s := r / n;
    assert s * n == r;
  }

  /** A stage's outcome: the same order, no larger and still priced, or nothing. */
  ghost predicate Shrunk(c: Candidate, c': Candidate, f: Fees) {
    && SameMarket(c, c')
    && (Cleared(c') || (Priced(c', f) && 0.0 < c'.amount <= c.amount))
    && (c' == c || c'.resized)
  }

  ghost predicate Fits(c: Candidate, f: Fees, token: string, fee: real, available: real) {
    c.amount > 0.0 ==> Need(c, f, token) + fee <= available
  }

  /** Shrinking a priced order so that what it ties up at rate `k` becomes the room there is. */
  lemma ShrinkBy(c: Candidate, f: Fees, k: real, room: real, need: real)
    requires Priced(c, f) && c.amount > 0.0 && need == Times(c.amount, k) && 0.0 <= room < need
    ensures var c' := Scale(c, room / need);
            Shrunk(c, c', f) && Times(c'.amount, k) == room
  {
    hide Priced, Cleared, Times, Scale;
    var s := room / need;
    var c' := Scale(c, s);
    ScalePriced(c, s, f);
    ShrinkToRoom(c.amount, k, room, s, c'.amount);
    ClearedIsZero(c');
  }

  lemma ClearedIsZero(c: Candidate)
    ensures Cleared(c) ==> c.amount == 0.0
  {
  }

  lemma StillFits(c: Candidate, c': Candidate, f: Fees, token: string, fee: real, available: real)
    requires Shrunk(c, c', f) && c.amount > 0.0 && fee <= available && Fits(c, f, token, fee, available)
    ensures Fits(c', f, token, fee, available)
  {
    hide Priced, Times, Unit;
    if c'.amount > 0.0 {
      KeepsFit(c.amount, c'.amount, Unit(c.market, c.price, f, token), fee, available);
    }
  }

  lemma ShrunkTwice(c: Candidate, c1: Candidate, c2: Candidate, f: Fees)
    requires Shrunk(c, c1, f) && Shrunk(c1, c2, f)
    ensures Shrunk(c, c2, f)
  {
    hide Priced;
  }

  // ------------------------------------------------------------------ the three stages

  function FeeTokenOf(c: Candidate, f: Fees): Option<string> {
    if AddedToCost(c.market, f.schema) then Some(FeeToken(c.market, f.schema)) else None
  }

  /** What the stages read off a priced candidate, in terms of needs. */
  lemma StageNeeds(c: Candidate, f: Fees)
    requires Priced(c, f)
    ensures TokenOf(c.order) == Some(OrderToken(c.market)) && TokenOf(c.percentFee) == FeeTokenOf(c, f)
    ensures c.order.value.amount == Times(c.amount, UnitPrice(c.market, c.price))
    ensures OrderNeed(c) == Need(c, f, OrderToken(c.market))
    ensures c.percentFee.Some? ==> PercentNeed(c) == Need(c, f, c.percentFee.value.token)
    ensures c.percentFee.Some? && !Merged(c) ==> FeeNeed(c) == Need(c, f, c.percentFee.value.token)
    ensures !Merged(c) ==> Need(c, f, OrderToken(c.market)) == c.order.value.amount
  {
    hide Need, Times, UnitPrice, FeeUnit, FeeToken, AddedToCost;
    NeedParts(c, f, OrderToken(c.market));
    NeedParts(c, f, FeeToken(c.market, f.schema));
  }

  lemma NeedElsewhere(c: Candidate, f: Fees, token: string)
    requires token != OrderToken(c.market) && FeeTokenOf(c, f) != Some(token)
    ensures Need(c, f, token) == 0.0
  {
    hide Times, UnitPrice, FeeUnit, AddedToCost, FeeToken;
    assert Unit(c.market, c.price, f, token) == 0.0;
    assert Times(c.amount, 0.0) == 0.0 by {
      TimesZero(c.amount);
    }
  }

  lemma TimesZero(x: real)
    ensures Times(x, 0.0) == 0.0
  {
  }

  lemma ShrunkSelf(c: Candidate, f: Fees)
    requires Priced(c, f) && c.amount > 0.0
    ensures Shrunk(c, c, f)
  {
  }

  lemma OrderStageFits(c: Candidate, f: Fees, available: map<string, real>)
    requires Priced(c, f) && c.amount > 0.0 && Of(available, OrderToken(c.market)) >= 0.0
    ensures var c' := OrderStage(c, available);
            Shrunk(c, c', f)
            && (c'.amount > 0.0 ==> Times(c'.amount, UnitPrice(c.market, c.price)) <= Of(available, OrderToken(c.market)))
  {
    StageNeeds(c, f);
    ShrunkSelf(c, f);
    hide Priced, Need, Times, UnitPrice, Scale, Shrunk;
    var room, need := Of(available, OrderToken(c.market)), c.order.value.amount;
    if room < need {
      ShrinkBy(c, f, UnitPrice(c.market, c.price), room, need);
    }
  }

  /** Before fixed fees, the needs in the order token and in the fee token both fit. */
  ghost predicate NeedsFit(c: Candidate, f: Fees, available: map<string, real>) {
    && Fits(c, f, OrderToken(c.market), 0.0, Of(available, OrderToken(c.market)))
    && (AddedToCost(c.market, f.schema) ==>
          Fits(c, f, FeeToken(c.market, f.schema), 0.0, Of(available, FeeToken(c.market, f.schema))))
  }

  lemma PercentStageFits(c: Candidate, f: Fees, available: map<string, real>)
    requires Priced(c, f) && c.amount > 0.0
    requires Of(available, OrderToken(c.market)) >= 0.0 && Of(available, FeeToken(c.market, f.schema)) >= 0.0
    requires Times(c.amount, UnitPrice(c.market, c.price)) <= Of(available, OrderToken(c.market))
    ensures var c' := PercentStage(c, available); Shrunk(c, c', f) && NeedsFit(c', f, available)
  {
    StageNeeds(c, f);
    ShrunkSelf(c, f);
    hide Priced, Times, UnitPrice, Scale, Shrunk, Unit, FeeToken, AddedToCost, PercentNeed;
    var c' := PercentStage(c, available);
    if c.percentFee.Some? {
      var feeToken := c.percentFee.value.token;
      var room, need := Of(available, feeToken), PercentNeed(c);
      if room < need {
        ShrinkBy(c, f, Unit(c.market, c.price, f, feeToken), room, need);
      }
      SameNeeds(c, c', f);
      if feeToken != OrderToken(c.market) {
        StillFits(c, c', f, OrderToken(c.market), 0.0, Of(available, OrderToken(c.market)));
      }
    }
  }

  lemma SameNeeds(c: Candidate, c': Candidate, f: Fees)
    requires Shrunk(c, c', f)
    ensures c'.market == c.market
    ensures forall token :: Need(c', f, token) == Times(c'.amount, Unit(c.market, c.price, f, token))
  {
    hide Times, Unit, Priced;
  }

  lemma MakeRoomFits(c: Candidate, f: Fees, token: string, need: real, fee: real, available: real)
    requires Priced(c, f) && c.amount > 0.0 && need == Need(c, f, token) && fee <= available
    ensures var c' := MakeRoom(c, need, fee, available); Shrunk(c, c', f) && Fits(c', f, token, fee, available)
  {
    ShrunkSelf(c, f);
    hide Priced, Times, Scale, Shrunk, Unit;
    if available < fee + need {
      ShrinkBy(c, f, Unit(c.market, c.price, f, token), available - fee, need);
      SameNeeds(c, MakeRoom(c, need, fee, available), f);
    }
  }

  /** One fixed fee: afterwards it fits beside whatever else is needed in its token. */
  lemma EntryFits(c: Candidate, f: Fees, e: TokenAmount, available: real)
    requires Priced(c, f) && c.amount > 0.0 && e.amount <= available
    ensures var c' := Entry(c, e, Some(OrderToken(c.market)), FeeTokenOf(c, f), available);
            Shrunk(c, c', f) && Fits(c', f, e.token, e.amount, available)
  {
    StageNeeds(c, f);
    ShrunkSelf(c, f);
    var token := OrderToken(c.market);
    hide Priced, Times, Scale, Shrunk, Unit, OrderNeed, Need, OrderToken, FeeToken, AddedToCost, MakeRoom;
    if e.token == token {
      MakeRoomFits(c, f, token, OrderNeed(c), e.amount, available);
      var c1 := MakeRoom(c, OrderNeed(c), e.amount, available);
      if FeeTokenOf(c, f) == Some(token) {
        MergedStays(c, c1, f);
        NoRoomNeeded(c1, e.amount, available);
      }
    } else if FeeTokenOf(c, f) == Some(e.token) {
      MakeRoomFits(c, f, e.token, FeeNeed(c), e.amount, available);
    } else {
      NeedElsewhere(c, f, e.token);
    }
  }

  lemma MergedStays(c: Candidate, c': Candidate, f: Fees)
    requires Shrunk(c, c', f) && FeeTokenOf(c, f) == Some(OrderToken(c.market))
    ensures FeeNeed(c') == 0.0
  {
    hide Times, UnitPrice, FeeUnit;
  }

  lemma NoRoomNeeded(c: Candidate, fee: real, available: real)
    ensures MakeRoom(c, 0.0, fee, available) == c
  {
    hide Scale;
  }

  lemma ScaledToZero(c: Candidate, f: Fees)
    requires Priced(c, f)
    ensures Cleared(Scale(c, 0.0)) && Shrunk(c, Scale(c, 0.0), f)
  {
    hide Priced;
    assert c.amount * 0.0 == 0.0;
  }

  ghost predicate FeesFit(c: Candidate, f: Fees, entries: seq<TokenAmount>, available: map<string, real>) {
    c.amount > 0.0 ==>
      forall e | e in entries :: e.amount <= Of(available, e.token) && Need(c, f, e.token) + e.amount <= Of(available, e.token)
  }

  lemma {:induction false} FixedStageFits(c: Candidate, f: Fees, entries: seq<TokenAmount>, available: map<string, real>)
    requires Priced(c, f) && c.amount > 0.0
    ensures var c' := FixedStage(c, entries, Some(OrderToken(c.market)), FeeTokenOf(c, f), available);
            Shrunk(c, c', f) && FeesFit(c', f, entries, available)
    decreases |entries|
  {
    hide Priced, Shrunk, Scale, Entry, Need, OrderToken, FeeTokenOf;
    if entries == [] {
      ShrunkSelf(c, f);
    } else if Of(available, entries[0].token) < entries[0].amount {
      ScaledToZero(c, f);
      ClearedIsZero(Scale(c, 0.0));
    } else {
      var e, room := entries[0], Of(available, entries[0].token);
      var c1 := Entry(c, e, Some(OrderToken(c.market)), FeeTokenOf(c, f), room);
      EntryFits(c, f, e, room);
      ShrunkMarket(c, c1, f);
      if c1.amount != 0.0 {
        FixedStageFits(c1, f, entries[1..], available);
        var c' := FixedStage(c1, entries[1..], Some(OrderToken(c.market)), FeeTokenOf(c, f), available);
        ShrunkTwice(c, c1, c', f);
        StillFits(c1, c', f, e.token, e.amount, room);
        assert entries == [e] + entries[1..];
      }
    }
  }

  lemma ShrunkMarket(c: Candidate, c': Candidate, f: Fees)
    requires Shrunk(c, c', f)
    ensures OrderToken(c'.market) == OrderToken(c.market) && FeeTokenOf(c', f) == FeeTokenOf(c, f)
    ensures c'.amount != 0.0 ==> Priced(c', f) && 0.0 < c'.amount <= c.amount
    ensures c' == c || c'.resized
  {
    hide Priced;
  }
}
