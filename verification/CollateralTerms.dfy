/** What an order ties up, in plain terms, and how much of an order the balances can carry. */
module CollateralTerms {
  import opened Results
  import opened OrderCandidates
  import opened BudgetChecker
  import opened BudgetLaws
  import opened BudgetTheorems

  // ------------------------------------------------------------------ what is tied up

  /** The percent fee of makers or takers. */
  function PercentOf(m: Market, s: FeeSchema): real {
    match m.isMaker
    case true => s.makerPercent
    case false => s.takerPercent
  }

  /** The fixed fees of makers or takers. */
  function FlatFees(m: Market, s: FeeSchema): seq<TokenAmount> {
    match m.isMaker
    case true => s.makerFixed
    case false => s.takerFixed
  }

  /** The token a percent fee is charged in; without a choice of its own, that of a buy is the quote token. */
  function ChargedIn(m: Market, s: FeeSchema): string {
    if s.percentToken.None? then m.quote else s.percentToken.value
  }

  /** What a percent fee adds to the cost of a buy: nothing when it is deducted from what is bought. */
  function FeeOnBuy(cost: real, m: Market, f: Fees): real {
    if f.schema.buyDeducted && f.schema.percentToken.None? then 0.0
    else if ChargedIn(m, f.schema) == m.quote then cost * PercentOf(m, f.schema)
    else cost * f.rate(m.quote, ChargedIn(m, f.schema)) * PercentOf(m, f.schema)
  }

  lemma FlatFeesAre(m: Market, s: FeeSchema)
    ensures FixedFees(m, s) == FlatFees(m, s) && Percent(m, s) == PercentOf(m, s)
  {
  }

  lemma NothingCharged(cost: real, rate: real, percent: real)
    ensures percent == 0.0 ==> cost * percent == 0.0 && cost * rate * percent == 0.0
  {
  }

  /** A buy ties up its cost in the quote token, the percent fee on it in the fee token, and its fixed fees. */
  lemma BuyTiesUp(c: Candidate, f: Fees, token: string)
    requires New(c) && c.market.isBuy
    ensures var cost := c.amount * c.price;
            Collateral(Populate(c, f), token)
            == (if token == c.market.quote then cost else 0.0)
               + (if token == ChargedIn(c.market, f.schema) then FeeOnBuy(cost, c.market, f) else 0.0)
               + FlatSum(FlatFees(c.market, f.schema), token)
  {
    hide FlatSum;
    FlatFeesAre(c.market, f.schema);
    NothingCharged(c.amount * c.price, f.rate(c.market.quote, ChargedIn(c.market, f.schema)),
                   PercentOf(c.market, f.schema));
  }

  /** A sell ties up its amount in the base token and its fixed fees; its percent fee comes out of the returns. */
  lemma SellTiesUp(c: Candidate, f: Fees, token: string)
    requires New(c) && !c.market.isBuy
    ensures Collateral(Populate(c, f), token)
         == (if token == c.market.base then c.amount else 0.0) + FlatSum(FlatFees(c.market, f.schema), token)
  {
    hide FlatSum;
    FlatFeesAre(c.market, f.schema);
  }

  // ------------------------------------------------------------------ free of fees

  predicate FeeFree(m: Market, s: FeeSchema) { PercentOf(m, s) == 0.0 && FlatFees(m, s) == [] }

  /** The total or the available balance of a token less what is locked already. */
  function Spare(m: Market, token: string, e: Exchange, locked: map<string, real>): real {
    match m.fromTotal
    case true => e.total(token) - (if token in locked then locked[token] else 0.0)
    case false => e.available(token) - (if token in locked then locked[token] else 0.0)
  }

  lemma SpareIsFree(m: Market, token: string, e: Exchange, locked: map<string, real>)
    ensures Free(m, token, e, locked) == Spare(m, token, e, locked)
  {
  }

  lemma FeeFreeCollateral(c: Candidate, f: Fees, token: string)
    requires New(c) && FeeFree(c.market, f.schema)
    ensures Collateral(Populate(c, f), token)
         == if c.market.isBuy then (if token == c.market.quote then c.amount * c.price else 0.0)
            else (if token == c.market.base then c.amount else 0.0)
  {
    hide Collateral, Populate;
    if c.market.isBuy {
      BuyTiesUp(c, f, token);
      NothingCharged(c.amount * c.price, f.rate(c.market.quote, ChargedIn(c.market, f.schema)), 0.0);
    } else {
      SellTiesUp(c, f, token);
    }
  }

  lemma FeeFreeSettings(m: Market, price: real, f: Fees)
    requires FeeFree(m, f.schema) && price > 0.0
    ensures FeesNonNegative(m, price, f) && OneFeePerToken(FixedFees(m, f.schema))
  {
    FlatFeesAre(m, f.schema);
    NothingCharged(1.0, f.rate(OrderToken(m), FeeToken(m, f.schema)), Percent(m, f.schema));
  }

  /** Without fees, all-or-none keeps a buy exactly when its cost is there in the quote token, and a sell exactly
      when its amount is there in the base token. */
  lemma KeptIffPaidFor(c: Candidate, e: Exchange, locked: map<string, real>)
    requires New(c) && c.amount > 0.0 && c.price > 0.0 && FeeFree(c.market, e.fees.schema)
    requires RoundsDown(e) && forall token: string :: Spare(c.market, token, e, locked) >= 0.0
    ensures !Adjust(c, true, e, locked).resized
       <==> if c.market.isBuy then c.amount * c.price <= Spare(c.market, c.market.quote, e, locked)
            else c.amount <= Spare(c.market, c.market.base, e, locked)
  {
    hide Adjust, Collateral, Populate, Free, Spare, RoundsDown, FeeFree;
    forall token: string
      ensures Free(c.market, token, e, locked) == Spare(c.market, token, e, locked)
      ensures Collateral(Populate(c, e.fees), token)
           == if c.market.isBuy then (if token == c.market.quote then c.amount * c.price else 0.0)
              else (if token == c.market.base then c.amount else 0.0)
    {
      SpareIsFree(c.market, token, e, locked);
      FeeFreeCollateral(c, e.fees, token);
    }
    FeeFreeSettings(c.market, c.price, e.fees);
    KeptIffItFits(c, e, locked);
  }

  // ------------------------------------------------------------------ the greatest amount

  /** This much of the order could be carried: each need fits, also beside each single fixed fee. */
  ghost predicate Carried(y: real, c: Candidate, f: Fees, entries: seq<TokenAmount>, available: map<string, real>) {
    && Times(y, Unit(c.market, c.price, f, OrderToken(c.market))) <= Of(available, OrderToken(c.market))
    && (AddedToCost(c.market, f.schema) ==>
          Times(y, Unit(c.market, c.price, f, FeeToken(c.market, f.schema))) <= Of(available, FeeToken(c.market, f.schema)))
    && forall e | e in entries ::
         && e.amount <= Of(available, e.token)
         && Times(y, Unit(c.market, c.price, f, e.token)) + e.amount <= Of(available, e.token)
  }

  lemma TimesOrder(x: real, y: real, k: real)
    requires k > 0.0 && Times(y, k) <= Times(x, k)
    ensures y <= x
  {
    assert (x - y) * k >= 0.0;
  }

  lemma PositiveRate(x: real, k: real)
    requires x > 0.0 && Times(x, k) > 0.0
    ensures k > 0.0
  {
  }

  /** Shrinking to the room there is leaves at least what fits into that room. */
  lemma ShrinkLeaves(c: Candidate, f: Fees, k: real, room: real, need: real, y: real)
    requires Priced(c, f) && c.amount > 0.0 && need == Times(c.amount, k) && 0.0 <= room < need
    requires Times(y, k) <= room
    ensures Scale(c, room / need).amount >= y
  {
    hide Priced, Times, Scale, Shrunk;
    ShrinkBy(c, f, k, room, need);
    PositiveRate(c.amount, k);
    TimesOrder(Scale(c, room / need).amount, y, k);
  }

  lemma FewerUnits(y: real, m: Market, price: real, f: Fees)
    requires y >= 0.0 && price > 0.0 && FeeRate(m, f) >= 0.0
    ensures 0.0 <= Times(y, UnitPrice(m, price)) <= Times(y, Unit(m, price, f, OrderToken(m)))
    ensures forall token :: Times(y, Unit(m, price, f, token)) >= 0.0
  {
    TimesNonNegative(y, UnitPrice(m, price));
    assert FeeUnit(m, price, f) >= 0.0;
    forall token ensures Times(y, Unit(m, price, f, token)) >= 0.0 {
      TimesNonNegative(y, Unit(m, price, f, token));
    }
    TimesNonNegative(y, FeeUnit(m, price, f));
  }

  lemma OrderStageLeaves(c: Candidate, f: Fees, available: map<string, real>, y: real, entries: seq<TokenAmount>)
    requires Priced(c, f) && c.amount > 0.0 && 0.0 < y <= c.amount && c.price > 0.0 && FeeRate(c.market, f) >= 0.0
    requires Carried(y, c, f, entries, available)
    ensures OrderStage(c, available).amount >= y
  {
    StageNeeds(c, f);
    FewerUnits(y, c.market, c.price, f);
    hide Priced, Need, Times, UnitPrice, Unit, Scale;
    var room, need := Of(available, OrderToken(c.market)), c.order.value.amount;
    if room < need {
      ShrinkLeaves(c, f, UnitPrice(c.market, c.price), room, need, y);
    }
  }

  lemma PercentStageLeaves(c: Candidate, f: Fees, available: map<string, real>, y: real, entries: seq<TokenAmount>)
    requires Priced(c, f) && c.amount > 0.0 && 0.0 < y <= c.amount && c.price > 0.0 && FeeRate(c.market, f) >= 0.0
    requires Carried(y, c, f, entries, available)
    ensures PercentStage(c, available).amount >= y
  {
    StageNeeds(c, f);
    FewerUnits(y, c.market, c.price, f);
    hide Priced, Times, UnitPrice, Unit, Scale, PercentNeed, FeeToken, AddedToCost;
    if c.percentFee.Some? {
      var feeToken := c.percentFee.value.token;
      var room, need := Of(available, feeToken), PercentNeed(c);
      if room < need {
        ShrinkLeaves(c, f, Unit(c.market, c.price, f, feeToken), room, need, y);
      }
    }
  }

  lemma MakeRoomLeaves(c: Candidate, f: Fees, token: string, need: real, fee: real, available: real, y: real)
    requires Priced(c, f) && c.amount > 0.0 && need == Need(c, f, token) && fee <= available
    requires 0.0 < y <= c.amount && Times(y, Unit(c.market, c.price, f, token)) + fee <= available
    ensures MakeRoom(c, need, fee, available).amount >= y
  {
    hide Priced, Times, Scale, Unit;
    if available < fee + need && need != 0.0 {
      ShrinkLeaves(c, f, Unit(c.market, c.price, f, token), available - fee, need, y);
    }
  }

  lemma EntryLeaves(c: Candidate, f: Fees, e: TokenAmount, available: real, y: real)
    requires Priced(c, f) && c.amount > 0.0 && e.amount <= available
    requires 0.0 < y <= c.amount && Times(y, Unit(c.market, c.price, f, e.token)) + e.amount <= available
    ensures Entry(c, e, Some(OrderToken(c.market)), FeeTokenOf(c, f), available).amount >= y
  {
    StageNeeds(c, f);
    var token := OrderToken(c.market);
    hide Priced, Times, Scale, Shrunk, Unit, OrderNeed, Need, OrderToken, FeeToken, AddedToCost, MakeRoom;
    if e.token == token {
      MakeRoomLeaves(c, f, token, OrderNeed(c), e.amount, available, y);
      var c1 := MakeRoom(c, OrderNeed(c), e.amount, available);
      if FeeTokenOf(c, f) == Some(token) {
        MakeRoomFits(c, f, token, OrderNeed(c), e.amount, available);
        MergedStays(c, c1, f);
        NoRoomNeeded(c1, e.amount, available);
      }
    } else if FeeTokenOf(c, f) == Some(e.token) {
      MakeRoomLeaves(c, f, e.token, FeeNeed(c), e.amount, available, y);
    }
  }

  lemma {:induction false} FixedStageLeaves(c: Candidate, f: Fees, entries: seq<TokenAmount>, available: map<string, real>,
                                            y: real)
    requires Priced(c, f) && c.amount > 0.0 && 0.0 < y <= c.amount
    requires forall e | e in entries :: e.amount <= Of(available, e.token)
               && Times(y, Unit(c.market, c.price, f, e.token)) + e.amount <= Of(available, e.token)
    ensures FixedStage(c, entries, Some(OrderToken(c.market)), FeeTokenOf(c, f), available).amount >= y
    decreases |entries|
  {
    hide Priced, Shrunk, Scale, Entry, Times, Unit, OrderToken, FeeTokenOf;
    if entries != [] {
      var e, room := entries[0], Of(available, entries[0].token);
      assert e in entries && entries == [e] + entries[1..];
      EntryFits(c, f, e, room);
      EntryLeaves(c, f, e, room, y);
      var c1 := Entry(c, e, Some(OrderToken(c.market)), FeeTokenOf(c, f), room);
      ShrunkMarket(c, c1, f);
      SameMarketOf(c, c1, f);
      FixedStageLeaves(c1, f, entries[1..], available, y);
    }
  }

  lemma SameMarketOf(c: Candidate, c': Candidate, f: Fees)
    requires Shrunk(c, c', f)
    ensures c'.market == c.market && c'.price == c.price
  {
    hide Priced;
  }

  /** The three stages never shrink an order below an amount that the balances could carry. */
  lemma AdjustedLeaves(c: Candidate, f: Fees, available: map<string, real>, y: real)
    requires Priced(c, f) && FeesNonNegative(c.market, c.price, f) && 0.0 < y <= c.amount
    requires Of(available, OrderToken(c.market)) >= 0.0 && Of(available, FeeToken(c.market, f.schema)) >= 0.0
    requires Carried(y, c, f, c.fixed, available)
    ensures Adjusted(c, available).amount >= y
  {
    hide Priced, Times, UnitPrice, Unit, OrderStage, PercentStage, FixedStage, OrderToken, FeeToken, AddedToCost, Shrunk,
         NeedsFit, FeeRate;
    var c1 := OrderStage(c, available);
    OrderStageFits(c, f, available);
    OrderStageLeaves(c, f, available, y, c.fixed);
    ShrunkStage(c, c1, f);
    CarriedStill(y, c, c1, f, available);
    var c2 := PercentStage(c1, available);
    PercentStageFits(c1, f, available);
    PercentStageLeaves(c1, f, available, y, c.fixed);
    ShrunkStage(c1, c2, f);
    StageNeeds(c2, f);
    FixedStageLeaves(c2, f, c2.fixed, available, y);
  }

  lemma CarriedStill(y: real, c: Candidate, c': Candidate, f: Fees, available: map<string, real>)
    requires Carried(y, c, f, c.fixed, available) && c'.market == c.market && c'.price == c.price
    ensures Carried(y, c', f, c.fixed, available)
  {
  }

  /** An order of this amount fits, fees included, into what is free of every token. */
  ghost predicate FitsAt(y: real, c: Candidate, e: Exchange, locked: map<string, real>) {
    forall token: string :: Collateral(Populate(c.(amount := y), e.fees), token) <= Spare(c.market, token, e, locked)
  }

  lemma FitsAtIs(y: real, c: Candidate, e: Exchange, locked: map<string, real>, token: string)
    requires New(c)
    ensures Collateral(Populate(c.(amount := y), e.fees), token)
         == Times(y, Unit(c.market, c.price, e.fees, token)) + FlatSum(FixedFees(c.market, e.fees.schema), token)
    ensures Free(c.market, token, e, locked) == Spare(c.market, token, e, locked)
  {
    hide Populate, Collateral, Unit, FlatSum;
    PopulatedCollateral(c.(amount := y), e.fees, token);
  }

  lemma FittingIsCarried(y: real, c: Candidate, e: Exchange, locked: map<string, real>)
    requires New(c) && FeesNonNegative(c.market, c.price, e.fees) && y > 0.0 && FitsAt(y, c, e, locked)
    ensures var p := Populate(c, e.fees);
            Priced(p, e.fees) && p.market == c.market && p.price == c.price && p.amount == c.amount
            && Carried(y, p, e.fees, p.fixed, AvailableBalances(p, e, locked))
  {
    var p := Populate(c, e.fees);
    PopulatePriced(c, e.fees);
    FixedOf(p, e.fees);
    TokensOfPriced(p, e.fees);
    FewerUnits(y, c.market, c.price, e.fees);
    hide Populate, Collateral, Unit, UnitPrice, FlatSum, Times, Free, Spare, Tokens, AvailableBalances, OrderToken, FeeToken,
         AddedToCost, Priced, FeeRate;
    forall token: string
      ensures token in Tokens(p) ==>
                Times(y, Unit(c.market, c.price, e.fees, token)) + FlatSum(p.fixed, token)
                <= Of(AvailableBalances(p, e, locked), token)
      ensures FlatSum(p.fixed, token) >= 0.0
      ensures forall fee | fee in p.fixed && fee.token == token :: fee.amount <= FlatSum(p.fixed, token)
    {
      FitsAtIs(y, c, e, locked, token);
      assert Collateral(Populate(c.(amount := y), e.fees), token) <= Spare(c.market, token, e, locked);
      FreeIsOf(p, e, locked, token);
      FlatSumBounds(p.fixed, token);
    }
  }

  /** What is left of an order that had to shrink fits. */
  lemma LeftFits(c: Candidate, e: Exchange, locked: map<string, real>)
    requires New(c) && c.amount > 0.0 && OneFeePerToken(FixedFees(c.market, e.fees.schema)) && AllFree(c.market, e, locked)
    ensures var p := Populate(c, e.fees);
            var a := Adjusted(p, AvailableBalances(p, e, locked));
            a.market == c.market && 0.0 <= a.amount <= c.amount && (a.amount > 0.0 ==> FitsAt(a.amount, c, e, locked))
  {
    var p := Populate(c, e.fees);
    PopulatePriced(c, e.fees);
    FixedOf(p, e.fees);
    hide Populate, Collateral, Unit, FlatSum, Times, Free, Spare, Tokens, AvailableBalances, Adjusted, OneFeePerToken, Priced,
         NeedsFit, FeesFit, Shrunk, AllFree;
    var available := AvailableBalances(p, e, locked);
    var a := Adjusted(p, available);
    FreeIsOf(p, e, locked, OrderToken(c.market));
    FreeIsOf(p, e, locked, FeeToken(c.market, e.fees.schema));
    AdjustedFits(p, e.fees, available);
    ShrunkStage(p, a, e.fees);
    ShrunkAmount(p, a, e.fees);
    if a.amount > 0.0 {
      SameTokens(p, a, e.fees);
      forall token: string
        ensures Collateral(Populate(c.(amount := a.amount), e.fees), token) <= Spare(c.market, token, e, locked)
      {
        FreeIsOf(p, e, locked, token);
        FreeNonNegative(c.market, e, locked, token);
        FeesAndNeedFit(a, e.fees, available, token, Free(c.market, token, e, locked));
        FitsAtIs(a.amount, c, e, locked, token);
      }
    }
  }

  lemma ShrunkAmount(c: Candidate, c': Candidate, f: Fees)
    requires Shrunk(c, c', f) && c.amount > 0.0
    ensures 0.0 <= c'.amount <= c.amount && SameMarket(c, c')
  {
    hide Priced;
  }

  lemma FreeNonNegative(m: Market, e: Exchange, locked: map<string, real>, token: string)
    requires AllFree(m, e, locked)
    ensures Free(m, token, e, locked) >= 0.0
  {
  }

  /** When an order may shrink, what is left of it before rounding is the greatest amount that fits, fees included,
      into what is free of every token. */
  lemma GreatestAmount(c: Candidate, e: Exchange, locked: map<string, real>)
    requires New(c) && c.amount > 0.0 && FeesNonNegative(c.market, c.price, e.fees)
    requires OneFeePerToken(FixedFees(c.market, e.fees.schema)) && AllFree(c.market, e, locked)
    ensures var p := Populate(c, e.fees);
            var a := Adjusted(p, AvailableBalances(p, e, locked));
      && 0.0 <= a.amount <= c.amount && (a.amount > 0.0 ==> FitsAt(a.amount, c, e, locked))
      && (forall y | 0.0 < y <= c.amount && FitsAt(y, c, e, locked) :: y <= a.amount)
      && Adjust(c, false, e, locked).amount == if a.resized then e.quantize(c.market, a.amount) else c.amount
  {
    hide Populate, Adjusted, AvailableBalances, OneFeePerToken, AllFree, FitsAt, FeesNonNegative, Carried, Priced;
    LeftFits(c, e, locked);
    RoundedAmount(c, e, locked);
    var p := Populate(c, e.fees);
    var available := AvailableBalances(p, e, locked);
    FreeIsOf(p, e, locked, OrderToken(c.market));
    FreeIsOf(p, e, locked, FeeToken(c.market, e.fees.schema));
    forall y | 0.0 < y <= c.amount && FitsAt(y, c, e, locked) ensures y <= Adjusted(p, available).amount {
      FittingIsCarried(y, c, e, locked);
      AdjustedLeaves(p, e.fees, available, y);
    }
  }

  lemma RoundedAmount(c: Candidate, e: Exchange, locked: map<string, real>)
    requires New(c)
    requires var p := Populate(c, e.fees); Adjusted(p, AvailableBalances(p, e, locked)).market == c.market
    ensures var p := Populate(c, e.fees);
            var a := Adjusted(p, AvailableBalances(p, e, locked));
            p.market == c.market && (!a.resized ==> a == p)
            && Adjust(c, false, e, locked).amount == if a.resized then e.quantize(c.market, a.amount) else c.amount
  {
    hide Adjusted, AvailableBalances;
    var p := Populate(c, e.fees);
    NotResized(c, e.fees);
    AdjustedFlags(p, AvailableBalances(p, e, locked));
  }
}
