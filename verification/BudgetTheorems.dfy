/** The budget checker's promises: no token over-committed, all-or-none results untouched or zero,
    and exactly when an order is kept. */
module BudgetTheorems {
  import opened Results
  import opened OrderCandidates
  import opened BudgetChecker
  import opened BudgetLaws

  lemma AdjustedFits(c: Candidate, f: Fees, available: map<string, real>)
    requires Priced(c, f) && c.amount > 0.0
    requires Of(available, OrderToken(c.market)) >= 0.0 && Of(available, FeeToken(c.market, f.schema)) >= 0.0
    ensures var c' := Adjusted(c, available);
            Shrunk(c, c', f) && NeedsFit(c', f, available) && FeesFit(c', f, c.fixed, available)
  {
    hide Priced, Times, UnitPrice, Need, OrderStage, PercentStage, FixedStage, OrderToken, FeeToken, AddedToCost, Fits;
    var c1 := OrderStage(c, available);
    OrderStageFits(c, f, available);
    ShrunkStage(c, c1, f);
    if c1.amount != 0.0 {
      var c2 := PercentStage(c1, available);
      PercentStageFits(c1, f, available);
      ShrunkStage(c1, c2, f);
      ShrunkTwice(c, c1, c2, f);
      if c2.amount != 0.0 {
        StageNeeds(c2, f);
        var c3 := FixedStage(c2, c2.fixed, TokenOf(c2.order), TokenOf(c2.percentFee), available);
        FixedStageFits(c2, f, c2.fixed, available);
        ShrunkTwice(c, c2, c3, f);
        NeedsStillFit(c2, c3, f, available);
      } else {
        NothingNeeded(c2, f, c.fixed, available);
      }
    } else {
      NothingNeeded(c1, f, c.fixed, available);
    }
  }

  lemma ShrunkStage(c: Candidate, c': Candidate, f: Fees)
    requires Shrunk(c, c', f) && Priced(c, f)
    ensures c'.market == c.market && c'.price == c.price
    ensures c'.amount != 0.0 ==> Priced(c', f) && 0.0 < c'.amount <= c.amount && c'.fixed == c.fixed
  {
    hide Times;
  }

  lemma NothingNeeded(c: Candidate, f: Fees, entries: seq<TokenAmount>, available: map<string, real>)
    requires c.amount == 0.0
    ensures NeedsFit(c, f, available) && FeesFit(c, f, entries, available)
  {
    hide Need;
  }

  lemma NeedsStillFit(c: Candidate, c': Candidate, f: Fees, available: map<string, real>)
    requires Shrunk(c, c', f) && Priced(c, f) && c.amount > 0.0 && NeedsFit(c, f, available)
    requires Of(available, OrderToken(c.market)) >= 0.0 && Of(available, FeeToken(c.market, f.schema)) >= 0.0
    ensures NeedsFit(c', f, available)
  {
    ShrunkStage(c, c', f);
    hide Priced, Shrunk, Fits, OrderToken, FeeToken, AddedToCost;
    StillFits(c, c', f, OrderToken(c.market), 0.0, Of(available, OrderToken(c.market)));
    if AddedToCost(c.market, f.schema) {
      StillFits(c, c', f, FeeToken(c.market, f.schema), 0.0, Of(available, FeeToken(c.market, f.schema)));
    }
  }

  // ------------------------------------------------------------------ fixed fees per token

  /** No token is charged two non-zero fixed fees. */
  ghost predicate OneFeePerToken(fixed: seq<TokenAmount>) {
    forall i, j | 0 <= i < j < |fixed| && fixed[i].token == fixed[j].token ::
      fixed[i].amount == 0.0 || fixed[j].amount == 0.0
  }

  lemma {:induction false} NoFee(fixed: seq<TokenAmount>, token: string)
    requires forall e | e in fixed && e.token == token :: e.amount == 0.0
    ensures FlatSum(fixed, token) == 0.0
  {
    if fixed != [] {
      assert fixed[|fixed| - 1] in fixed;
      NoFee(fixed[..|fixed| - 1], token);
    }
  }

  lemma {:induction false} SingleFee(fixed: seq<TokenAmount>, token: string)
    requires OneFeePerToken(fixed)
    ensures FlatSum(fixed, token) == 0.0 || exists e | e in fixed :: e.token == token && e.amount == FlatSum(fixed, token)
  {
    if fixed != [] {
      var init, last := fixed[..|fixed| - 1], fixed[|fixed| - 1];
      SingleFee(init, token);
      assert fixed == init + [last];
      if last.token == token && last.amount != 0.0 {
        forall e | e in init && e.token == token ensures e.amount == 0.0 {
          var i :| 0 <= i < |init| && init[i] == e;
          assert fixed[i] == e;
        }
        NoFee(init, token);
        assert last in fixed;
      }
    }
  }

  lemma FeesAndNeedFit(c: Candidate, f: Fees, available: map<string, real>, token: string, room: real)
    requires Priced(c, f) && c.amount > 0.0 && OneFeePerToken(c.fixed)
    requires NeedsFit(c, f, available) && FeesFit(c, f, c.fixed, available)
    requires room >= 0.0 && (token in Tokens(c) ==> Of(available, token) == room)
    ensures FlatSum(c.fixed, token) <= room && Need(c, f, token) + FlatSum(c.fixed, token) <= room
  {
    StageNeeds(c, f);
    SingleFee(c.fixed, token);
    NeedFits(c, f, available, token, room);
    hide Need, FlatSum, OneFeePerToken, Priced;
    if FlatSum(c.fixed, token) != 0.0 {
      var e :| e in c.fixed && e.token == token && e.amount == FlatSum(c.fixed, token);
      assert token in Tokens(c);
    }
  }

  lemma NeedFits(c: Candidate, f: Fees, available: map<string, real>, token: string, room: real)
    requires Priced(c, f) && c.amount > 0.0 && NeedsFit(c, f, available)
    requires room >= 0.0 && (token in Tokens(c) ==> Of(available, token) == room)
    ensures Need(c, f, token) <= room
  {
    StageNeeds(c, f);
    hide Need, Priced, FeeToken, AddedToCost;
    if token != OrderToken(c.market) && FeeTokenOf(c, f) != Some(token) {
      NeedElsewhere(c, f, token);
    }
  }

  lemma {:induction false} FlatSumOfMissing(fixed: seq<TokenAmount>, token: string)
    requires forall e | e in fixed :: e.token != token
    ensures FlatSum(fixed, token) == 0.0
  {
    NoFee(fixed, token);
  }

  lemma ClearedTiesNothing(c: Candidate, token: string)
    requires Cleared(c)
    ensures Collateral(c, token) == 0.0
  {
  }

  lemma ZeroIsCleared(c: Candidate)
    ensures Cleared(Scale(c, 0.0))
  {
    assert c.amount * 0.0 == 0.0;
  }

  // ------------------------------------------------------------------ one candidate

  /** A candidate as strategies make it: not yet populated or adjusted. */
  predicate New(c: Candidate) { c.percentFee.None? && !c.resized }

  ghost predicate RoundsDown(e: Exchange) {
    forall m: Market, x: real | x >= 0.0 :: 0.0 <= e.quantize(m, x) <= x
  }

  ghost predicate AllFree(m: Market, e: Exchange, locked: map<string, real>) {
    forall token: string :: Free(m, token, e, locked) >= 0.0
  }

  lemma RoundedFits(c: Candidate, e: Exchange, q: real, token: string, room: real)
    requires Priced(c, e.fees) && 0.0 <= q <= c.amount
    requires FlatSum(c.fixed, token) <= room && Need(c, e.fees, token) + FlatSum(c.fixed, token) <= room
    ensures Collateral(Populate(c.(amount := q), e.fees), token) <= room
  {
    var r := Populate(c.(amount := q), e.fees);
    PopulatePriced(c.(amount := q), e.fees);
    PricedCollateral(r, e.fees, token);
    KeepsFit(c.amount, q, Unit(c.market, c.price, e.fees, token), FlatSum(c.fixed, token), room);
  }

  lemma FreeIsOf(c: Candidate, e: Exchange, locked: map<string, real>, token: string)
    ensures token in Tokens(c) ==> Of(AvailableBalances(c, e, locked), token) == Free(c.market, token, e, locked)
    ensures AllFree(c.market, e, locked) ==> Of(AvailableBalances(c, e, locked), token) >= 0.0
  {
    hide Free;
  }

  /** An order that is checked at all fits, together with its fees, into what is free of every token. */
  lemma AdjustFits(c: Candidate, allOrNone: bool, e: Exchange, locked: map<string, real>, token: string)
    requires New(c) && c.amount > 0.0 && RoundsDown(e) && AllFree(c.market, e, locked)
    requires OneFeePerToken(FixedFees(c.market, e.fees.schema))
    ensures Collateral(Adjust(c, allOrNone, e, locked), token) <= Free(c.market, token, e, locked)
  {
    var p := Populate(c, e.fees);
    PopulatePriced(c, e.fees);
    hide Populate, Tokens, Free, Need, Collateral, Adjusted, AvailableBalances, Scale, OneFeePerToken, FlatSum, NeedsFit, FeesFit,
         Cleared, Priced, RoundsDown, QuantizeAdjusted, Shrunk;
    var available := AvailableBalances(p, e, locked);
    FreeIsOf(p, e, locked, OrderToken(c.market));
    FreeIsOf(p, e, locked, FeeToken(c.market, e.fees.schema));
    AdjustedFits(p, e.fees, available);
    FixedOf(p, e.fees);
    AdjustedOutcome(p, Adjusted(p, available), allOrNone, e, locked, token);
  }

  lemma FixedOf(c: Candidate, f: Fees)
    requires Priced(c, f)
    ensures c.fixed == FixedFees(c.market, f.schema)
  {
    hide Times;
  }

  lemma AdjustedOutcome(p: Candidate, a: Candidate, allOrNone: bool, e: Exchange, locked: map<string, real>, token: string)
    requires Priced(p, e.fees) && p.amount > 0.0 && OneFeePerToken(p.fixed) && RoundsDown(e) && AllFree(p.market, e, locked)
    requires Shrunk(p, a, e.fees)
    requires NeedsFit(a, e.fees, AvailableBalances(p, e, locked)) && FeesFit(a, e.fees, p.fixed, AvailableBalances(p, e, locked))
    ensures var r := if !a.resized then a else if allOrNone then Scale(a, 0.0) else QuantizeAdjusted(a, e);
            Collateral(r, token) <= Free(p.market, token, e, locked)
  {
    var room := Free(p.market, token, e, locked);
    ShrunkStage(p, a, e.fees);
    ZeroIsCleared(a);
    ClearedTiesNothing(Scale(a, 0.0), token);
    if a.amount == 0.0 {
      ZeroOutcome(p, a, e, token);
    } else {
      SameTokens(p, a, e.fees);
      FreeIsOf(p, e, locked, token);
      hide Populate, Free, Collateral, AvailableBalances, Scale, OneFeePerToken, FlatSum, NeedsFit, FeesFit,
           Cleared, Priced, Tokens, Shrunk, Need;
      FeesAndNeedFit(a, e.fees, AvailableBalances(p, e, locked), token, room);
      PricedCollateral(a, e.fees, token);
      RoundedFits(a, e, e.quantize(a.market, a.amount), token, room);
    }
  }

  lemma ZeroOutcome(p: Candidate, a: Candidate, e: Exchange, token: string)
    requires Shrunk(p, a, e.fees) && a.amount == 0.0 && RoundsDown(e)
    ensures Cleared(a) && QuantizeAdjusted(a, e) == a && Collateral(a, token) == 0.0
  {
    hide Priced;
    assert 0.0 <= e.quantize(a.market, 0.0) <= 0.0;
  }

  lemma SameTokens(p: Candidate, a: Candidate, f: Fees)
    requires Priced(p, f) && Priced(a, f) && SameMarket(p, a)
    ensures Tokens(p) == Tokens(a) && a.fixed == p.fixed
  {
    hide Times;
  }

  /** A candidate of amount zero is never checked: its fixed fees are locked whether they fit or not. */
  lemma ZeroCandidate(c: Candidate, allOrNone: bool, e: Exchange, locked: map<string, real>, token: string)
    requires New(c) && c.amount == 0.0
    ensures Collateral(Adjust(c, allOrNone, e, locked), token) == FlatSum(FixedFees(c.market, e.fees.schema), token)
  {
    PopulatePriced(c, e.fees);
    var p := Populate(c, e.fees);
    hide Populate, FlatSum;
    PricedCollateral(p, e.fees, token);
    FixedOf(p, e.fees);
    ZeroTimes(Unit(p.market, p.price, e.fees, token));
  }

  lemma ZeroTimes(k: real)
    ensures Times(0.0, k) == 0.0
  {
  }

  // ------------------------------------------------------------------ a list of candidates

  lemma LockAdds(locked: map<string, real>, c: Candidate, token: string)
    ensures Locked(Lock(locked, c), token) == Locked(locked, token) + Collateral(c, token)
  {
    hide FlatSum;
    if token !in Tokens(c) {
      assert forall e | e in c.fixed :: e.token != token;
      FlatSumOfMissing(c.fixed, token);
    }
  }

  function TotalCollateral(rs: seq<Candidate>, token: string): real {
    if rs == [] then 0.0 else TotalCollateral(rs[..|rs| - 1], token) + Collateral(rs[|rs| - 1], token)
  }

  /** The i-th candidate sees its balance less exactly what the earlier results tie up. */
  lemma {:induction false} LocksAreTotals(cs: seq<Candidate>, n: nat, allOrNone: bool, e: Exchange, token: string)
    requires n <= |cs|
    ensures Locked(LocksAfter(cs, n, allOrNone, e), token) == TotalCollateral(AdjustAll(cs, n, allOrNone, e), token)
  {
    hide *;
    if n == 0 {
      NothingYet(cs, allOrNone, e, token);
    } else {
      LocksAreTotals(cs, n - 1, allOrNone, e, token);
      AdjustStep(cs, n - 1, allOrNone, e);
      var locked := LocksAfter(cs, n - 1, allOrNone, e);
      var r := Adjust(cs[n - 1], allOrNone, e, locked);
      LockAdds(locked, r, token);
      TotalSnoc(AdjustAll(cs, n - 1, allOrNone, e), r, token);
    }
  }

  lemma NothingYet(cs: seq<Candidate>, allOrNone: bool, e: Exchange, token: string)
    ensures Locked(LocksAfter(cs, 0, allOrNone, e), token) == TotalCollateral(AdjustAll(cs, 0, allOrNone, e), token)
  {
  }

  lemma TotalSnoc(rs: seq<Candidate>, r: Candidate, token: string)
    ensures TotalCollateral(rs + [r], token) == TotalCollateral(rs, token) + Collateral(r, token)
  {
    hide Collateral;
    assert (rs + [r])[..|rs|] == rs;
  }

  /** Candidates the checker actually checks, against available balances. */
  ghost predicate Checked(c: Candidate, f: Fees) {
    && New(c) && !c.market.fromTotal
    && (c.amount > 0.0 || (c.amount == 0.0 && FixedFees(c.market, f.schema) == []))
    && OneFeePerToken(FixedFees(c.market, f.schema))
  }

  lemma OneMoreFits(c: Candidate, allOrNone: bool, e: Exchange, locked: map<string, real>, token: string)
    requires Checked(c, e.fees) && RoundsDown(e)
    requires forall t: string :: Locked(locked, t) <= e.available(t)
    ensures Locked(locked, token) + Collateral(Adjust(c, allOrNone, e, locked), token) <= e.available(token)
  {
    hide Adjust, Collateral, Locked, OneFeePerToken, FlatSum;
    assert AllFree(c.market, e, locked);
    if c.amount > 0.0 {
      AdjustFits(c, allOrNone, e, locked, token);
    } else {
      ZeroCandidate(c, allOrNone, e, locked, token);
      NoFee([], token);
    }
  }

  lemma {:induction false} LocksWithinBalances(cs: seq<Candidate>, n: nat, allOrNone: bool, e: Exchange)
    requires n <= |cs| && RoundsDown(e) && forall c | c in cs :: Checked(c, e.fees)
    requires forall t: string :: e.available(t) >= 0.0
    ensures forall t: string :: Locked(LocksAfter(cs, n, allOrNone, e), t) <= e.available(t)
  {
    hide Checked, RoundsDown, Collateral, Adjust, Lock, Locked;
    if n == 0 {
      NothingLocked();
    } else {
      LocksWithinBalances(cs, n - 1, allOrNone, e);
      assert cs[n - 1] in cs;
      var locked := LocksAfter(cs, n - 1, allOrNone, e);
      var r := Adjust(cs[n - 1], allOrNone, e, locked);
      forall t: string ensures Locked(Lock(locked, r), t) <= e.available(t) {
        OneMoreFits(cs[n - 1], allOrNone, e, locked, t);
        LockAdds(locked, r, t);
      }
    }
  }

  lemma NothingLocked()
    ensures forall t: string :: Locked(map[], t) == 0.0
  {
  }

  /** All the adjusted orders of one call together never tie up more of a token than is available. */
  lemma NeverOvercommitted(cs: seq<Candidate>, allOrNone: bool, e: Exchange, token: string)
    requires RoundsDown(e) && forall c | c in cs :: Checked(c, e.fees)
    requires forall t: string :: e.available(t) >= 0.0
    ensures TotalCollateral(AdjustAll(cs, |cs|, allOrNone, e), token) <= e.available(token)
  {
    hide *;
    LocksWithinBalances(cs, |cs|, allOrNone, e);
    LocksAreTotals(cs, |cs|, allOrNone, e, token);
  }

  // ------------------------------------------------------------------ exactly when an order is kept

  lemma {:induction false} FixedStageFlags(c: Candidate, entries: seq<TokenAmount>, orderToken: Option<string>,
                                           feeToken: Option<string>, available: map<string, real>)
    ensures var c' := FixedStage(c, entries, orderToken, feeToken, available); c' == c || c'.resized
    ensures c.resized ==> FixedStage(c, entries, orderToken, feeToken, available).resized
    decreases |entries|
  {
    hide OrderNeed, FeeNeed;
    if entries != [] && !(Of(available, entries[0].token) < entries[0].amount) {
      var c' := Entry(c, entries[0], orderToken, feeToken, Of(available, entries[0].token));
      if c'.amount != 0.0 {
        FixedStageFlags(c', entries[1..], orderToken, feeToken, available);
      }
    }
  }

  lemma AdjustedFlags(c: Candidate, available: map<string, real>)
    ensures Adjusted(c, available) == c || Adjusted(c, available).resized
  {
    hide FixedStage, PercentNeed;
    var c2 := PercentStage(OrderStage(c, available), available);
    FixedStageFlags(c2, c2.fixed, TokenOf(c2.order), TokenOf(c2.percentFee), available);
  }

  /** All-or-none: a new candidate comes back as it was, or as nothing at all. */
  lemma UntouchedOrZero(c: Candidate, e: Exchange, locked: map<string, real>)
    requires !c.resized
    ensures var r := Adjust(c, true, e, locked);
            if r.resized then Cleared(r) else r == Populate(c, e.fees) && r.amount == c.amount
  {
    hide Adjusted;
    var p := Populate(c, e.fees);
    AdjustedFlags(p, AvailableBalances(p, e, locked));
    ZeroIsCleared(Adjusted(p, AvailableBalances(p, e, locked)));
  }

  ghost predicate FeesNonNegative(m: Market, price: real, f: Fees) {
    && price > 0.0 && FeeRate(m, f) >= 0.0
    && forall e | e in FixedFees(m, f.schema) :: e.amount >= 0.0
  }

  /** Each single check of the three stages, in terms of needs. */
  ghost predicate ChecksPass(c: Candidate, f: Fees, available: map<string, real>) {
    && Times(c.amount, UnitPrice(c.market, c.price)) <= Of(available, OrderToken(c.market))
    && NeedsFit(c, f, available) && FeesFit(c, f, c.fixed, available)
  }

  lemma EntryPasses(c: Candidate, f: Fees, e: TokenAmount, available: real)
    requires Priced(c, f) && c.amount > 0.0 && e.amount <= available && Need(c, f, e.token) + e.amount <= available
    ensures Entry(c, e, Some(OrderToken(c.market)), FeeTokenOf(c, f), available) == c
  {
    StageNeeds(c, f);
    hide Priced, Need, Scale, OrderNeed, FeeNeed;
    if FeeTokenOf(c, f) == Some(e.token) && e.token == OrderToken(c.market) {
      ShrunkSelf(c, f);
      MergedStays(c, c, f);
    }
  }

  lemma {:induction false} FixedStagePasses(c: Candidate, f: Fees, entries: seq<TokenAmount>, available: map<string, real>)
    requires Priced(c, f) && c.amount > 0.0 && FeesFit(c, f, entries, available)
    ensures FixedStage(c, entries, Some(OrderToken(c.market)), FeeTokenOf(c, f), available) == c
    decreases |entries|
  {
    hide Priced, Need, Entry, Scale, OrderToken, FeeTokenOf;
    if entries != [] {
      assert entries[0] in entries;
      EntryPasses(c, f, entries[0], Of(available, entries[0].token));
      assert forall e | e in entries[1..] :: e in entries;
      FixedStagePasses(c, f, entries[1..], available);
    }
  }

  lemma ChecksKeep(c: Candidate, f: Fees, available: map<string, real>)
    requires Priced(c, f) && c.amount > 0.0 && ChecksPass(c, f, available)
    ensures Adjusted(c, available) == c
  {
    StageNeeds(c, f);
    FixedStagePasses(c, f, c.fixed, available);
    hide Priced, Need, Times, Scale, FixedStage, FeesFit, Unit, PercentNeed;
    assert OrderStage(c, available) == c;
    assert PercentStage(c, available) == c;
  }

  lemma {:induction false} FlatSumBounds(fixed: seq<TokenAmount>, token: string)
    requires forall e | e in fixed :: e.amount >= 0.0
    ensures FlatSum(fixed, token) >= 0.0
    ensures forall e | e in fixed && e.token == token :: e.amount <= FlatSum(fixed, token)
  {
    if fixed != [] {
      var init, last := fixed[..|fixed| - 1], fixed[|fixed| - 1];
      assert fixed == init + [last] && last in fixed;
      FlatSumBounds(init, token);
    }
  }

  lemma NeedNonNegative(c: Candidate, f: Fees, token: string)
    requires c.amount > 0.0 && FeesNonNegative(c.market, c.price, f)
    ensures Need(c, f, token) >= 0.0
    ensures Times(c.amount, UnitPrice(c.market, c.price)) <= Need(c, f, OrderToken(c.market))
  {
    NeedParts(c, f, token);
    NeedParts(c, f, OrderToken(c.market));
    assert UnitPrice(c.market, c.price) > 0.0;
    assert FeeUnit(c.market, c.price, f) >= 0.0;
    TimesNonNegative(c.amount, UnitPrice(c.market, c.price));
    TimesNonNegative(c.amount, FeeUnit(c.market, c.price, f));
  }

  lemma TimesNonNegative(x: real, k: real)
    requires x >= 0.0 && k >= 0.0
    ensures Times(x, k) >= 0.0
  {
  }

  /** When every token has room for the order's need and each of its fees there, no stage shrinks it. */
  lemma RoomKeeps(c: Candidate, e: Exchange, locked: map<string, real>)
    requires New(c) && c.amount > 0.0 && FeesNonNegative(c.market, c.price, e.fees)
    requires var p := Populate(c, e.fees);
             forall token: string :: Need(p, e.fees, token) <= Free(p.market, token, e, locked)
               && forall fee | fee in p.fixed && fee.token == token ::
                    Need(p, e.fees, token) + fee.amount <= Free(p.market, token, e, locked)
    ensures Adjust(c, true, e, locked) == Populate(c, e.fees)
  {
    var p := Populate(c, e.fees);
    PopulatePriced(c, e.fees);
    var available := AvailableBalances(p, e, locked);
    TokensOfPriced(p, e.fees);
    hide Populate, Need, Free, Priced, Tokens, Times, UnitPrice, OrderToken, FeeToken, AddedToCost, Adjusted, AvailableBalances;
    FreeIsOf(p, e, locked, OrderToken(p.market));
    FreeIsOf(p, e, locked, FeeToken(p.market, e.fees.schema));
    NeedNonNegative(p, e.fees, OrderToken(p.market));
    forall fee | fee in p.fixed
      ensures fee.amount <= Of(available, fee.token) && Need(p, e.fees, fee.token) + fee.amount <= Of(available, fee.token)
    {
      FreeIsOf(p, e, locked, fee.token);
      NeedNonNegative(p, e.fees, fee.token);
    }
    ChecksKeep(p, e.fees, available);
    NotResized(c, e.fees);
  }

  lemma NotResized(c: Candidate, f: Fees)
    requires New(c)
    ensures !Populate(c, f).resized
  {
  }

  lemma TokensOfPriced(c: Candidate, f: Fees)
    requires Priced(c, f)
    ensures OrderToken(c.market) in Tokens(c)
    ensures AddedToCost(c.market, f.schema) ==> FeeToken(c.market, f.schema) in Tokens(c)
    ensures forall fee | fee in c.fixed :: fee.token in Tokens(c)
  {
    hide Times;
  }

  /** All-or-none keeps an order exactly when its whole collateral fits, token by token. */
  lemma KeptIffItFits(c: Candidate, e: Exchange, locked: map<string, real>)
    requires New(c) && c.amount > 0.0 && RoundsDown(e) && AllFree(c.market, e, locked)
    requires FeesNonNegative(c.market, c.price, e.fees) && OneFeePerToken(FixedFees(c.market, e.fees.schema))
    ensures !Adjust(c, true, e, locked).resized
       <==> forall token: string :: Collateral(Populate(c, e.fees), token) <= Free(c.market, token, e, locked)
  {
    var p := Populate(c, e.fees);
    PopulatePriced(c, e.fees);
    FixedOf(p, e.fees);
    NotResized(c, e.fees);
    hide Populate, Need, Free, Priced, FlatSum, Collateral, Adjust, RoundsDown, OneFeePerToken, Times, UnitPrice;
    UntouchedOrZero(c, e, locked);
    if !Adjust(c, true, e, locked).resized {
      forall token: string ensures Collateral(p, token) <= Free(c.market, token, e, locked) {
        AdjustFits(c, true, e, locked, token);
      }
    }
    if forall token: string :: Collateral(p, token) <= Free(c.market, token, e, locked) {
      forall token: string
        ensures Need(p, e.fees, token) <= Free(p.market, token, e, locked)
        ensures forall fee | fee in p.fixed && fee.token == token ::
                  Need(p, e.fees, token) + fee.amount <= Free(p.market, token, e, locked)
      {
        PricedCollateral(p, e.fees, token);
        FlatSumBounds(p.fixed, token);
      }
      RoomKeeps(c, e, locked);
    }
  }

  // ------------------------------------------------------------------ repeated fee tokens

  lemma {:induction false} TwoFees(fixed: seq<TokenAmount>, i: nat, j: nat)
    requires i < j < |fixed| && fixed[i].token == fixed[j].token && forall e | e in fixed :: e.amount >= 0.0
    ensures FlatSum(fixed, fixed[i].token) >= fixed[i].amount + fixed[j].amount
  {
    var n := |fixed| - 1;
    var init := fixed[..n];
    assert forall e | e in init :: e in fixed;
    assert fixed[n] in fixed;
    if j < n {
      TwoFees(init, i, j);
    } else {
      FlatSumBounds(init, fixed[i].token);
      assert init[i] in init;
    }
  }

  /** The fee rule is needed: whenever a token is charged two fixed fees, there are balances under
      which the order is kept although its collateral exceeds what is free of that token. */
  lemma RepeatedFeesOvercommit(c: Candidate, e: Exchange, i: nat, j: nat) returns (e': Exchange)
    requires New(c) && !c.market.fromTotal && c.amount > 0.0 && FeesNonNegative(c.market, c.price, e.fees)
    requires var fixed := FixedFees(c.market, e.fees.schema);
             i < j < |fixed| && fixed[i].token == fixed[j].token && fixed[i].amount > 0.0 && fixed[j].amount > 0.0
    ensures e'.fees == e.fees && e'.quantize == e.quantize && AllFree(c.market, e', map[])
    ensures var token := FixedFees(c.market, e.fees.schema)[i].token;
            !Adjust(c, true, e', map[]).resized
            && Collateral(Adjust(c, true, e', map[]), token) > Free(c.market, token, e', map[])
  {
    var p := Populate(c, e.fees);
    PopulatePriced(c, e.fees);
    FixedOf(p, e.fees);
    var fixed := p.fixed;
    var token := fixed[i].token;
    var spare := if fixed[i].amount <= fixed[j].amount then fixed[i].amount else fixed[j].amount;
    e' := e.(available := t => Collateral(p, t) - if t == token then spare else 0.0);
    FreeIsAvailable(p.market, e');
    NotResized(c, e.fees);
    hide Populate, Priced, FlatSum, Adjust, Need, Free, Times, UnitPrice, Collateral;
    TwoFees(fixed, i, j);
    forall t: string
      ensures 0.0 <= Need(p, e.fees, t) <= Free(p.market, t, e', map[])
      ensures forall fee | fee in p.fixed && fee.token == t :: Need(p, e.fees, t) + fee.amount <= Free(p.market, t, e', map[])
    {
      PricedCollateral(p, e.fees, t);
      FlatSumBounds(fixed, t);
      NeedNonNegative(p, e.fees, t);
      if t == token {
        SpareLeaves(fixed, i, j, spare);
      }
    }
    RoomKeeps(c, e', map[]);
  }

  lemma FreeIsAvailable(m: Market, e: Exchange)
    requires !m.fromTotal
    ensures forall token: string :: Free(m, token, e, map[]) == e.available(token)
  {
  }

  /** Leaving out the smaller of two fees of a token still covers each single fee there. */
  lemma {:induction false} SpareLeaves(fixed: seq<TokenAmount>, i: nat, j: nat, spare: real)
    requires i < j < |fixed| && fixed[i].token == fixed[j].token && forall e | e in fixed :: e.amount >= 0.0
    requires spare <= fixed[i].amount && spare <= fixed[j].amount
    ensures forall e | e in fixed && e.token == fixed[i].token :: e.amount <= FlatSum(fixed, fixed[i].token) - spare
  {
    var token := fixed[i].token;
    forall k | 0 <= k < |fixed| && fixed[k].token == token ensures fixed[k].amount <= FlatSum(fixed, token) - spare {
      if k == i || k == j {
        TwoFees(fixed, i, j);
      } else if k < i {
        TwoFees(fixed, k, i);
      } else {
        TwoFees(fixed, i, k);
      }
    }
  }
}
