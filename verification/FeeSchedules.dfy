/** Which fee schedules the budget checker is safe for, and what a candidate of amount zero can do. */
module FeeSchedules {
  import opened Results
  import opened OrderCandidates
  import opened BudgetChecker
  import opened BudgetLaws
  import opened BudgetTheorems

  /** The same exchange with any balances that are not negative. */
  ghost predicate Funded(e': Exchange, e: Exchange) {
    e'.fees == e.fees && e'.quantize == e.quantize && forall token: string :: e'.available(token) >= 0.0
  }

  ghost predicate Overcommitted(cs: seq<Candidate>, allOrNone: bool, e: Exchange, token: string) {
    TotalCollateral(AdjustAll(cs, |cs|, allOrNone, e), token) > e.available(token)
  }

  /** Orders for something, in this market. */
  ghost predicate OrdersFor(cs: seq<Candidate>, m: Market) {
    forall c | c in cs :: New(c) && c.market == m && c.amount > 0.0
  }

  /** No list of such orders is ever over-committed, whatever the balances. */
  ghost predicate SafeOn(m: Market, e: Exchange) {
    forall e': Exchange, cs, allOrNone, token |
      Funded(e', e) && OrdersFor(cs, m) :: !Overcommitted(cs, allOrNone, e', token)
  }

  /** The checker is safe in a market exactly when no token is charged two non-zero fixed fees there. */
  lemma SafeIffOneFeePerToken(m: Market, price: real, e: Exchange)
    requires !m.fromTotal && RoundsDown(e) && FeesNonNegative(m, price, e.fees)
    ensures SafeOn(m, e) <==> OneFeePerToken(FixedFees(m, e.fees.schema))
  {
    if OneFeePerToken(FixedFees(m, e.fees.schema)) {
      forall e': Exchange, cs, allOrNone, token | Funded(e', e) && OrdersFor(cs, m)
        ensures !Overcommitted(cs, allOrNone, e', token)
      {
        SafeOrders(m, e, e', cs, allOrNone, token);
      }
    } else {
      UnsafeOrder(m, price, e);
    }
  }

  lemma SafeOrders(m: Market, e: Exchange, e': Exchange, cs: seq<Candidate>, allOrNone: bool, token: string)
    requires !m.fromTotal && RoundsDown(e) && OneFeePerToken(FixedFees(m, e.fees.schema))
    requires Funded(e', e) && OrdersFor(cs, m)
    ensures !Overcommitted(cs, allOrNone, e', token)
  {
    hide TotalCollateral, AdjustAll, OneFeePerToken;
    NeverOvercommitted(cs, allOrNone, e', token);
  }

  lemma UnsafeOrder(m: Market, price: real, e: Exchange)
    requires !m.fromTotal && FeesNonNegative(m, price, e.fees)
    requires !OneFeePerToken(FixedFees(m, e.fees.schema))
    ensures !SafeOn(m, e)
  {
    var fixed := FixedFees(m, e.fees.schema);
    var i: nat, j: nat :| i < j < |fixed| && fixed[i].token == fixed[j].token
                          && fixed[i].amount != 0.0 && fixed[j].amount != 0.0;
    assert fixed[i] in fixed && fixed[j] in fixed;
    var c := Candidate(m, price, 1.0, None, None, [], false);
    hide Adjust, Collateral, OneFeePerToken, AdjustAll, TotalCollateral;
    var e' := RepeatedFeesOvercommit(c, e, i, j);
    FreeIsAvailable(m, e');
    AllFreeIsFunded(m, e', e);
    SingleTotal(c, true, e', fixed[i].token);
    assert Overcommitted([c], true, e', fixed[i].token);
    assert OrdersFor([c], m);
  }

  lemma AllFreeIsFunded(m: Market, e': Exchange, e: Exchange)
    requires !m.fromTotal && AllFree(m, e', map[]) && e'.fees == e.fees && e'.quantize == e.quantize
    ensures Funded(e', e)
  {
    FreeIsAvailable(m, e');
    forall token: string ensures e'.available(token) >= 0.0 {
      assert Free(m, token, e', map[]) >= 0.0;
    }
  }

  lemma SingleTotal(c: Candidate, allOrNone: bool, e: Exchange, token: string)
    ensures TotalCollateral(AdjustAll([c], 1, allOrNone, e), token) == Collateral(Adjust(c, allOrNone, e, map[]), token)
  {
    hide Adjust, Collateral;
    AdjustStep([c], 0, allOrNone, e);
    assert LocksAfter([c], 0, allOrNone, e) == map[];
    TotalSnoc([], Adjust(c, allOrNone, e, map[]), token);
  }

  // ------------------------------------------------------------------ amounts of zero

  const FLAT := TokenAmount("USDT", 1.0)
  const BTC_USDT := Market("BTC", "USDT", true, true, false)
  const FLAT_FEES := FeeSchema(None, false, 0.0, 0.0, [FLAT], [])
  const ZERO_ORDER := Candidate(BTC_USDT, 1.0, 0.0, None, None, [], false)

  function Broke(): Exchange {
    Exchange(t => 0.0, t => 0.0, (m, x) => x, Fees(FLAT_FEES, (a, b) => 1.0))
  }

  /** With nothing in the account and one fixed fee, an order for nothing is passed and ties up the fee. */
  lemma ZeroOvercommits(allOrNone: bool)
    ensures OneFeePerToken(FixedFees(BTC_USDT, Broke().fees.schema)) && RoundsDown(Broke())
    ensures New(ZERO_ORDER) && ZERO_ORDER.amount == 0.0
    ensures Overcommitted([ZERO_ORDER], allOrNone, Broke(), "USDT")
  {
    hide Adjust, Collateral, AdjustAll, TotalCollateral, FlatSum, Broke, OneFeePerToken, RoundsDown;
    BrokeExchange();
    ZeroCandidate(ZERO_ORDER, allOrNone, Broke(), map[], "USDT");
    FlatFee();
    SingleTotal(ZERO_ORDER, allOrNone, Broke(), "USDT");
  }

  lemma FlatFee()
    ensures FlatSum([FLAT], "USDT") == 1.0
  {
    assert [FLAT][..0] == [];
  }

  lemma BrokeExchange()
    ensures FixedFees(BTC_USDT, Broke().fees.schema) == [FLAT] && Broke().available("USDT") == 0.0
    ensures OneFeePerToken([FLAT]) && RoundsDown(Broke())
  {
  }
}
