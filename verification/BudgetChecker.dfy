/** The budget checker: candidates are fitted one after another to what the earlier ones left. */
module BudgetChecker {
  import opened Results
  import opened OrderCandidates

  /** What is asked of the exchange; `quantize` rounds an order amount. */
  datatype Exchange = Exchange(total: string -> real, available: string -> real,
                               quantize: (Market, real) -> real, fees: Fees)

  function Locked(locked: map<string, real>, token: string): real { if token in locked then locked[token] else 0.0 }

  function Balance(m: Market, token: string, e: Exchange): real {
    if m.fromTotal then e.total(token) else e.available(token)
  }

  /** What is left of a token for this candidate. */
  function Free(m: Market, token: string, e: Exchange, locked: map<string, real>): real {
    Balance(m, token, e) - Locked(locked, token)
  }

  function AvailableBalances(c: Candidate, e: Exchange, locked: map<string, real>): map<string, real> {
    map token | token in Tokens(c) :: Free(c.market, token, e, locked)
  }

  function QuantizeAdjusted(c: Candidate, e: Exchange): Candidate {
    var q := e.quantize(c.market, c.amount);
    if c.amount != q then Populate(c.(amount := q), e.fees) else c
  }

  /** Fit one candidate: as it is, shrunk to what is free and rounded, or zero. */
  function Adjust(c: Candidate, allOrNone: bool, e: Exchange, locked: map<string, real>): Candidate {
    var populated := Populate(c, e.fees);
    var adjusted := Adjusted(populated, AvailableBalances(populated, e, locked));
    if !adjusted.resized then adjusted
    else if allOrNone then Scale(adjusted, 0.0)
    else QuantizeAdjusted(adjusted, e)
  }

  function Lock(locked: map<string, real>, c: Candidate): map<string, real> {
    map token | token in locked.Keys + Tokens(c) :: Locked(locked, token) + Collateral(c, token)
  }

  /** The locks after the first `n` adjusted candidates. */
  function LocksAfter(cs: seq<Candidate>, n: nat, allOrNone: bool, e: Exchange): map<string, real>
    requires n <= |cs|
  {
    if n == 0 then map[]
    else
      var before := LocksAfter(cs, n - 1, allOrNone, e);
      Lock(before, Adjust(cs[n - 1], allOrNone, e, before))
  }

  function AdjustAt(cs: seq<Candidate>, i: nat, allOrNone: bool, e: Exchange): Candidate
    requires i < |cs|
  {
    Adjust(cs[i], allOrNone, e, LocksAfter(cs, i, allOrNone, e))
  }

  /** The first `n` results. */
  function AdjustAll(cs: seq<Candidate>, n: nat, allOrNone: bool, e: Exchange): seq<Candidate>
    requires n <= |cs|
  {
    if n == 0 then [] else AdjustAll(cs, n - 1, allOrNone, e) + [AdjustAt(cs, n - 1, allOrNone, e)]
  }

  ghost function Values(orders: seq<OrderCandidate>): (cs: seq<Candidate>)
    reads orders
    ensures |cs| == |orders|
  {
    seq(|orders|, i requires 0 <= i < |orders| reads orders => orders[i].Value())
  }

  lemma ValueAt(orders: seq<OrderCandidate>, i: nat)
    requires i < |orders|
    ensures Values(orders)[i] == orders[i].Value()
  {
  }

  lemma NothingAdjusted(cs: seq<Candidate>, allOrNone: bool, e: Exchange)
    ensures LocksAfter(cs, 0, allOrNone, e) == map[] && AdjustAll(cs, 0, allOrNone, e) == [] == Values([])
  {
  }

  lemma ValuesSnoc(orders: seq<OrderCandidate>, order: OrderCandidate)
    ensures Values(orders + [order]) == Values(orders) + [order.Value()]
  {
  }

  lemma AdjustStep(cs: seq<Candidate>, i: nat, allOrNone: bool, e: Exchange)
    requires i < |cs|
    ensures var before := LocksAfter(cs, i, allOrNone, e);
            var r := Adjust(cs[i], allOrNone, e, before);
            LocksAfter(cs, i + 1, allOrNone, e) == Lock(before, r)
            && AdjustAll(cs, i + 1, allOrNone, e) == AdjustAll(cs, i, allOrNone, e) + [r]
  {
    hide Adjust, Lock;
  }

  /** The i-th result is the i-th candidate fitted to what the earlier results have left. */
  lemma {:induction false} AdjustedInOrder(cs: seq<Candidate>, n: nat, allOrNone: bool, e: Exchange)
    requires n <= |cs|
    ensures |AdjustAll(cs, n, allOrNone, e)| == n
    ensures forall i | 0 <= i < n :: AdjustAll(cs, n, allOrNone, e)[i] == AdjustAt(cs, i, allOrNone, e)
  {
    hide AdjustAt;
    if n > 0 {
      AdjustedInOrder(cs, n - 1, allOrNone, e);
    }
  }

  class BudgetChecker {
    const e: Exchange
    var locked: map<string, real>

    constructor (e: Exchange)
      ensures this.e == e && locked == map[]
    {
      this.e, locked := e, map[];
    }

    method ResetLockedCollateral()
      modifies this`locked
      ensures locked == map[]
    {
      locked := map[];
    }

    /** Every candidate passed in stays as it was; the results are new objects, and no lock remains. */
    method AdjustCandidates(orders: seq<OrderCandidate>, allOrNone: bool) returns (adjusted: seq<OrderCandidate>)
      modifies this`locked
      ensures locked == map[] && forall r | r in adjusted :: fresh(r)
      ensures Values(adjusted) == AdjustAll(Values(orders), |orders|, allOrNone, e)
    {
      hide *;
      ResetLockedCollateral();
      adjusted := [];
      ghost var cs := Values(orders);
      NothingAdjusted(cs, allOrNone, e);
      for i := 0 to |orders|
        invariant locked == LocksAfter(cs, i, allOrNone, e) && |adjusted| == i
        invariant forall k | 0 <= k < i :: fresh(adjusted[k])
        invariant Values(adjusted) == AdjustAll(cs, i, allOrNone, e)
      {
        ValueAt(orders, i);
        AdjustStep(cs, i, allOrNone, e);
        ghost var before := Values(adjusted);
        var order := AdjustCandidateAndLockAvailableCollateral(orders[i], allOrNone);
        assert Values(adjusted) == before;
        ValuesSnoc(adjusted, order);
        adjusted := adjusted + [order];
      }
      ResetLockedCollateral();
    }

    method AdjustCandidateAndLockAvailableCollateral(order: OrderCandidate, allOrNone: bool) returns (r: OrderCandidate)
      modifies this`locked
      ensures fresh(r) && r.Value() == Adjust(order.Value(), allOrNone, e, old(locked))
      ensures locked == Lock(old(locked), r.Value())
    {
      hide Adjust, Lock;
      r := AdjustCandidate(order, allOrNone);
      LockAvailableCollateral(r);
    }

    method AdjustCandidate(order: OrderCandidate, allOrNone: bool) returns (r: OrderCandidate)
      ensures fresh(r) && r.Value() == Adjust(order.Value(), allOrNone, e, locked)
    {
      hide Adjusted, Populate, Scale, AvailableBalances;
      r := order.Copy();
      r.PopulateCollateralEntries(e.fees);
      var balances := GetAvailableBalances(r);
      r.AdjustFromBalances(balances);
      if r.resized {
        if allOrNone {
          r.ScaleOrder(0.0);
        } else {
          r := QuantizeAdjustedOrder(r);
        }
      }
    }

    method GetAvailableBalances(order: OrderCandidate) returns (balances: map<string, real>)
      ensures balances == AvailableBalances(order.Value(), e, locked)
    {
      balances := map[];
      if order.order.Some? {
        var token := order.order.value.token;
        balances := balances[token := Free(order.market, token, e, locked)];
      }
      if order.percentFee.Some? {
        var token := order.percentFee.value.token;
        balances := balances[token := Free(order.market, token, e, locked)];
      }
      ghost var named := OptionalToken(order.order) + OptionalToken(order.percentFee);
      for i := 0 to |order.fixed|
        invariant balances.Keys == named + set k | 0 <= k < i :: order.fixed[k].token
        invariant forall token | token in balances :: balances[token] == Free(order.market, token, e, locked)
      {
        var token := order.fixed[i].token;
        balances := balances[token := Free(order.market, token, e, locked)];
      }
      assert (set k | 0 <= k < |order.fixed| :: order.fixed[k].token) == set entry | entry in order.fixed :: entry.token;
    }

    method QuantizeAdjustedOrder(order: OrderCandidate) returns (r: OrderCandidate)
      modifies order
      ensures (r == order || fresh(r)) && r.Value() == QuantizeAdjusted(old(order.Value()), e)
    {
      hide Populate;
      r := order;
      var q := e.quantize(order.market, order.amount);
      if order.amount != q {
        order.amount := q;
        r := order.Copy();
        r.PopulateCollateralEntries(e.fees);
      }
    }

    method LockAvailableCollateral(order: OrderCandidate)
      modifies this`locked
      ensures locked == Lock(old(locked), order.Value())
    {
      var c := order.Value();
      locked := map token | token in locked.Keys + Tokens(c) :: Locked(locked, token) + Collateral(c, token);
    }
  }
}
