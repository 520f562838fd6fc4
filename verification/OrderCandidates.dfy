/** An order candidate: the collateral it needs, and how it shrinks to fit the balances at hand. */
module OrderCandidates {
  import opened Results

  datatype TokenAmount = TokenAmount(token: string, amount: real)

  datatype FeeSchema = FeeSchema(percentToken: Option<string>, buyDeducted: bool, makerPercent: real, takerPercent: real,
                                 makerFixed: seq<TokenAmount>, takerFixed: seq<TokenAmount>)

  /** What never changes about a candidate. */
  datatype Market = Market(base: string, quote: string, isBuy: bool, isMaker: bool, fromTotal: bool)

  datatype Candidate = Candidate(market: Market, price: real, amount: real, order: Option<TokenAmount>,
                                 percentFee: Option<TokenAmount>, fixed: seq<TokenAmount>, resized: bool)

  /** `rate` is the price of buying the second token with the first. */
  datatype Fees = Fees(schema: FeeSchema, rate: (string, string) -> real)

  // ------------------------------------------------------------------ collateral

  function OrderToken(m: Market): string { if m.isBuy then m.quote else m.base }
  function OrderSize(c: Candidate): real { if c.market.isBuy then c.amount * c.price else c.amount }
  function Percent(m: Market, s: FeeSchema): real { if m.isMaker then s.makerPercent else s.takerPercent }
  function FixedFees(m: Market, s: FeeSchema): seq<TokenAmount> { if m.isMaker then s.makerFixed else s.takerFixed }

  /** Percent fees raise the cost of buys only, and only when they are not taken from the returns. */
  predicate AddedToCost(m: Market, s: FeeSchema) {
    m.isBuy && (!s.buyDeducted || s.percentToken.Some?) && Percent(m, s) != 0.0
  }

  function FeeToken(m: Market, s: FeeSchema): string {
    if s.percentToken.Some? then s.percentToken.value else OrderToken(m)
  }

  function PercentImpact(c: Candidate, f: Fees): Option<TokenAmount> {
    var token, feeToken, percent := OrderToken(c.market), FeeToken(c.market, f.schema), Percent(c.market, f.schema);
    if !AddedToCost(c.market, f.schema) then None
    else if feeToken != token then Some(TokenAmount(feeToken, OrderSize(c) * f.rate(token, feeToken) * percent))
    else Some(TokenAmount(feeToken, OrderSize(c) * percent))
  }

  function Populate(c: Candidate, f: Fees): Candidate {
    var impact := PercentImpact(c, f);
    c.(order := Some(TokenAmount(OrderToken(c.market), OrderSize(c))),
       percentFee := if impact.Some? then impact else c.percentFee,
       fixed := FixedFees(c.market, f.schema))
  }

  function Part(entry: Option<TokenAmount>, token: string): real {
    if entry.Some? && entry.value.token == token then entry.value.amount else 0.0
  }

  function FlatSum(fixed: seq<TokenAmount>, token: string): real {
    if fixed == [] then 0.0
    else FlatSum(fixed[..|fixed| - 1], token) + Part(Some(fixed[|fixed| - 1]), token)
  }

  /** Everything the candidate ties up in one token. */
  function Collateral(c: Candidate, token: string): real {
    Part(c.order, token) + Part(c.percentFee, token) + FlatSum(c.fixed, token)
  }

  function OptionalToken(entry: Option<TokenAmount>): set<string> { if entry.Some? then {entry.value.token} else {} }

  function Tokens(c: Candidate): set<string> {
    OptionalToken(c.order) + OptionalToken(c.percentFee) + set e | e in c.fixed :: e.token
  }

  // ------------------------------------------------------------------ shrinking

  function ScaledEntry(entry: Option<TokenAmount>, s: real): Option<TokenAmount> {
    if entry.Some? then Some(TokenAmount(entry.value.token, entry.value.amount * s)) else None
  }

  /** Shrinking leaves fixed fees as they are, unless nothing is left of the order. */
  function Scale(c: Candidate, s: real): Candidate {
    if c.amount * s == 0.0 then c.(amount := 0.0, order := None, percentFee := None, fixed := [], resized := true)
    else
      c.(amount := c.amount * s, order := ScaledEntry(c.order, s), percentFee := ScaledEntry(c.percentFee, s), resized := true)
  }

  function Of(available: map<string, real>, token: string): real {
    if token in available then available[token] else 0.0
  }

  /** A need of zero can only fall short of a negative balance; the division by it is an error there,
      and the stages below leave the candidate alone. */
  function OrderStage(c: Candidate, available: map<string, real>): Candidate {
    if c.order.Some? && Of(available, c.order.value.token) < c.order.value.amount
    then
      if c.order.value.amount == 0.0 then c else Scale(c, Of(available, c.order.value.token) / c.order.value.amount)
    else c
  }

  function PercentNeed(c: Candidate): real {
    if c.percentFee.None? then 0.0
    else c.percentFee.value.amount
         + if c.order.Some? && c.order.value.token == c.percentFee.value.token then c.order.value.amount else 0.0
  }

  function PercentStage(c: Candidate, available: map<string, real>): Candidate {
    if c.percentFee.Some? && Of(available, c.percentFee.value.token) < PercentNeed(c)
    then
      if PercentNeed(c) == 0.0 then c else Scale(c, Of(available, c.percentFee.value.token) / PercentNeed(c))
    else c
  }

  /** Order and percent-fee needs as the fixed-fee stage sees them: merged when in the same token. */
  predicate Merged(c: Candidate) {
    c.order.Some? && c.percentFee.Some? && c.order.value.token == c.percentFee.value.token
  }

  function OrderNeed(c: Candidate): real {
    (if c.order.Some? then c.order.value.amount else 0.0) + if Merged(c) then c.percentFee.value.amount else 0.0
  }

  function FeeNeed(c: Candidate): real {
    if c.percentFee.Some? && !Merged(c) then c.percentFee.value.amount else 0.0
  }

  /** Shrinks so that `need` fits beside the fixed fee `amount`. */
  function MakeRoom(c: Candidate, need: real, amount: real, available: real): Candidate {
    if available < amount + need && need != 0.0 then Scale(c, (available - amount) / need) else c
  }

  function Entry(c: Candidate, e: TokenAmount, orderToken: Option<string>, feeToken: Option<string>, available: real): Candidate {
    var c1 := if orderToken == Some(e.token) then MakeRoom(c, OrderNeed(c), e.amount, available) else c;
    if feeToken == Some(e.token) then MakeRoom(c1, FeeNeed(c1), e.amount, available) else c1
  }

  function FixedStage(c: Candidate, entries: seq<TokenAmount>, orderToken: Option<string>, feeToken: Option<string>,
                      available: map<string, real>): Candidate
    decreases |entries|
  {
    if entries == [] then c
    else if Of(available, entries[0].token) < entries[0].amount then Scale(c, 0.0)
    else
      var c' := Entry(c, entries[0], orderToken, feeToken, Of(available, entries[0].token));
      if c'.amount == 0.0 then c' else FixedStage(c', entries[1..], orderToken, feeToken, available)
  }

  function TokenOf(entry: Option<TokenAmount>): Option<string> { if entry.Some? then Some(entry.value.token) else None }

  function Adjusted(c: Candidate, available: map<string, real>): Candidate {
    if c.amount == 0.0 then c
    else
      var c1 := OrderStage(c, available);
      if c1.amount == 0.0 then c1
      else
        var c2 := PercentStage(c1, available);
        if c2.amount == 0.0 then c2
        else FixedStage(c2, c2.fixed, TokenOf(c2.order), TokenOf(c2.percentFee), available)
  }

  // ------------------------------------------------------------------ the object

  class OrderCandidate {
    const market: Market
    const price: real
    var amount: real
    var order: Option<TokenAmount>
    var percentFee: Option<TokenAmount>
    var fixed: seq<TokenAmount>
    var resized: bool

    function Value(): Candidate
      reads this
    {
      Candidate(market, price, amount, order, percentFee, fixed, resized)
    }

    constructor (c: Candidate)
      ensures Value() == c
    {
      market, price, amount, order, percentFee, fixed, resized :=
        c.market, c.price, c.amount, c.order, c.percentFee, c.fixed, c.resized;
    }

    method Copy() returns (r: OrderCandidate)
      ensures fresh(r) && r.Value() == Value()
    {
      r := new OrderCandidate(Value());
    }

    method PopulateCollateralEntries(f: Fees)
      modifies this
      ensures Value() == Populate(old(Value()), f)
    {
      hide PercentImpact, OrderSize;
      var impact := PercentImpact(Value(), f);
      order := Some(TokenAmount(OrderToken(market), OrderSize(Value())));
      if impact.Some? {
        percentFee := impact;
      }
      PopulateFixedFeeCollateralEntries(FixedFees(market, f.schema));
    }

    method PopulateFixedFeeCollateralEntries(fees: seq<TokenAmount>)
      modifies this`fixed
      ensures fixed == fees
    {
      fixed := [];
      for i := 0 to |fees|
        invariant fixed == fees[..i]
      {
        fixed := fixed + [fees[i]];
      }
    }

    method ScaleOrder(s: real)
      modifies this
      ensures Value() == Scale(old(Value()), s)
    {
      amount := amount * s;
      order, percentFee := ScaledEntry(order, s), ScaledEntry(percentFee, s);
      if amount == 0.0 {
        order, percentFee, fixed := None, None, [];
      }
      resized := true;
    }

    method AdjustFromBalances(available: map<string, real>)
      modifies this
      ensures Value() == Adjusted(old(Value()), available)
    {
      hide Scale, FixedStage, OrderStage, PercentStage;
      if amount != 0.0 {
        AdjustForOrderCollateral(available);
      }
      if amount != 0.0 {
        AdjustForPercentFeeCollateral(available);
      }
      if amount != 0.0 {
        AdjustForFixedFeeCollaterals(available);
      }
    }

    method AdjustForOrderCollateral(available: map<string, real>)
      modifies this
      ensures Value() == OrderStage(old(Value()), available)
    {
      hide Scale;
      if order.Some? && Of(available, order.value.token) < order.value.amount && order.value.amount != 0.0 {
        ScaleOrder(Of(available, order.value.token) / order.value.amount);
      }
    }

    method AdjustForPercentFeeCollateral(available: map<string, real>)
      modifies this
      ensures Value() == PercentStage(old(Value()), available)
    {
      hide Scale, PercentNeed;
      if percentFee.Some? {
        var need := PercentNeed(Value());
        if Of(available, percentFee.value.token) < need && need != 0.0 {
          ScaleOrder(Of(available, percentFee.value.token) / need);
        }
      }
    }

    method AdjustForFixedFeeCollaterals(available: map<string, real>)
      modifies this
      ensures var c := old(Value()); Value() == FixedStage(c, c.fixed, TokenOf(c.order), TokenOf(c.percentFee), available)
    {
      var orderToken, feeToken, entries := TokenOf(order), TokenOf(percentFee), fixed;
      ghost var c := Value();
      for i := 0 to |entries|
        invariant FixedStage(Value(), entries[i..], orderToken, feeToken, available)
               == FixedStage(c, entries, orderToken, feeToken, available)
      {
        hide Scale, Entry;
        var e := entries[i];
        assert entries[i..][0] == e && entries[i..][1..] == entries[i + 1..];
        if Of(available, e.token) < e.amount {
          ScaleOrder(0.0);
          return;
        }
        MakeRoomFor(e, orderToken, feeToken, Of(available, e.token));
        if amount == 0.0 {
          return;
        }
      }
    }

    method MakeRoomFor(e: TokenAmount, orderToken: Option<string>, feeToken: Option<string>, available: real)
      modifies this
      ensures Value() == Entry(old(Value()), e, orderToken, feeToken, available)
    {
      hide Scale, OrderNeed, FeeNeed;
      var orderNeed := OrderNeed(Value());
      if orderToken == Some(e.token) && available < e.amount + orderNeed && orderNeed != 0.0 {
        ScaleOrder((available - e.amount) / orderNeed);
      }
      var feeNeed := FeeNeed(Value());
      if feeToken == Some(e.token) && available < e.amount + feeNeed && feeNeed != 0.0 {
        ScaleOrder((available - e.amount) / feeNeed);
      }
    }
  }
}
