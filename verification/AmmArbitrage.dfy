/** Constant-product pool pricing and the two-venue arbitrage decision of the XRPL script. */
module AmmArbitrage {

  import opened Results
  import opened RealFacts

  /** Pool reserves: base and quote token amounts. */
  datatype Pool = Pool(base: real, quote: real)

  function Vwap(pool: Pool, amount: real, isBuy: bool): Result<real> {
    if amount <= 0.0 then Err("Trade volume must be positive.")
    else if pool.base <= 0.0 || pool.quote <= 0.0 then Err("Initial pool reserves must be positive.")
    else if isBuy then
      if amount >= pool.base then Err("Cannot buy more base asset than available.")
      else Ok(pool.quote / (pool.base - amount))
    else Ok(pool.quote / (pool.base + amount))
  }

  /** The pool after trading `amount` of base at the effective price. */
  function Traded(pool: Pool, amount: real, price: real, isBuy: bool): Pool {
    if isBuy then Pool(pool.base - amount, pool.quote + amount * price)
    else Pool(pool.base + amount, pool.quote - amount * price)
  }

  /** The part of the input reserve after the trade that the trade brought in. */
  function InputFraction(input: real, reserve: real): real
    requires reserve + input != 0.0
  {
    input / (reserve + input)
  }

  /** Quote to pay for `amount` of base. */
  function Paid(pool: Pool, amount: real): real
    requires amount != pool.base
  {
    pool.quote * amount / (pool.base - amount)
  }

  function Impact(pool: Pool, amount: real, isSelling: bool): Result<real> {
    if amount <= 0.0 then Ok(0.0)
    else if isSelling then
      if pool.base < 0.0 then Err("Initial base reserve cannot be negative when selling base.")
      else Ok(InputFraction(amount, pool.base) * 100.0)
    else if pool.base <= 0.0 || pool.quote <= 0.0 then
      Err("Initial pool reserves must be positive for buying base.")
    else if amount >= pool.base then Ok(100.0)
    else
      QuotientSign(pool.quote * amount, pool.base - amount);
      Ok(InputFraction(Paid(pool, amount), pool.quote) * 100.0)
  }

  /** Trading at the returned price leaves the product of the reserves where it was. */
  lemma TradeKeepsProduct(pool: Pool, amount: real, isBuy: bool)
    requires Vwap(pool, amount, isBuy).Ok?
    ensures var after := Traded(pool, amount, Vwap(pool, amount, isBuy).value, isBuy);
            && after.base > 0.0 && after.quote > 0.0
            && after.base * after.quote == pool.base * pool.quote
  {
    var p := Vwap(pool, amount, isBuy).value;
    var after := Traded(pool, amount, p, isBuy);
    assert p * after.base == pool.quote;
    assert p > 0.0;
    if isBuy {
      assert after.quote == p * after.base + amount * p == p * pool.base by { Distribute(p, after.base, amount); }
      ProductOfScaled(after.base, p, pool.base);
    } else {
      assert after.quote == p * pool.base by { Distribute(p, pool.base, amount); }
      ProductOfScaled(after.base, p, pool.base);
    }
  }

  lemma Distribute(p: real, x: real, y: real)
    ensures p * (x + y) == p * x + y * p
  {
  }

  lemma ProductOfScaled(b: real, p: real, c: real)
    requires p > 0.0 && c > 0.0
    ensures b * (p * c) == c * (p * b)
    ensures p * c > 0.0
  {
  }

  /** The closed form of one trade: quote reserve after is product / base reserve after. */
  lemma TradeClosedForm(pool: Pool, amount: real, isBuy: bool)
    requires Vwap(pool, amount, isBuy).Ok?
    ensures var after := Traded(pool, amount, Vwap(pool, amount, isBuy).value, isBuy);
            && after.base > 0.0
            && after.quote == pool.base * pool.quote / after.base
  {
    TradeKeepsProduct(pool, amount, isBuy);
    var after := Traded(pool, amount, Vwap(pool, amount, isBuy).value, isBuy);
    QuotientIs(pool.base * pool.quote, after.base, after.quote);
  }

  /** Splitting an order changes neither whether it can be filled nor what it costs. */
  lemma SplittingIsFree(pool: Pool, a: real, b: real, isBuy: bool)
    requires a > 0.0 && b > 0.0
    requires Vwap(pool, a, isBuy).Ok?
    ensures var mid := Traded(pool, a, Vwap(pool, a, isBuy).value, isBuy);
            && (Vwap(mid, b, isBuy).Ok? <==> Vwap(pool, a + b, isBuy).Ok?)
            && (Vwap(mid, b, isBuy).Ok? ==>
                  a * Vwap(pool, a, isBuy).value + b * Vwap(mid, b, isBuy).value
                  == (a + b) * Vwap(pool, a + b, isBuy).value)
  {
    TradeKeepsProduct(pool, a, isBuy);
    var mid := Traded(pool, a, Vwap(pool, a, isBuy).value, isBuy);
    if Vwap(mid, b, isBuy).Ok? {
      SameEndPoint(pool, mid, a, b, isBuy);
    }
  }

  lemma SameEndPoint(pool: Pool, mid: Pool, a: real, b: real, isBuy: bool)
    requires a > 0.0 && b > 0.0
    requires mid.base == (if isBuy then pool.base - a else pool.base + a)
    requires mid.base * mid.quote == pool.base * pool.quote
    requires Vwap(mid, b, isBuy).Ok? && Vwap(pool, a + b, isBuy).Ok?
    ensures Traded(mid, b, Vwap(mid, b, isBuy).value, isBuy)
         == Traded(pool, a + b, Vwap(pool, a + b, isBuy).value, isBuy)
  {
    TradeClosedForm(mid, b, isBuy);
    TradeClosedForm(pool, a + b, isBuy);
  }

  /** Selling back what was just bought restores the pool and refunds the exact cost. */
  lemma RoundTripIsFree(pool: Pool, amount: real)
    requires Vwap(pool, amount, true).Ok?
    ensures var after := Traded(pool, amount, Vwap(pool, amount, true).value, true);
            && Vwap(after, amount, false) == Ok(Vwap(pool, amount, true).value)
            && Traded(after, amount, Vwap(after, amount, false).value, false) == pool
  {
    var p := Vwap(pool, amount, true).value;
    var after := Traded(pool, amount, p, true);
    TradeKeepsProduct(pool, amount, true);
    assert p * (pool.base - amount) == pool.quote;
    assert after.quote == p * pool.base by { Distribute(p, pool.base - amount, amount); }
    QuotientIs(after.quote, pool.base, p);
  }

  /** Buying lifts the price above spot, selling pushes it below, so the pool's bid is under its ask. */
  lemma BidBelowAsk(pool: Pool, amount: real)
    requires Vwap(pool, amount, true).Ok?
    ensures Vwap(pool, amount, false).Ok?
    ensures 0.0 < Vwap(pool, amount, false).value < pool.quote / pool.base < Vwap(pool, amount, true).value
  {
    var q := pool.quote;
    SmallerDivisor(q, pool.base - amount, pool.base);
    SmallerDivisor(q, pool.base, pool.base + amount);
    var bid := Vwap(pool, amount, false).value;
    assert bid * (pool.base + amount) == q;
  }

  /** The reported impact is the distance between the spot price and the price actually paid. */
  lemma ImpactIsSlippage(pool: Pool, amount: real)
    requires amount > 0.0 && pool.base > 0.0 && pool.quote > 0.0
    ensures var spot := pool.quote / pool.base;
            && Impact(pool, amount, true) == Ok(100.0 * (1.0 - Vwap(pool, amount, false).value / spot))
            && (amount < pool.base ==>
                  Impact(pool, amount, false) == Ok(100.0 * (1.0 - spot / Vwap(pool, amount, true).value)))
            && (amount >= pool.base ==> Impact(pool, amount, false) == Ok(100.0))
  {
    SellImpact(pool, amount);
    if amount < pool.base {
      BuyImpact(pool, amount);
    }
  }

  lemma SellImpact(pool: Pool, amount: real)
    requires amount > 0.0 && pool.base > 0.0 && pool.quote > 0.0
    ensures Impact(pool, amount, true)
         == Ok(100.0 * (1.0 - Vwap(pool, amount, false).value / (pool.quote / pool.base)))
  {
    RatioOfQuotients(pool.quote, pool.base, pool.base + amount);
    Complement(amount, pool.base, pool.base + amount);
  }

  lemma BuyImpact(pool: Pool, amount: real)
    requires 0.0 < amount < pool.base && pool.quote > 0.0
    ensures Impact(pool, amount, false)
         == Ok(100.0 * (1.0 - (pool.quote / pool.base) / Vwap(pool, amount, true).value))
  {
    hide InputFraction, Paid;
    PaidShare(pool, amount);
  }

  lemma PaidShare(pool: Pool, amount: real)
    requires 0.0 < amount < pool.base && pool.quote > 0.0
    ensures Paid(pool, amount) > 0.0
    ensures InputFraction(Paid(pool, amount), pool.quote)
         == 1.0 - (pool.quote / pool.base) / (pool.quote / (pool.base - amount))
  {
    var left := pool.base - amount;
    var paid := Paid(pool, amount);
    InputShare(pool.quote, amount, left, pool.base, paid);
    hide InputFraction, Paid;
    Complement(amount, left, pool.base);
    RatioOfQuotients(pool.quote, left, pool.base);
  }

  /** With `paid` = q a / r for `a` out of r + a, the input fraction is a / (r + a). */
  lemma InputShare(q: real, a: real, r: real, base: real, paid: real)
    requires q > 0.0 && a > 0.0 && r > 0.0 && base == r + a && paid == q * a / r
    ensures paid > 0.0 && InputFraction(paid, q) == a / base
  {
    var share := a / base;
    assert paid * r == q * a && share * base == a;
    assert paid > 0.0;
    assert (q + paid) * r == q * base by { assert (q + paid) * r == q * r + paid * r; }
    assert share * (q + paid) * r == paid * r by {
      assert share * (q + paid) * r == share * (q * base) == q * (share * base);
    }
    assert (share * (q + paid) - paid) * r == 0.0;
    QuotientIs(paid, q + paid, share);
  }

  // ---------------------------------------------------------------- arbitrage between two venues

  datatype Venue = Venue(bid: real, ask: real, fee: real)
  datatype Side = Buy | Sell
  datatype Leg = Leg(onXrpl: bool, side: Side, amount: real, price: real)

  predicate ValidVenue(v: Venue) { 0.0 < v.bid <= v.ask && v.fee >= 0.0 }

  /** Quote gained by buying `amount` on one venue and selling it on the other, after both fees. */
  function QuoteGain(buyOn: Venue, sellOn: Venue, amount: real): real {
    amount * sellOn.bid * (1.0 - sellOn.fee) - amount * buyOn.ask * (1.0 + buyOn.fee)
  }

  function Profitability(buyOn: Venue, sellOn: Venue, amount: real): real
    requires ValidVenue(buyOn) && ValidVenue(sellOn) && amount > 0.0
  {
    QuoteGain(buyOn, sellOn, amount) / ((buyOn.ask + sellOn.bid) / 2.0) / amount
  }

  function Proposal(xrpl: Venue, cex: Venue, amount: real, minProfitability: real): seq<Leg>
    requires ValidVenue(xrpl) && ValidVenue(cex) && amount > 0.0
  {
    if Profitability(xrpl, cex, amount) > minProfitability then
      [Leg(true, Buy, amount, xrpl.ask), Leg(false, Sell, amount, cex.bid)]
    else if Profitability(cex, xrpl, amount) > minProfitability then
      [Leg(false, Buy, amount, cex.ask), Leg(true, Sell, amount, xrpl.bid)]
    else []
  }

  /** What passing the threshold means in quote: the net gain beats the threshold on the average notional. */
  lemma ProfitableMeans(buyOn: Venue, sellOn: Venue, amount: real, threshold: real)
    requires ValidVenue(buyOn) && ValidVenue(sellOn) && amount > 0.0
    ensures Profitability(buyOn, sellOn, amount) > threshold
       <==> QuoteGain(buyOn, sellOn, amount) > threshold * amount * ((buyOn.ask + sellOn.bid) / 2.0)
  {
    var gain, mean := QuoteGain(buyOn, sellOn, amount), (buyOn.ask + sellOn.bid) / 2.0;
    QuotientAbove(gain / mean, amount, threshold);
    QuotientAbove(gain, mean, threshold * amount);
  }

  lemma ScaledGain(buyOn: Venue, sellOn: Venue, amount: real)
    requires amount > 0.0
    ensures QuoteGain(buyOn, sellOn, amount) > 0.0
       <==> sellOn.bid * (1.0 - sellOn.fee) > buyOn.ask * (1.0 + buyOn.fee)
  {
    var x, y := sellOn.bid * (1.0 - sellOn.fee), buyOn.ask * (1.0 + buyOn.fee);
    assert amount * sellOn.bid * (1.0 - sellOn.fee) == amount * x;
    assert amount * buyOn.ask * (1.0 + buyOn.fee) == amount * y;
    assert amount * (x - y) == amount * x - amount * y;
  }

  lemma FeesOnlyHurt(v: Venue)
    requires ValidVenue(v)
    ensures v.bid * (1.0 - v.fee) <= v.bid && v.ask <= v.ask * (1.0 + v.fee)
  {
    assert v.bid * v.fee >= 0.0 && v.ask * v.fee >= 0.0;
  }

  lemma GainExcludesReverse(a: Venue, b: Venue, amount: real)
    requires ValidVenue(a) && ValidVenue(b) && amount > 0.0
    ensures !(QuoteGain(a, b, amount) > 0.0 && QuoteGain(b, a, amount) > 0.0)
  {
    ScaledGain(a, b, amount);
    ScaledGain(b, a, amount);
    FeesOnlyHurt(a);
    FeesOnlyHurt(b);
  }

  lemma ThresholdNonNegative(t: real, amount: real, mean: real)
    requires t >= 0.0 && amount > 0.0 && mean > 0.0
    ensures t * amount * mean >= 0.0
  {
    assert t * amount >= 0.0;
  }

  /** The two directions are never profitable together, so the order of the two tests is irrelevant. */
  lemma OneDirectionOnly(a: Venue, b: Venue, amount: real, minProfitability: real)
    requires ValidVenue(a) && ValidVenue(b) && amount > 0.0 && minProfitability >= 0.0
    ensures !(Profitability(a, b, amount) > minProfitability && Profitability(b, a, amount) > minProfitability)
  {
    ProfitableMeans(a, b, amount, minProfitability);
    ProfitableMeans(b, a, amount, minProfitability);
    ThresholdNonNegative(minProfitability, amount, (a.ask + b.bid) / 2.0);
    ThresholdNonNegative(minProfitability, amount, (b.ask + a.bid) / 2.0);
    GainExcludesReverse(a, b, amount);
  }

  /** Both legs of the trade that buys on one venue and sells on the other. */
  ghost predicate Hedges(p: seq<Leg>, buyOn: Venue, sellOn: Venue, buyOnXrpl: bool, amount: real) {
    p == [Leg(buyOnXrpl, Buy, amount, buyOn.ask), Leg(!buyOnXrpl, Sell, amount, sellOn.bid)]
  }

  /** What a direction must earn in quote, after both fees: a share of the average notional. */
  ghost predicate Beats(buyOn: Venue, sellOn: Venue, amount: real, threshold: real) {
    QuoteGain(buyOn, sellOn, amount) > threshold * amount * ((buyOn.ask + sellOn.bid) / 2.0)
  }

  /** The proposal is exactly the hedged trade in the direction that beats the threshold, if there is one. */
  lemma ProposalIsHedgedAndProfitable(xrpl: Venue, cex: Venue, amount: real, minProfitability: real)
    requires ValidVenue(xrpl) && ValidVenue(cex) && amount > 0.0 && minProfitability >= 0.0
    ensures var p := Proposal(xrpl, cex, amount, minProfitability);
            && (Beats(xrpl, cex, amount, minProfitability) <==> Hedges(p, xrpl, cex, true, amount))
            && (Beats(cex, xrpl, amount, minProfitability) <==> Hedges(p, cex, xrpl, false, amount))
            && (p == [] <==> !Beats(xrpl, cex, amount, minProfitability) && !Beats(cex, xrpl, amount, minProfitability))
  {
    OneDirectionOnly(xrpl, cex, amount, minProfitability);
    BeatsIsProfitable(xrpl, cex, amount, minProfitability);
    BeatsIsProfitable(cex, xrpl, amount, minProfitability);
  }

  lemma BeatsIsProfitable(a: Venue, b: Venue, amount: real, threshold: real)
    requires ValidVenue(a) && ValidVenue(b) && amount > 0.0
    ensures Beats(a, b, amount, threshold) <==> Profitability(a, b, amount) > threshold
  {
    ProfitableMeans(a, b, amount, threshold);
  }

  /** Listing the venues the other way round gives the same trade. */
  lemma ProposalIsSymmetric(xrpl: Venue, cex: Venue, amount: real, minProfitability: real)
    requires ValidVenue(xrpl) && ValidVenue(cex) && amount > 0.0 && minProfitability >= 0.0
    ensures var p, q := Proposal(xrpl, cex, amount, minProfitability), Proposal(cex, xrpl, amount, minProfitability);
            |p| == |q| && forall i | 0 <= i < |p| :: q[i] == p[i].(onXrpl := !p[i].onXrpl)
  {
    OneDirectionOnly(xrpl, cex, amount, minProfitability);
  }
}
