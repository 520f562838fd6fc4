/** The snapshot, the barriers and the entry order in plain terms, without divisions: exactly when each exists, and
    what it then says. */
module MeanReversionTerms {
  import opened Results
  import opened RealFacts
  import opened Sorting
  import opened MeanReversion
  import opened PositionSizing
  import SnapshotInvariance

  // ------------------------------------------------------------------ the signal

  /** So many deviations. */
  function Deviations(k: real, std: real): real { k * std }

  /** The price lies between the two entry distances below the mean (1), above it (-1), or in neither band (0). */
  function BandOf(price: real, mean: real, std: real, s: Settings): int {
    if mean - Deviations(s.maxEntryZ, std) <= price <= mean - Deviations(s.entryZ, std) then 1
    else if mean + Deviations(s.entryZ, std) <= price <= mean + Deviations(s.maxEntryZ, std) then -1
    else 0
  }

  /** A score against a bound, and the price against the mean and so many deviations. */
  lemma ScoreBound(price: real, mean: real, std: real, k: real)
    requires std > 0.0
    ensures (price - mean) / std <= k <==> price <= mean + Deviations(k, std)
    ensures (price - mean) / std >= k <==> price >= mean + Deviations(k, std)
    ensures (price - mean) / std <= -k <==> price <= mean - Deviations(k, std)
    ensures (price - mean) / std >= -k <==> price >= mean - Deviations(k, std)
  {
    var z := (price - mean) / std;
    assert z * std == price - mean;
    BoundTimes(z, k, std);
    BoundTimes(z, -k, std);
  }

  lemma BandIsSide(price: real, mean: real, std: real, s: Settings)
    requires s.Valid() && std > 0.0
    ensures ReversionSide((price - mean) / std, s) == BandOf(price, mean, std, s)
  {
    hide Deviations, ReversionSide;
    ScoreBound(price, mean, std, s.entryZ);
    ScoreBound(price, mean, std, s.maxEntryZ);
    SideOf((price - mean) / std, s);
  }

  /** The side of a score, without its absolute value. */
  lemma SideOf(z: real, s: Settings)
    requires s.Valid()
    ensures ReversionSide(z, s)
         == if -s.maxEntryZ <= z <= -s.entryZ then 1 else if s.entryZ <= z <= s.maxEntryZ then -1 else 0
  {
  }

  lemma ProductPositive(x: real, y: real)
    requires x > 0.0 && y > 0.0
    ensures x * y > 0.0
  {
  }

  lemma BoundTimes(z: real, bound: real, std: real)
    requires std > 0.0
    ensures z <= bound <==> z * std <= bound * std
    ensures z >= bound <==> z * std >= bound * std
    ensures (-bound) * std == -(bound * std)
  {
    var d := (bound - z) * std;
    assert d == bound * std - z * std;
    if z < bound {
      ProductPositive(bound - z, std);
    } else if z > bound {
      ProductPositive(z - bound, std);
      assert (z - bound) * std == -d;
    }
  }

  // ------------------------------------------------------------------ barriers

  /** The mean as it was at entry, moved back towards the entry by the exit distance. */
  function FrozenTarget(snapshot: Snapshot, s: Settings): real {
    if snapshot.signal == 1 then snapshot.mean - s.exitZ * snapshot.std else snapshot.mean + s.exitZ * snapshot.std
  }

  /** An entry in the signalled band whose relative distance to the target is the take profit and whose stop is the
      larger of the minimum and the volatility stop, within the cap and worth its costs. */
  predicate Barred(b: Barriers, snapshot: Snapshot, entry: real, s: Settings) {
    && entry > 0.0 && snapshot.signal != 0
    && snapshot.signal == BandOf(entry, snapshot.mean, snapshot.std, s)
    && b.targetPrice == FrozenTarget(snapshot, s)
    && b.takeProfit * entry == (if snapshot.signal == 1 then b.targetPrice - entry else entry - b.targetPrice)
    && s.minStopLoss <= b.stopLoss <= s.maxStopLoss
    && b.stopLoss * entry >= s.atrStopMultiplier * snapshot.atr
    && (b.stopLoss == s.minStopLoss || b.stopLoss * entry == s.atrStopMultiplier * snapshot.atr)
    && b.takeProfit - s.roundTripCost >= s.minNetEdge
    && b.takeProfit - s.roundTripCost >= s.minRewardRisk * (b.stopLoss + s.roundTripCost)
  }

  lemma TargetIs(snapshot: Snapshot, s: Settings)
    requires snapshot.signal == 1 || snapshot.signal == -1
    ensures Target(snapshot, s) == FrozenTarget(snapshot, s)
  {
    var d := s.exitZ * snapshot.std;
    assert 1.0 * s.exitZ * snapshot.std == d && (-1.0) * s.exitZ * snapshot.std == -d;
  }

  lemma RewardIs(snapshot: Snapshot, entry: real, s: Settings, r: real)
    requires entry > 0.0 && (snapshot.signal == 1 || snapshot.signal == -1)
    ensures r == Reward(snapshot, entry, s)
       <==> r * entry == if snapshot.signal == 1 then FrozenTarget(snapshot, s) - entry else entry - FrozenTarget(snapshot, s)
  {
    TargetIs(snapshot, s);
    var x := if snapshot.signal == 1 then FrozenTarget(snapshot, s) - entry else entry - FrozenTarget(snapshot, s);
    assert (snapshot.signal as real) * (Target(snapshot, s) - entry) == x;
    assert x / entry * entry == x;
    if r * entry == x {
      QuotientIs(x, entry, r);
    }
  }

  lemma StopIs(snapshot: Snapshot, entry: real, s: Settings, stop: real)
    requires entry > 0.0
    ensures stop == Stop(snapshot, entry, s)
       <==> && s.minStopLoss <= stop && stop * entry >= s.atrStopMultiplier * snapshot.atr
            && (stop == s.minStopLoss || stop * entry == s.atrStopMultiplier * snapshot.atr)
  {
    var x := s.atrStopMultiplier * snapshot.atr;
    var q := x / entry;
    assert q * entry == x;
    BoundTimes(stop, q, entry);
  }

  lemma AcceptIs(reward: real, stop: real, target: real, s: Settings)
    requires s.Valid() && stop > 0.0
    ensures Accept(reward, stop, target, s).Ok? ==> Accept(reward, stop, target, s).value == Barriers(reward, stop, target)
    ensures Accept(reward, stop, target, s).Ok? <==>
              stop <= s.maxStopLoss && reward - s.roundTripCost >= s.minNetEdge
              && reward - s.roundTripCost >= s.minRewardRisk * (stop + s.roundTripCost)
  {
    var q := (reward - s.roundTripCost) / (stop + s.roundTripCost);
    assert q * (stop + s.roundTripCost) == reward - s.roundTripCost;
    BoundTimes(q, s.minRewardRisk, stop + s.roundTripCost);
  }

  /** The barriers of an entry exist, and are these, exactly under the plain conditions. */
  lemma BarriersIff(snapshot: Snapshot, entry: real, s: Settings, b: Barriers)
    requires s.Valid() && snapshot.std > 0.0
    ensures CalculateBarriers(snapshot, entry, s) == Ok(b) <==> Barred(b, snapshot, entry, s)
  {
    hide Reward, Stop, Target, Accept, BandOf, ReversionSide, FrozenTarget;
    if entry > 0.0 && snapshot.signal != 0 {
      BandIsSide(entry, snapshot.mean, snapshot.std, s);
      if BandOf(entry, snapshot.mean, snapshot.std, s) == snapshot.signal {
        BandValues(entry, snapshot.mean, snapshot.std, s);
        TargetIs(snapshot, s);
        RewardIs(snapshot, entry, s, b.takeProfit);
        StopIs(snapshot, entry, s, b.stopLoss);
        StopIs(snapshot, entry, s, Stop(snapshot, entry, s));
        AcceptIs(Reward(snapshot, entry, s), Stop(snapshot, entry, s), Target(snapshot, s), s);
      }
    }
  }

  lemma BandValues(price: real, mean: real, std: real, s: Settings)
    ensures BandOf(price, mean, std, s) in {-1, 0, 1}
  {
  }

  // ------------------------------------------------------------------ the entry order

  /** Halfway between the best prices, moved away from the book by the offset, and never past the own best price. */
  function Resting(m: Market, isBuy: bool, b: Budget): real {
    var middle := (m.bid + m.ask) / 2.0;
    var away := middle * b.quoteOffset;
    if isBuy then (if m.bid <= middle - away then m.bid else middle - away)
    else (if m.ask >= middle + away then m.ask else middle + away)
  }

  /** The notional: all of the budget, or as much as loses only the cash target over the ratio at the stop. */
  predicate NotionalFor(n: real, stop: real, s: Settings, b: Budget) {
    var loss := s.minRewardRisk * (stop + s.roundTripCost);
    && n <= b.totalAmountQuote && n * loss <= b.takeProfitQuote
    && (n == b.totalAmountQuote || n * loss == b.takeProfitQuote)
  }

  /** The order that may be sent for this snapshot. */
  ghost predicate Entered(e: Entry, snapshot: Snapshot, m: Market, s: Settings, b: Budget) {
    && 0.0 < m.bid < m.ask && 2.0 * (m.ask - m.bid) <= b.maxBidAskSpread * (m.bid + m.ask)
    && e.isBuy == (snapshot.signal == 1) && e.leverage == b.leverage
    && e.price == m.quantizePrice(Resting(m, e.isBuy, b))
    && e.price > 0.0 && (if e.isBuy then e.price < m.ask else e.price > m.bid)
    && Barred(e.barriers, snapshot, e.price, s)
    && e.amount > 0.0 && e.amount >= m.minOrderSize && e.amount * e.price >= m.minNotional
    && exists n :: NotionalFor(n, e.barriers.stopLoss, s, b) && e.amount == m.quantizeAmount(n / e.price)
                   && e.amount * e.price <= n
  }

  lemma RestingIs(m: Market, isBuy: bool, b: Budget)
    ensures RawPrice(m, isBuy, b) == Resting(m, isBuy, b)
  {
    var middle := Mid(m);
    assert middle * (1.0 - b.quoteOffset) == middle - middle * b.quoteOffset;
    assert middle * (1.0 + b.quoteOffset) == middle + middle * b.quoteOffset;
  }

  lemma SpreadIs(m: Market, b: Budget)
    requires 0.0 < m.bid < m.ask
    ensures Mid(m) > 0.0
    ensures (m.ask - m.bid) / Mid(m) > b.maxBidAskSpread <==> 2.0 * (m.ask - m.bid) > b.maxBidAskSpread * (m.bid + m.ask)
  {
    QuotientAbove(m.ask - m.bid, Mid(m), b.maxBidAskSpread);
    assert 2.0 * (b.maxBidAskSpread * Mid(m)) == b.maxBidAskSpread * (m.bid + m.ask);
  }

  lemma NotionalIs(n: real, stop: real, s: Settings, b: Budget)
    requires s.Valid() && stop > 0.0
    ensures n == Min(b.totalAmountQuote, RiskBudget(stop, s, b)) <==> NotionalFor(n, stop, s, b)
  {
    var loss := s.minRewardRisk * (stop + s.roundTripCost);
    ProductPositive(s.minRewardRisk, stop + s.roundTripCost);
    var cap := RiskBudget(stop, s, b);
    assert cap * loss == b.takeProfitQuote;
    BoundTimes(n, cap, loss);
  }

  lemma SizedIs(isBuy: bool, price: real, barriers: Barriers, m: Market, s: Settings, b: Budget, e: Entry)
    requires s.Valid() && barriers.stopLoss > 0.0 && price > 0.0
    ensures Sized(isBuy, price, barriers, m, s, b) == Ok(e)
       <==> && e == Entry(isBuy, price, e.amount, b.leverage, barriers)
            && e.amount > 0.0 && e.amount >= m.minOrderSize && e.amount * price >= m.minNotional
            && exists n :: NotionalFor(n, barriers.stopLoss, s, b) && e.amount == m.quantizeAmount(n / price)
                           && e.amount * price <= n
  {
    hide NotionalFor, RiskBudget, Min;
    var n := Min(b.totalAmountQuote, RiskBudget(barriers.stopLoss, s, b));
    forall k ensures k == n <==> NotionalFor(k, barriers.stopLoss, s, b) {
      NotionalIs(k, barriers.stopLoss, s, b);
    }
    if Sized(isBuy, price, barriers, m, s, b) == Ok(e) {
      assert NotionalFor(n, barriers.stopLoss, s, b) && e.amount == m.quantizeAmount(n / price) && e.amount * price <= n;
    }
    if k :| NotionalFor(k, barriers.stopLoss, s, b) && e.amount == m.quantizeAmount(k / price) && e.amount * price <= k {
      assert k == n;
    }
  }

  lemma BarredStop(b: Barriers, snapshot: Snapshot, entry: real, s: Settings)
    requires s.Valid() && Barred(b, snapshot, entry, s)
    ensures b.stopLoss > 0.0 && entry > 0.0
  {
    hide BandOf, FrozenTarget;
  }

  /** The entry order exists, and is this one, exactly under the plain conditions. */
  lemma OrderIff(snapshot: Snapshot, m: Market, s: Settings, b: Budget, e: Entry)
    requires s.Valid() && snapshot.std > 0.0
    ensures EntryOrder(snapshot, m, s, b) == Ok(e) <==> Entered(e, snapshot, m, s, b)
  {
    hide CalculateBarriers, Sized, Barred, RawPrice, Resting, NotionalFor, Mid;
    var isBuy := snapshot.signal == 1;
    RestingIs(m, isBuy, b);
    var price := QuotedPrice(m, isBuy, b);
    BarriersIff(snapshot, price, s, e.barriers);
    if 0.0 < m.bid < m.ask {
      SpreadIs(m, b);
      if CalculateBarriers(snapshot, price, s).Ok? {
        var barriers := CalculateBarriers(snapshot, price, s).value;
        BarriersIff(snapshot, price, s, barriers);
        BarredStop(barriers, snapshot, price, s);
        SizedIs(isBuy, price, barriers, m, s, b, e);
      }
    }
  }

  // ------------------------------------------------------------------ the snapshot

  /** The candles that are over, oldest first. */
  function Over(candles: seq<Candle>, now: real, s: Settings): seq<Candle> { Completed(Sort(candles, Time), now, s) }

  function LastOf<T>(xs: seq<T>, n: nat): seq<T>
    requires n <= |xs|
  {
    xs[|xs| - n..]
  }

  /** Positive prices, with open and close between low and high. */
  predicate Sane(c: Candle) { 0.0 < c.low && c.low <= c.open <= c.high && c.low <= c.close <= c.high }

  /** How far a candle reaches, the close before it included. */
  function Reach(before: real, c: Candle): real {
    (if before <= c.high then c.high else before) - (if before <= c.low then before else c.low)
  }

  function Reaches(frame: seq<Candle>): seq<real>
    requires |frame| >= 1
  {
    seq(|frame| - 1, i requires 0 <= i < |frame| - 1 => Reach(frame[i].close, frame[i + 1]))
  }

  /** Unbroken and recent. */
  predicate Current(frame: seq<Candle>, now: real, s: Settings)
    requires frame != []
  {
    && (forall i | 0 < i < |frame| :: frame[i].timestamp == frame[i - 1].timestamp + s.intervalSeconds)
    && now <= frame[|frame| - 1].timestamp + 2.0 * s.intervalSeconds + 30.0
  }

  /** The square root of the mean squared deviation from this mean. */
  ghost predicate Deviation(std: real, closes: seq<real>, mean: real, root: real -> real) {
    exists v :: v * (|closes| as real) == SquaredDeviations(closes, mean) && std == root(v)
  }

  /** The figures of a frame: mean and deviation of its last closes, mean reach of its last candles. */
  ghost predicate Measured(x: Snapshot, frame: seq<Candle>, s: Settings, root: real -> real)
    requires s.meanWindow <= |frame| && s.atrLength < |frame|
  {
    var closes := LastOf(Closes(frame), s.meanWindow);
    && x.mean * (s.meanWindow as real) == Sum(closes)
    && Deviation(x.std, closes, x.mean, root)
    && x.std > 0.0 && x.std >= s.minStdPct * x.mean
    && x.atr * (s.atrLength as real) == Sum(LastOf(Reaches(frame), s.atrLength))
  }

  /** The scores of the last close and of the live price, and the band both or the live one lies in. */
  predicate Scored(x: Snapshot, last: Candle, mid: real, s: Settings) {
    && x.timestamp == last.timestamp
    && x.closedZ * x.std == last.close - x.mean && x.z * x.std == mid - x.mean
    && var closed, live := BandOf(last.close, x.mean, x.std, s), BandOf(mid, x.mean, x.std, s);
       x.signal == if s.requireClosedConfirmation && closed != live then 0 else live
  }

  ghost predicate IsSnapshot(x: Snapshot, candles: seq<Candle>, now: real, mid: real, s: Settings, root: real -> real)
    requires s.Valid()
  {
    var over := Over(candles, now, s);
    && mid > 0.0 && s.meanWindow <= |over| && s.atrLength < |over|
    && var frame := LastOf(over, if s.meanWindow <= s.atrLength then s.atrLength + 1 else s.meanWindow);
       && (forall c | c in frame :: Sane(c)) && Current(frame, now, s)
       && Measured(x, frame, s, root) && Scored(x, frame[|frame| - 1], mid, s)
  }

  lemma {:induction false} OverExactly(candles: seq<Candle>, now: real, s: Settings, c: Candle)
    ensures c in Completed(candles, now, s) <==> c in candles && c.timestamp + s.intervalSeconds <= now
  {
    if candles != [] {
      assert candles == [candles[0]] + candles[1..];
      OverExactly(candles[1..], now, s, c);
    }
  }

  lemma SaneIs(c: Candle)
    ensures PricesPositive(c) && RangeValid(c) <==> Sane(c)
  {
  }

  lemma ReachIs(previous: Candle, c: Candle)
    requires c.low <= c.high
    ensures TrueRange(previous, c) == Reach(previous.close, c)
  {
  }

  lemma FrameErrorIs(frame: seq<Candle>, now: real, s: Settings)
    requires frame != []
    ensures FrameError(frame, now, s).None? <==> (forall c | c in frame :: Sane(c)) && Current(frame, now, s)
  {
    hide PricesPositive, RangeValid, Sane;
    forall i | 0 <= i < |frame| ensures PricesPositive(frame[i]) && RangeValid(frame[i]) <==> Sane(frame[i]) {
      SaneIs(frame[i]);
    }
    if forall c | c in frame :: Sane(c) {
      assert forall i | 0 <= i < |frame| :: frame[i] in frame;
    }
  }

  lemma TailIsLast<T>(xs: seq<T>, n: nat)
    requires n <= |xs|
    ensures Tail(xs, n) == LastOf(xs, n)
  {
  }

  lemma ReachesAre(frame: seq<Candle>)
    requires |frame| >= 2 && forall c | c in frame :: Sane(c)
    ensures TrueRanges(frame) == Reaches(frame)
  {
    hide TrueRange, Reach;
    forall i | 0 <= i < |frame| - 1 ensures TrueRange(frame[i], frame[i + 1]) == Reach(frame[i].close, frame[i + 1]) {
      assert frame[i + 1] in frame;
      ReachIs(frame[i], frame[i + 1]);
    }
  }

  lemma MeanIs(xs: seq<real>, m: real)
    requires xs != []
    ensures m == Mean(xs) <==> m * (|xs| as real) == Sum(xs)
  {
    hide Sum;
    QuotientIff(Sum(xs), |xs| as real, m);
  }

  lemma VarianceIs(xs: seq<real>, v: real)
    requires xs != []
    ensures v == Variance(xs) <==> v * (|xs| as real) == SquaredDeviations(xs, Mean(xs))
  {
    hide SquaredDeviations, Mean;
    QuotientIff(SquaredDeviations(xs, Mean(xs)), |xs| as real, v);
  }

  lemma ScoreIs(z: real, price: real, mean: real, std: real)
    requires std > 0.0
    ensures z == (price - mean) / std <==> z * std == price - mean
  {
    QuotientIff(price - mean, std, z);
  }

  lemma SignalIs(x: Snapshot, last: Candle, mid: real, s: Settings)
    requires s.Valid() && x.std > 0.0
    ensures Scored(x, last, mid, s)
       <==> && x.timestamp == last.timestamp
            && x.closedZ == (last.close - x.mean) / x.std && x.z == (mid - x.mean) / x.std
            && x.signal == Signal((last.close - x.mean) / x.std, (mid - x.mean) / x.std, s)
  {
    hide BandOf, ReversionSide;
    BandIsSide(last.close, x.mean, x.std, s);
    BandIsSide(mid, x.mean, x.std, s);
    ScoreIs(x.closedZ, last.close, x.mean, x.std);
    ScoreIs(x.z, mid, x.mean, x.std);
  }

  lemma DispersionIs(std: real, mean: real, least: real)
    requires mean > 0.0
    ensures std / mean < least <==> std < least * mean
  {
    var q := std / mean;
    assert q * mean == std;
    BoundTimes(q, least, mean);
  }

  lemma MeasuredIs(x: Snapshot, frame: seq<Candle>, s: Settings, root: real -> real)
    requires s.Valid() && |frame| == s.Required() && forall c | c in frame :: Sane(c)
    ensures s.meanWindow <= |frame| && s.atrLength < |frame| && UsableFrame(frame, s)
    ensures var closes := Window(frame, s);
            |closes| == s.meanWindow && Mean(closes) > 0.0 && |TrueRanges(frame)| >= s.atrLength
            && (Measured(x, frame, s, root)
                <==> && x.mean == Mean(closes) && x.std == root(Variance(closes))
                     && x.std > 0.0 && !(x.std / x.mean < s.minStdPct)
                     && x.atr == Mean(Tail(TrueRanges(frame), s.atrLength)))
  {
    hide *;
    SaneFrame(frame, s);
    var closes, ranges := Window(frame, s), Tail(TrueRanges(frame), s.atrLength);
    MeanIs(closes, x.mean);
    MeanIs(ranges, x.atr);
    DispersionIs(x.std, Mean(closes), s.minStdPct);
    DeviationIs(x.std, closes, root);
    MeasuredOn(x, frame, s, root, closes, ranges);
  }

  lemma MeasuredOn(x: Snapshot, frame: seq<Candle>, s: Settings, root: real -> real, closes: seq<real>, ranges: seq<real>)
    requires s.meanWindow <= |frame| && s.atrLength < |frame|
    requires closes == LastOf(Closes(frame), s.meanWindow) && |closes| == s.meanWindow
    requires |Reaches(frame)| >= s.atrLength && ranges == LastOf(Reaches(frame), s.atrLength) && |ranges| == s.atrLength
    ensures Measured(x, frame, s, root)
       <==> && x.mean * (|closes| as real) == Sum(closes) && Deviation(x.std, closes, x.mean, root)
            && x.std > 0.0 && x.std >= s.minStdPct * x.mean && x.atr * (|ranges| as real) == Sum(ranges)
  {
    hide Sum, Deviation, Reaches, Closes;
  }

  /** What a usable frame of the right length provides. */
  lemma SaneFrame(frame: seq<Candle>, s: Settings)
    requires s.Valid() && |frame| == s.Required() && forall c | c in frame :: Sane(c)
    ensures s.meanWindow <= |frame| && s.atrLength < |frame| && UsableFrame(frame, s)
    ensures s.meanWindow >= 10 && s.atrLength >= 2
    ensures var closes := Window(frame, s);
            |closes| == s.meanWindow && closes == LastOf(Closes(frame), s.meanWindow) && Mean(closes) > 0.0
    ensures |Reaches(frame)| == |TrueRanges(frame)| == |frame| - 1
         && Tail(TrueRanges(frame), s.atrLength) == LastOf(Reaches(frame), s.atrLength)
    ensures |Tail(TrueRanges(frame), s.atrLength)| == s.atrLength
  {
    hide Sum, Mean, Sane, PricesPositive, RangeValid, Reaches, TrueRanges;
    forall i | 0 <= i < |frame| ensures PricesPositive(frame[i]) {
      assert frame[i] in frame;
      SaneIs(frame[i]);
    }
    RangesLength(frame);
    ReachesAre(frame);
    TailIsLast(Closes(frame), s.meanWindow);
    TailIsLast(TrueRanges(frame), s.atrLength);
    MeanPositive(Window(frame, s));
  }

  lemma DeviationIs(std: real, closes: seq<real>, root: real -> real)
    requires closes != []
    ensures Deviation(std, closes, Mean(closes), root) <==> std == root(Variance(closes))
  {
    hide SquaredDeviations, Mean, Variance;
    VarianceIs(closes, Variance(closes));
    if v :| v * (|closes| as real) == SquaredDeviations(closes, Mean(closes)) && std == root(v) {
      VarianceIs(closes, v);
    }
    if std == root(Variance(closes)) {
      assert Variance(closes) * (|closes| as real) == SquaredDeviations(closes, Mean(closes));
    }
  }

  lemma RangesLength(frame: seq<Candle>)
    requires |frame| >= 1
    ensures |TrueRanges(frame)| == |frame| - 1 == |Reaches(frame)|
  {
  }

  lemma FromFrameIff(x: Snapshot, frame: seq<Candle>, mid: real, s: Settings, root: real -> real)
    requires s.Valid() && |frame| == s.Required() && forall c | c in frame :: Sane(c)
    ensures UsableFrame(frame, s) && s.meanWindow <= |frame| && s.atrLength < |frame|
    ensures FromFrame(frame, mid, s, root) == Ok(x)
       <==> Measured(x, frame, s, root) && Scored(x, frame[|frame| - 1], mid, s)
  {
    hide Measured, Scored, Sane, Mean, Variance, Signal, TrueRanges, Tail, UsableFrame;
    MeasuredIs(x, frame, s, root);
    if x.std > 0.0 {
      SignalIs(x, frame[|frame| - 1], mid, s);
    }
    LastClose(frame, s);
  }

  lemma LastClose(frame: seq<Candle>, s: Settings)
    requires |frame| == s.Required() && s.Valid()
    ensures |Window(frame, s)| == s.meanWindow && Window(frame, s)[s.meanWindow - 1] == frame[|frame| - 1].close
  {
  }

  /** A snapshot exists, and says this, exactly under the plain conditions. */
  lemma SnapshotIff(x: Snapshot, candles: seq<Candle>, now: real, mid: real, s: Settings, root: real -> real)
    requires s.Valid()
    ensures CalculateSnapshot(candles, now, mid, s, root) == Ok(x) <==> IsSnapshot(x, candles, now, mid, s, root)
  {
    hide FromFrame, FrameError, Measured, Scored, Sane, Current, Completed, Sort, Tail;
    var over := Over(candles, now, s);
    SnapshotInvariance.CompletedIsPart(Sort(candles, Time), now, s);
    SameNumber(candles);
    FrameIs(candles, now, s);
    if s.meanWindow <= |over| && s.atrLength < |over| {
      var frame := Frame(candles, now, s);
      FrameErrorIs(frame, now, s);
      if forall c | c in frame :: Sane(c) {
        FromFrameIff(x, frame, mid, s, root);
      }
    }
  }

  lemma SameNumber(candles: seq<Candle>)
    ensures |Sort(candles, Time)| == |candles|
  {
    SortCorrect(candles, Time);
    SameSize(Sort(candles, Time), candles);
  }

  lemma FrameIs(candles: seq<Candle>, now: real, s: Settings)
    requires s.Valid()
    ensures var over := Over(candles, now, s);
            if s.meanWindow <= |over| && s.atrLength < |over|
            then |Frame(candles, now, s)| == s.Required()
                 && Frame(candles, now, s)
                    == LastOf(over, if s.meanWindow <= s.atrLength then s.atrLength + 1 else s.meanWindow)
            else |Frame(candles, now, s)| < s.Required()
  {
    hide Completed, Sort;
  }
}
