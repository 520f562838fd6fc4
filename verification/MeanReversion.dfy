/** The pure mean-reversion calculations: the snapshot of completed candles, the entry
    signal, and the exit barriers. The library's square root is the parameter `root`. */
module MeanReversion {
  import opened Results
  import opened RealFacts
  import opened Sorting

  datatype Candle = Candle(timestamp: real, open: real, high: real, low: real, close: real)

  datatype Settings = Settings(
    intervalSeconds: real, meanWindow: nat, entryZ: real, maxEntryZ: real, exitZ: real, minStdPct: real,
    atrLength: nat, atrStopMultiplier: real, minStopLoss: real, maxStopLoss: real,
    roundTripCost: real, minNetEdge: real, minRewardRisk: real, requireClosedConfirmation: bool)
  {
    /** Field bounds and cross-field validation. */
    predicate Valid() {
      && intervalSeconds > 0.0 && 10 <= meanWindow <= 500 && 2 <= atrLength <= 100
      && 0.0 <= exitZ < entryZ < maxEntryZ
      && 0.0 < minStdPct < 1.0 && atrStopMultiplier > 0.0
      && 0.0 < minStopLoss <= maxStopLoss < 1.0
      && 0.0 <= roundTripCost < 1.0 && 0.0 < minNetEdge < 1.0 && minRewardRisk > 0.0
    }

    function Required(): nat { if meanWindow > atrLength + 1 then meanWindow else atrLength + 1 }
  }

  datatype Snapshot = Snapshot(timestamp: real, mean: real, std: real, atr: real,
                               closedZ: real, z: real, signal: int)

  function Time(c: Candle): real { c.timestamp }

  function Closed(c: Candle, now: real, s: Settings): bool { c.timestamp + s.intervalSeconds <= now }

  function Completed(candles: seq<Candle>, now: real, s: Settings): seq<Candle> {
    if candles == [] then []
    else (if Closed(candles[0], now, s) then [candles[0]] else []) + Completed(candles[1..], now, s)
  }

  function Tail<T>(s: seq<T>, n: nat): seq<T> { if |s| <= n then s else s[|s| - n..] }

  /** The completed candles the calculation uses, oldest first. */
  function Frame(candles: seq<Candle>, now: real, s: Settings): seq<Candle> {
    Tail(Completed(Sort(candles, Time), now, s), s.Required())
  }

  function Closes(candles: seq<Candle>): seq<real> {
    seq(|candles|, i requires 0 <= i < |candles| => candles[i].close)
  }

  function SquaredDeviations(xs: seq<real>, m: real): real {
    if xs == [] then 0.0
    else SquaredDeviations(xs[..|xs| - 1], m) + (xs[|xs| - 1] - m) * (xs[|xs| - 1] - m)
  }

  function Mean(xs: seq<real>): real requires xs != [] { Sum(xs) / (|xs| as real) }

  function Variance(xs: seq<real>): real requires xs != [] { SquaredDeviations(xs, Mean(xs)) / (|xs| as real) }

  predicate PricesPositive(c: Candle) { c.open > 0.0 && c.high > 0.0 && c.low > 0.0 && c.close > 0.0 }

  predicate RangeValid(c: Candle) {
    && c.high >= Max(Max(c.open, c.close), c.low)
    && c.low <= Min(Min(c.open, c.close), c.high)
  }

  function TrueRange(previous: Candle, c: Candle): real {
    Max(Max(c.high - c.low, Abs(c.high - previous.close)), Abs(c.low - previous.close))
  }

  /** True ranges of all candles but the first, which has no previous close. */
  function TrueRanges(frame: seq<Candle>): seq<real> {
    if |frame| < 2 then []
    else seq(|frame| - 1, i requires 0 <= i < |frame| - 1 => TrueRange(frame[i], frame[i + 1]))
  }

  predicate Contiguous(frame: seq<Candle>, s: Settings) {
    forall i | 0 < i < |frame| :: frame[i].timestamp - frame[i - 1].timestamp == s.intervalSeconds
  }

  function ReversionSide(z: real, s: Settings): int {
    if s.entryZ <= Abs(z) <= s.maxEntryZ then (if z < 0.0 then 1 else -1) else 0
  }

  function Signal(closedZ: real, liveZ: real, s: Settings): int {
    if s.requireClosedConfirmation then
      (if ReversionSide(liveZ, s) != ReversionSide(closedZ, s) then 0 else ReversionSide(closedZ, s))
    else ReversionSide(liveZ, s)
  }

  /** The checks on a full frame; None when it can be used. */
  function FrameError(frame: seq<Candle>, now: real, s: Settings): Option<string>
    requires frame != []
  {
    var last := frame[|frame| - 1].timestamp;
    if exists i | 0 <= i < |frame| :: !PricesPositive(frame[i]) then Some("Invalid candle prices")
    else if !Contiguous(frame, s) then Some("Missing or duplicate candles")
    else if exists i | 0 <= i < |frame| :: !RangeValid(frame[i]) then Some("Invalid candle range")
    else if now - (last + s.intervalSeconds) > s.intervalSeconds + 30.0 then Some("Stale candles")
    else None
  }

  function CalculateSnapshot(candles: seq<Candle>, now: real, mid: real, s: Settings, root: real -> real)
    : Result<Snapshot>
    requires s.Valid()
  {
    if mid <= 0.0 then Err("Invalid mid price")
    else if |candles| < s.Required() then Err("Warming up candles")
    else
      var frame := Frame(candles, now, s);
      if |frame| < s.Required() then Err("Warming up completed candles")
      else if FrameError(frame, now, s).Some? then Err(FrameError(frame, now, s).value)
      else FromFrame(frame, mid, s, root)
  }

  function Window(frame: seq<Candle>, s: Settings): (closes: seq<real>)
    ensures |frame| == s.Required() ==> |closes| == s.meanWindow
    ensures (forall i | 0 <= i < |frame| :: PricesPositive(frame[i])) ==> forall i | 0 <= i < |closes| :: closes[i] > 0.0
  {
    Tail(Closes(frame), s.meanWindow)
  }

  lemma {:induction false} SumPositive(xs: seq<real>)
    requires xs != [] && forall i | 0 <= i < |xs| :: xs[i] > 0.0
    ensures Sum(xs) > 0.0
  {
    if |xs| > 1 {
      SumPositive(xs[..|xs| - 1]);
    } else {
      assert xs[..0] == [];
    }
  }

  lemma MeanPositive(xs: seq<real>)
    requires xs != [] && forall i | 0 <= i < |xs| :: xs[i] > 0.0
    ensures Mean(xs) > 0.0
  {
    SumPositive(xs);
  }

  ghost predicate UsableFrame(frame: seq<Candle>, s: Settings) {
    |frame| == s.Required() && forall i | 0 <= i < |frame| :: PricesPositive(frame[i])
  }

  function FromFrame(frame: seq<Candle>, mid: real, s: Settings, root: real -> real): Result<Snapshot>
    requires s.Valid() && UsableFrame(frame, s)
  {
    var closes := Window(frame, s);
    var mean := Mean(closes);
    var std := root(Variance(closes));
    MeanPositive(closes);
    if std <= 0.0 || std / mean < s.minStdPct then Err("Insufficient price dispersion")
    else
      var atr := Mean(Tail(TrueRanges(frame), s.atrLength));
      var closedZ := (closes[|closes| - 1] - mean) / std;
      var liveZ := (mid - mean) / std;
      Ok(Snapshot(frame[|frame| - 1].timestamp, mean, std, atr, closedZ, liveZ, Signal(closedZ, liveZ, s)))
  }

  /** What is asked of the library's square root, at one point. */
  ghost predicate IsRootAt(root: real -> real, v: real) {
    root(v) >= 0.0 && root(v) * root(v) == v
  }

  datatype Barriers = Barriers(takeProfit: real, stopLoss: real, targetPrice: real)

  /** The mean frozen at entry, pulled back towards the entry side. */
  function Target(snapshot: Snapshot, s: Settings): real {
    snapshot.mean - (snapshot.signal as real) * s.exitZ * snapshot.std
  }

  function Reward(snapshot: Snapshot, entry: real, s: Settings): real
    requires entry > 0.0
  {
    (snapshot.signal as real) * (Target(snapshot, s) - entry) / entry
  }

  function Stop(snapshot: Snapshot, entry: real, s: Settings): real
    requires entry > 0.0
  {
    Max(s.minStopLoss, s.atrStopMultiplier * snapshot.atr / entry)
  }

  /** The risk cap, the net edge and the reward/risk ratio, checked in this order. */
  function Accept(reward: real, stop: real, target: real, s: Settings): Result<Barriers>
    requires s.Valid() && stop > 0.0
  {
    if stop > s.maxStopLoss then Err("Required volatility stop exceeds the risk cap")
    else if reward - s.roundTripCost < s.minNetEdge then Err("Mean reversion does not cover costs and minimum edge")
    else if (reward - s.roundTripCost) / (stop + s.roundTripCost) < s.minRewardRisk then
      Err("Insufficient reward/risk after costs")
    else Ok(Barriers(reward, stop, target))
  }

  /** The three barriers of an entry, or the reason there is none. */
  function CalculateBarriers(snapshot: Snapshot, entry: real, s: Settings): Result<Barriers>
    requires s.Valid() && snapshot.std > 0.0
  {
    if entry <= 0.0 || snapshot.signal == 0 then Err("No valid entry")
    else if ReversionSide((entry - snapshot.mean) / snapshot.std, s) != snapshot.signal then
      Err("Entry price outside the reversion band")
    else Accept(Reward(snapshot, entry, s), Stop(snapshot, entry, s), Target(snapshot, s), s)
  }
}
