/** What the snapshot does not depend on: the order of the rows, candles that have not
    closed yet, and the currency unit prices are quoted in. */
module SnapshotInvariance {
  import opened Results
  import opened RealFacts
  import opened Sorting
  import opened MeanReversion

  // ------------------------------------------------------------------ no look-ahead

  lemma {:induction false} CompletedCount(f: seq<Candle>, now: real, s: Settings, c: Candle)
    ensures multiset(Completed(f, now, s))[c] == if Closed(c, now, s) then multiset(f)[c] else 0
  {
    if f != [] {
      CompletedCount(f[1..], now, s, c);
      assert f == [f[0]] + f[1..];
    }
  }

  lemma CompletedBag(f: seq<Candle>, g: seq<Candle>, now: real, s: Settings)
    requires multiset(f) == multiset(g)
    ensures multiset(Completed(f, now, s)) == multiset(Completed(g, now, s))
  {
    forall c: Candle ensures multiset(Completed(f, now, s))[c] == multiset(Completed(g, now, s))[c] {
      CompletedCount(f, now, s, c);
      CompletedCount(g, now, s, c);
    }
  }

  lemma {:induction false} CompletedFrom(f: seq<Candle>, now: real, s: Settings, i: nat)
    returns (j: nat)
    requires i < |Completed(f, now, s)|
    ensures j < |f| && f[j] == Completed(f, now, s)[i]
  {
    if Closed(f[0], now, s) && i == 0 {
      j := 0;
    } else {
      j := CompletedFrom(f[1..], now, s, if Closed(f[0], now, s) then i - 1 else i);
      j := j + 1;
    }
  }

  lemma {:induction false} CompletedSorted(f: seq<Candle>, now: real, s: Settings)
    requires SortedBy(f, Time)
    ensures SortedBy(Completed(f, now, s), Time)
  {
    if f != [] {
      TailSorted(f, Time);
      CompletedSorted(f[1..], now, s);
      var rest := Completed(f[1..], now, s);
      forall i | 0 <= i < |rest| ensures Time(f[0]) <= Time(rest[i]) {
        var j := CompletedFrom(f[1..], now, s, i);
        assert f[1..][j] == f[j + 1];
      }
    }
  }

  /** Completed rows with distinct timestamps fix the completed part of the sorted table. */
  lemma SortedCompletedUnique(f: seq<Candle>, g: seq<Candle>, now: real, s: Settings)
    requires multiset(Completed(f, now, s)) == multiset(Completed(g, now, s))
    requires KeysTellApart(Completed(f, now, s), Time)
    ensures Completed(Sort(f, Time), now, s) == Completed(Sort(g, Time), now, s)
  {
    hide Completed, Sort;
    SortCorrect(f, Time);
    SortCorrect(g, Time);
    CompletedBag(Sort(f, Time), f, now, s);
    CompletedBag(Sort(g, Time), g, now, s);
    CompletedSorted(Sort(f, Time), now, s);
    CompletedSorted(Sort(g, Time), now, s);
    ApartAfterSort(Completed(f, now, s), Completed(Sort(f, Time), now, s));
    SortedIsUnique(Completed(Sort(f, Time), now, s), Completed(Sort(g, Time), now, s), Time);
  }

  lemma ApartAfterSort(f: seq<Candle>, g: seq<Candle>)
    requires multiset(f) == multiset(g) && KeysTellApart(f, Time)
    ensures KeysTellApart(g, Time)
  {
    forall i, j | 0 <= i < |g| && 0 <= j < |g| && Time(g[i]) == Time(g[j]) ensures g[i] == g[j] {
      var i' := HasIndex(g[i], g, f);
      var j' := HasIndex(g[j], g, f);
      assert Time(f[i']) == Time(f[j']);
    }
  }

  lemma {:induction false} CompletedIsPart(f: seq<Candle>, now: real, s: Settings)
    ensures |Completed(f, now, s)| <= |f|
  {
    if f != [] {
      CompletedIsPart(f[1..], now, s);
    }
  }

  /** Two tables that agree on their completed candles give the same snapshot, or none. */
  lemma NoLookAhead(f: seq<Candle>, g: seq<Candle>, now: real, mid: real, s: Settings, root: real -> real)
    requires s.Valid()
    requires multiset(Completed(f, now, s)) == multiset(Completed(g, now, s))
    requires KeysTellApart(Completed(f, now, s), Time)
    ensures var a, b := CalculateSnapshot(f, now, mid, s, root), CalculateSnapshot(g, now, mid, s, root);
            a == b || (a.Err? && b.Err?)
  {
    SortedCompletedUnique(f, g, now, s);
    SameFrameSameSnapshot(f, g, now, mid, s, root);
  }

  lemma SameFrameSameSnapshot(f: seq<Candle>, g: seq<Candle>, now: real, mid: real, s: Settings, root: real -> real)
    requires s.Valid() && Frame(f, now, s) == Frame(g, now, s)
    ensures var a, b := CalculateSnapshot(f, now, mid, s, root), CalculateSnapshot(g, now, mid, s, root);
            a == b || (a.Err? && b.Err?)
  {
    hide FrameError, FromFrame;
    assert |f| < s.Required() || |g| < s.Required() ==> |Frame(f, now, s)| < s.Required() by {
      FrameNoLonger(f, now, s);
      FrameNoLonger(g, now, s);
    }
  }

  lemma FrameNoLonger(f: seq<Candle>, now: real, s: Settings)
    ensures |Frame(f, now, s)| <= |f|
  {
    SortCorrect(f, Time);
    CompletedIsPart(Sort(f, Time), now, s);
  }

  // ------------------------------------------------------------------ scale invariance

  function Times(k: real, x: real): real { k * x }

  function ScaleCandle(c: Candle, k: real): Candle {
    Candle(c.timestamp, Times(k, c.open), Times(k, c.high), Times(k, c.low), Times(k, c.close))
  }

  function Scale(f: seq<Candle>, k: real): seq<Candle> {
    seq(|f|, i requires 0 <= i < |f| => ScaleCandle(f[i], k))
  }

  function ScaleAll(xs: seq<real>, k: real): (ys: seq<real>)
    ensures |ys| == |xs| && forall i | 0 <= i < |xs| :: ys[i] == Times(k, xs[i])
  {
    seq(|xs|, i requires 0 <= i < |xs| => Times(k, xs[i]))
  }

  lemma ScaleAllParts(xs: seq<real>, k: real, i: nat)
    requires i <= |xs|
    ensures ScaleAll(xs, k)[..i] == ScaleAll(xs[..i], k) && ScaleAll(xs, k)[i..] == ScaleAll(xs[i..], k)
  {
    hide Times;
  }

  lemma ScaleTail(f: seq<Candle>, k: real)
    requires f != []
    ensures Scale(f, k) == [ScaleCandle(f[0], k)] + Scale(f[1..], k)
  {
  }

  lemma {:induction false} InsertScales(c: Candle, f: seq<Candle>, k: real)
    ensures Insert(ScaleCandle(c, k), Scale(f, k), Time) == Scale(Insert(c, f, Time), k)
  {
    if f == [] || Time(c) <= Time(f[0]) {
      assert Scale([c] + f, k) == [ScaleCandle(c, k)] + Scale(f, k);
    } else {
      InsertScales(c, f[1..], k);
      ScaleTail(f, k);
      assert Scale(f, k)[1..] == Scale(f[1..], k);
      ScaleTail(Insert(c, f, Time), k);
      assert Insert(c, f, Time)[1..] == Insert(c, f[1..], Time);
    }
  }

  lemma {:induction false} SortScales(f: seq<Candle>, k: real)
    ensures Sort(Scale(f, k), Time) == Scale(Sort(f, Time), k)
  {
    if f != [] {
      SortScales(f[1..], k);
      ScaleTail(f, k);
      assert Scale(f, k)[1..] == Scale(f[1..], k);
      InsertScales(f[0], Sort(f[1..], Time), k);
    }
  }

  lemma {:induction false} CompletedScales(f: seq<Candle>, now: real, s: Settings, k: real)
    ensures Completed(Scale(f, k), now, s) == Scale(Completed(f, now, s), k)
  {
    if f != [] {
      CompletedScales(f[1..], now, s, k);
      ScaleTail(f, k);
      assert Scale(f, k)[1..] == Scale(f[1..], k);
    }
  }

  lemma FrameScales(f: seq<Candle>, now: real, s: Settings, k: real)
    ensures Frame(Scale(f, k), now, s) == Scale(Frame(f, now, s), k)
  {
    SortScales(f, k);
    CompletedScales(Sort(f, Time), now, s, k);
  }

  lemma ScalePositive(x: real, k: real)
    requires k > 0.0
    ensures Times(k, x) > 0.0 <==> x > 0.0
  {
  }

  lemma ScaleOrder(x: real, y: real, k: real)
    requires k > 0.0
    ensures Times(k, x) <= Times(k, y) <==> x <= y
  {
    ScaleDifference(x, y, k);
    ScalePositive(x - y, k);
  }

  lemma ScaleDifference(x: real, y: real, k: real)
    ensures Times(k, x) - Times(k, y) == Times(k, x - y)
  {
  }

  lemma ScaleMax(x: real, y: real, k: real)
    requires k > 0.0
    ensures Max(Times(k, x), Times(k, y)) == Times(k, Max(x, y))
  {
    hide Times;
    ScaleOrder(x, y, k);
    ScaleOrder(y, x, k);
  }

  lemma ScaleAbs(x: real, k: real)
    requires k > 0.0
    ensures Abs(Times(k, x)) == Times(k, Abs(x))
  {
    ScalePositive(x, k);
    ScalePositive(-x, k);
    assert Times(k, -x) == -Times(k, x);
  }

  lemma CandleChecksScale(c: Candle, k: real)
    requires k > 0.0
    ensures PricesPositive(ScaleCandle(c, k)) == PricesPositive(c)
    ensures RangeValid(ScaleCandle(c, k)) == RangeValid(c)
  {
    hide Times;
    ScalePositive(c.open, k);
    ScalePositive(c.high, k);
    ScalePositive(c.low, k);
    ScalePositive(c.close, k);
    ScaleOrder(c.open, c.high, k);
    ScaleOrder(c.close, c.high, k);
    ScaleOrder(c.low, c.high, k);
    ScaleOrder(c.low, c.open, k);
    ScaleOrder(c.low, c.close, k);
  }

  lemma ContiguousScales(f: seq<Candle>, s: Settings, k: real)
    ensures Contiguous(Scale(f, k), s) == Contiguous(f, s)
  {
    hide Times;
    assert |Scale(f, k)| == |f| && forall i | 0 <= i < |f| :: Scale(f, k)[i].timestamp == f[i].timestamp;
  }

  lemma FrameErrorScales(f: seq<Candle>, now: real, s: Settings, k: real)
    requires f != [] && k > 0.0
    ensures FrameError(Scale(f, k), now, s) == FrameError(f, now, s)
  {
    hide PricesPositive, RangeValid, Times, Contiguous;
    forall i | 0 <= i < |f|
      ensures PricesPositive(Scale(f, k)[i]) == PricesPositive(f[i])
      ensures RangeValid(Scale(f, k)[i]) == RangeValid(f[i])
    {
      CandleChecksScale(f[i], k);
    }
    ContiguousScales(f, s, k);
    assert forall i | 0 <= i < |f| :: PricesPositive(Scale(f, k)[i]) == PricesPositive(f[i]);
  }

  lemma TrueRangeScales(p: Candle, c: Candle, k: real)
    requires k > 0.0
    ensures TrueRange(ScaleCandle(p, k), ScaleCandle(c, k)) == Times(k, TrueRange(p, c))
  {
    hide Times, Max, Abs;
    ScaleDifference(c.high, c.low, k);
    ScaleDifference(c.high, p.close, k);
    ScaleDifference(c.low, p.close, k);
    ScaleAbs(c.high - p.close, k);
    ScaleAbs(c.low - p.close, k);
    ScaleMax(c.high - c.low, Abs(c.high - p.close), k);
    ScaleMax(Max(c.high - c.low, Abs(c.high - p.close)), Abs(c.low - p.close), k);
  }

  lemma TrueRangesScale(f: seq<Candle>, k: real)
    requires k > 0.0
    ensures TrueRanges(Scale(f, k)) == ScaleAll(TrueRanges(f), k)
  {
    hide TrueRange, Times;
    forall i | 0 <= i < |f| - 1
      ensures TrueRange(Scale(f, k)[i], Scale(f, k)[i + 1]) == Times(k, TrueRange(f[i], f[i + 1]))
    {
      TrueRangeScales(f[i], f[i + 1], k);
    }
  }

  lemma {:induction false} SumScales(xs: seq<real>, k: real)
    ensures Sum(ScaleAll(xs, k)) == Times(k, Sum(xs))
  {
    hide Times, ScaleAll;
    if xs != [] {
      ScaleAllParts(xs, k, |xs| - 1);
      SumScales(xs[..|xs| - 1], k);
      DistributeOver(k, Sum(xs[..|xs| - 1]), xs[|xs| - 1]);
    } else {
      assert Times(k, 0.0) == 0.0 by { TimesZero(k); }
    }
  }

  lemma TimesZero(k: real)
    ensures Times(k, 0.0) == 0.0
  {
  }

  lemma QuotientScales(x: real, y: real, k: real)
    requires y != 0.0
    ensures Times(k, x) / y == Times(k, x / y)
  {
    var q := x / y;
    assert q * y == x;
    assert (k * q) * y == k * (q * y);
    QuotientIs(k * x, y, k * q);
  }

  lemma MeanScales(xs: seq<real>, k: real)
    requires xs != []
    ensures Mean(ScaleAll(xs, k)) == Times(k, Mean(xs))
  {
    hide ScaleAll, Sum, Times;
    SumScales(xs, k);
    QuotientScales(Sum(xs), |xs| as real, k);
  }

  lemma SquareScales(x: real, m: real, k: real, y: real)
    requires y == Times(k, x)
    ensures (y - Times(k, m)) * (y - Times(k, m)) == Times(k * k, (x - m) * (x - m))
  {
    ScaleDifference(x, m, k);
    var d := x - m;
    assert (k * d) * (k * d) == k * k * (d * d);
  }

  lemma DistributeOver(k: real, x: real, y: real)
    ensures Times(k, x + y) == Times(k, x) + Times(k, y)
  {
  }

  lemma {:induction false} SquaresScale(xs: seq<real>, m: real, k: real)
    ensures SquaredDeviations(ScaleAll(xs, k), Times(k, m)) == Times(k * k, SquaredDeviations(xs, m))
  {
    hide Times;
    if xs == [] {
      TimesZero(k * k);
    } else {
      var init, x := xs[..|xs| - 1], xs[|xs| - 1];
      ScaleAllParts(xs, k, |xs| - 1);
      SquaresScale(init, m, k);
      var ys := ScaleAll(xs, k);
      assert ys[..|ys| - 1] == ScaleAll(init, k);
      SquareScales(x, m, k, ys[|ys| - 1]);
      var mk := Times(k, m);
      assert SquaredDeviations(ys, mk) == SquaredDeviations(ys[..|ys| - 1], mk) + (ys[|ys| - 1] - mk) * (ys[|ys| - 1] - mk);
      assert SquaredDeviations(xs, m) == SquaredDeviations(init, m) + (x - m) * (x - m);
      DistributeOver(k * k, SquaredDeviations(init, m), (x - m) * (x - m));
    }
  }

  lemma VarianceScales(xs: seq<real>, k: real)
    requires xs != []
    ensures Variance(ScaleAll(xs, k)) == Times(k * k, Variance(xs))
  {
    hide Mean, SquaredDeviations, Times, ScaleAll;
    MeanScales(xs, k);
    SquaresScale(xs, Mean(xs), k);
    QuotientScales(SquaredDeviations(xs, Mean(xs)), |xs| as real, k * k);
  }

  /** Square roots scale: a non-negative root is unique. */
  lemma RootScales(r: real, t: real, v: real, k: real)
    requires k > 0.0 && r >= 0.0 && t >= 0.0 && r * r == v && t * t == Times(k * k, v)
    ensures t == Times(k, r)
  {
    var u := k * r;
    assert u >= 0.0;
    assert u * u == k * k * (r * r);
    assert (t - u) * (t + u) == t * t - u * u == 0.0;
    if t + u == 0.0 {
      assert t == u;
    } else {
      assert t - u == 0.0;
    }
  }

  lemma RatioScales(x: real, y: real, k: real)
    requires k > 0.0 && y != 0.0
    ensures Times(k, y) != 0.0 && Times(k, x) / Times(k, y) == x / y
  {
    var q := x / y;
    assert q * y == x;
    assert k * y != 0.0;
    assert q * (k * y) == k * (q * y);
    QuotientIs(k * x, k * y, q);
  }

  lemma ScoreScales(x: real, m: real, std: real, k: real)
    requires k > 0.0 && std != 0.0
    ensures Times(k, std) != 0.0 && (Times(k, x) - Times(k, m)) / Times(k, std) == (x - m) / std
  {
    hide Times;
    ScaleDifference(x, m, k);
    RatioScales(x - m, std, k);
  }

  function ScaleSnapshot(r: Result<Snapshot>, k: real): Result<Snapshot> {
    match r
    case Ok(v) => Ok(v.(mean := Times(k, v.mean), std := Times(k, v.std), atr := Times(k, v.atr)))
    case Err(e) => Err(e)
  }

  lemma TailScales(xs: seq<real>, n: nat, k: real)
    ensures Tail(ScaleAll(xs, k), n) == ScaleAll(Tail(xs, n), k)
  {
    hide Times, ScaleAll;
    if |xs| > n {
      ScaleAllParts(xs, k, |xs| - n);
    }
  }

  lemma WindowScales(f: seq<Candle>, s: Settings, k: real)
    ensures Window(Scale(f, k), s) == ScaleAll(Window(f, s), k)
  {
    hide Times;
    assert Closes(Scale(f, k)) == ScaleAll(Closes(f), k);
    TailScales(Closes(f), s.meanWindow, k);
  }

  lemma AtrScales(f: seq<Candle>, s: Settings, k: real)
    requires s.Valid() && k > 0.0 && |f| == s.Required()
    ensures Mean(Tail(TrueRanges(Scale(f, k)), s.atrLength)) == Times(k, Mean(Tail(TrueRanges(f), s.atrLength)))
  {
    hide Mean, Times, ScaleAll;
    TrueRangesScale(f, k);
    var ranges := TrueRanges(f);
    TailScales(ranges, s.atrLength, k);
    MeanScales(Tail(ranges, s.atrLength), k);
  }

  lemma UsableScales(f: seq<Candle>, s: Settings, k: real)
    requires k > 0.0 && UsableFrame(f, s)
    ensures UsableFrame(Scale(f, k), s)
  {
    forall i | 0 <= i < |f| ensures PricesPositive(Scale(f, k)[i]) {
      CandleChecksScale(f[i], k);
    }
  }

  /** The statistics of the window, as the frame's result is built from them. */
  lemma WindowStatisticsScale(f: seq<Candle>, s: Settings, k: real, root: real -> real)
    requires s.Valid() && k > 0.0 && UsableFrame(f, s)
    requires IsRootAt(root, Variance(Window(f, s)))
    requires UsableFrame(Scale(f, k), s) && IsRootAt(root, Variance(Window(Scale(f, k), s)))
    ensures var a, b := Window(f, s), Window(Scale(f, k), s);
            && b[|b| - 1] == Times(k, a[|a| - 1])
            && Mean(b) == Times(k, Mean(a))
            && root(Variance(b)) == Times(k, root(Variance(a)))
  {
    hide Mean, Variance, Window, Times;
    var a := Window(f, s);
    WindowScales(f, s, k);
    MeanScales(a, k);
    VarianceScales(a, k);
    RootScales(root(Variance(a)), root(Variance(ScaleAll(a, k))), Variance(a), k);
  }

  /** The decision and the fields of a snapshot, given its window statistics. */
  function Build(last: real, mean: real, std: real, atr: real, timestamp: real, mid: real, s: Settings): Result<Snapshot>
    requires mean > 0.0
  {
    if std <= 0.0 || std / mean < s.minStdPct then Err("Insufficient price dispersion")
    else Ok(Snapshot(timestamp, mean, std, atr, (last - mean) / std, (mid - mean) / std,
                     Signal((last - mean) / std, (mid - mean) / std, s)))
  }

  lemma BuildScales(last: real, mean: real, std: real, atr: real, timestamp: real, mid: real, s: Settings, k: real)
    requires mean > 0.0 && k > 0.0 && Times(k, mean) > 0.0
    ensures Build(Times(k, last), Times(k, mean), Times(k, std), Times(k, atr), timestamp, Times(k, mid), s)
         == ScaleSnapshot(Build(last, mean, std, atr, timestamp, mid, s), k)
  {
    hide Times, Signal;
    ScalePositive(std, k);
    RatioScales(std, mean, k);
    if std > 0.0 {
      ScoreScales(last, mean, std, k);
      ScoreScales(mid, mean, std, k);
    }
  }

  lemma FromFrameBuilds(f: seq<Candle>, mid: real, s: Settings, root: real -> real)
    requires s.Valid() && UsableFrame(f, s) && Mean(Window(f, s)) > 0.0
    ensures FromFrame(f, mid, s, root)
         == Build(Window(f, s)[s.meanWindow - 1], Mean(Window(f, s)), root(Variance(Window(f, s))),
                  Mean(Tail(TrueRanges(f), s.atrLength)), f[|f| - 1].timestamp, mid, s)
  {
    hide Mean, Variance, Window, TrueRanges, Signal;
  }

  lemma WindowUsable(f: seq<Candle>, s: Settings)
    requires s.Valid() && UsableFrame(f, s)
    ensures |Window(f, s)| == s.meanWindow > 0 && Mean(Window(f, s)) > 0.0
  {
    hide Mean, Window;
    MeanPositive(Window(f, s));
  }

  lemma RangesUsable(f: seq<Candle>, s: Settings)
    requires s.Valid() && UsableFrame(f, s)
    ensures f != [] && |f| == s.Required() && Tail(TrueRanges(f), s.atrLength) != []
  {
    hide TrueRange;
  }

  lemma FrameResultScales(f: seq<Candle>, mid: real, s: Settings, k: real, root: real -> real)
    requires s.Valid() && k > 0.0 && UsableFrame(f, s) && UsableFrame(Scale(f, k), s)
    requires IsRootAt(root, Variance(Window(f, s))) && IsRootAt(root, Variance(Window(Scale(f, k), s)))
    ensures FromFrame(Scale(f, k), Times(k, mid), s, root) == ScaleSnapshot(FromFrame(f, mid, s, root), k)
  {
    hide *;
    WindowUsable(f, s);
    WindowUsable(Scale(f, k), s);
    var a, b := Window(f, s), Window(Scale(f, k), s);
    RangesUsable(f, s);
    WindowStatisticsScale(f, s, k, root);
    AtrScales(f, s, k);
    FromFrameBuilds(f, mid, s, root);
    FromFrameBuilds(Scale(f, k), Times(k, mid), s, root);
    TimestampKept(f, k, |f| - 1);
    var atr := Mean(Tail(TrueRanges(f), s.atrLength));
    BuildScales(a[|a| - 1], Mean(a), root(Variance(a)), atr, f[|f| - 1].timestamp, mid, s, k);
  }

  lemma TimestampKept(f: seq<Candle>, k: real, i: nat)
    requires i < |f|
    ensures |Scale(f, k)| == |f| && Scale(f, k)[i].timestamp == f[i].timestamp
  {
  }

  /** Quoting every price and the mid in another unit rescales mean, deviation and range, and
      leaves the scores, the signal and every rejection exactly as they were. */
  lemma SnapshotScales(f: seq<Candle>, now: real, mid: real, s: Settings, k: real, root: real -> real)
    requires s.Valid() && k > 0.0
    requires var w := Window(Frame(f, now, s), s);
             w != [] ==> IsRootAt(root, Variance(w)) && IsRootAt(root, Variance(ScaleAll(w, k)))
    ensures CalculateSnapshot(Scale(f, k), now, Times(k, mid), s, root)
         == ScaleSnapshot(CalculateSnapshot(f, now, mid, s, root), k)
  {
    hide Mean, Variance, Window, FromFrame, FrameError, IsRootAt, Frame, Times, ScaleCandle;
    var frame := Frame(f, now, s);
    FrameScales(f, now, s, k);
    ScalePositive(mid, k);
    if |frame| == s.Required() {
      FrameErrorScales(frame, now, s, k);
      if FrameError(frame, now, s).None? {
        UsableWithoutError(frame, now, s);
        UsableScales(frame, s, k);
        WindowScales(frame, s, k);
        FrameResultScales(frame, mid, s, k, root);
      }
    }
    FrameAtMost(f, now, s);
  }

  lemma FrameAtMost(f: seq<Candle>, now: real, s: Settings)
    ensures |Frame(f, now, s)| <= s.Required()
  {
  }

  lemma UsableWithoutError(frame: seq<Candle>, now: real, s: Settings)
    requires |frame| == s.Required() && frame != [] && FrameError(frame, now, s).None?
    ensures UsableFrame(frame, s)
  {
  }

  // ------------------------------------------------------------------ barriers

  function ScaleBarriers(r: Result<Barriers>, k: real): Result<Barriers> {
    match r
    case Ok(b) => Ok(b.(targetPrice := Times(k, b.targetPrice)))
    case Err(e) => Err(e)
  }

  lemma TargetScales(snapshot: Snapshot, s: Settings, k: real)
    ensures Target(Rescaled(snapshot, k), s) == Times(k, Target(snapshot, s))
  {
    var w := (snapshot.signal as real) * s.exitZ;
    assert w * Times(k, snapshot.std) == Times(k, w * snapshot.std);
    ScaleDifference(snapshot.mean, w * snapshot.std, k);
  }

  function Rescaled(snapshot: Snapshot, k: real): Snapshot {
    snapshot.(mean := Times(k, snapshot.mean), std := Times(k, snapshot.std), atr := Times(k, snapshot.atr))
  }

  lemma TimesAssociates(x: real, k: real, y: real)
    ensures x * Times(k, y) == Times(k, x * y)
  {
  }

  lemma RewardScales(snapshot: Snapshot, entry: real, s: Settings, k: real)
    requires k > 0.0 && entry > 0.0 && Times(k, entry) > 0.0
    ensures Reward(Rescaled(snapshot, k), Times(k, entry), s) == Reward(snapshot, entry, s)
  {
    hide Times, Target;
    var side, d := snapshot.signal as real, Target(snapshot, s) - entry;
    TargetScales(snapshot, s, k);
    ScaleDifference(Target(snapshot, s), entry, k);
    TimesAssociates(side, k, d);
    RatioScales(side * d, entry, k);
  }

  lemma StopScales(snapshot: Snapshot, entry: real, s: Settings, k: real)
    requires k > 0.0 && entry > 0.0 && Times(k, entry) > 0.0
    ensures Stop(Rescaled(snapshot, k), Times(k, entry), s) == Stop(snapshot, entry, s)
  {
    hide Times;
    var product := s.atrStopMultiplier * snapshot.atr;
    TimesAssociates(s.atrStopMultiplier, k, snapshot.atr);
    RatioScales(product, entry, k);
    assert s.atrStopMultiplier * Rescaled(snapshot, k).atr / Times(k, entry) == product / entry;
  }

  /** Take profit and stop loss are ratios, so only the target price follows the unit. */
  lemma BarriersScale(snapshot: Snapshot, entry: real, s: Settings, k: real)
    requires s.Valid() && snapshot.std > 0.0 && k > 0.0 && Rescaled(snapshot, k).std > 0.0
    ensures CalculateBarriers(Rescaled(snapshot, k), Times(k, entry), s)
         == ScaleBarriers(CalculateBarriers(snapshot, entry, s), k)
  {
    hide ReversionSide, Times, Max, Target, Reward;
    ScalePositive(entry, k);
    ScoreScales(entry, snapshot.mean, snapshot.std, k);
    if entry > 0.0 {
      TargetScales(snapshot, s, k);
      RewardScales(snapshot, entry, s, k);
      StopScales(snapshot, entry, s, k);
    }
  }
}
