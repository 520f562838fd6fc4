/** How far a window's own last close can lie from its mean (Samuelson's inequality), and
    what that means for the entry threshold. */
module ScoreBounds {
  import opened Results
  import opened RealFacts
  import opened MeanReversion

  lemma SquareNonNegative(x: real)
    ensures x * x >= 0.0
  {
  }

  lemma {:induction false} SquaredDeviationsNonNegative(xs: seq<real>, m: real)
    ensures SquaredDeviations(xs, m) >= 0.0
  {
    if xs != [] {
      SquaredDeviationsNonNegative(xs[..|xs| - 1], m);
      SquareNonNegative(xs[|xs| - 1] - m);
    }
  }

  /** One step of Cauchy-Schwarz: `a` joins `k` terms with sum `t` and square sum `q`. */
  lemma CauchyStep(k: real, n: real, t: real, q: real, a: real, sum: real, squares: real)
    requires k >= 1.0 && n == k + 1.0 && t * t <= k * q
    requires sum == t + a && squares == q + a * a
    ensures sum * sum <= n * squares
  {
    var gap := q + k * a * a - 2.0 * t * a;
    SquareNonNegative(t - k * a);
    assert k * gap >= t * t + k * a * (k * a) - 2.0 * t * (k * a) == (t - k * a) * (t - k * a);
    assert gap >= 0.0;
  }

  function Deviations(xs: seq<real>, m: real): real {
    if xs == [] then 0.0 else Deviations(xs[..|xs| - 1], m) + (xs[|xs| - 1] - m)
  }

  lemma {:induction false} DeviationsFromSum(xs: seq<real>, m: real)
    ensures Deviations(xs, m) == Sum(xs) - (|xs| as real) * m
  {
    if xs != [] {
      DeviationsFromSum(xs[..|xs| - 1], m);
    }
  }

  /** The squared sum of deviations is at most the count times the sum of squared deviations. */
  lemma {:induction false} CauchySchwarz(xs: seq<real>, m: real)
    ensures Deviations(xs, m) * Deviations(xs, m) <= (|xs| as real) * SquaredDeviations(xs, m)
  {
    if |xs| > 1 {
      var init, last := xs[..|xs| - 1], xs[|xs| - 1];
      CauchySchwarz(init, m);
      CauchyStep(|init| as real, |xs| as real, Deviations(init, m), SquaredDeviations(init, m), last - m,
                 Deviations(xs, m), SquaredDeviations(xs, m));
    } else if |xs| == 1 {
      assert xs[..0] == [];
    }
  }

  lemma SamuelsonFromParts(k: real, n: real, d: real, t: real, q: real, v: real)
    requires k >= 0.0 && n == k + 1.0
    requires t == -d && t * t <= k * q
    requires v * n == q + d * d
    ensures d * d <= k * v
  {
    var dd := d * d;
    assert dd == t * t;
    assert n * (k * v) == k * (v * n) == k * q + k * dd;
    assert n * dd == k * dd + dd;
    assert n * (k * v - dd) >= 0.0;
  }

  /** Samuelson: no observation lies further from the mean than sqrt(n - 1) population deviations. */
  lemma Samuelson(xs: seq<real>)
    requires xs != []
    ensures (xs[|xs| - 1] - Mean(xs)) * (xs[|xs| - 1] - Mean(xs)) <= ((|xs| - 1) as real) * Variance(xs)
  {
    hide *;
    var m := Mean(xs);
    var init, d := xs[..|xs| - 1], xs[|xs| - 1] - m;
    CauchySchwarz(init, m);
    MeanCentres(xs);
    SplitLast(xs, m);
    VarianceTimesCount(xs);
    SamuelsonFromParts((|xs| - 1) as real, |xs| as real, d, Deviations(init, m), SquaredDeviations(init, m),
                       Variance(xs));
  }

  lemma SplitLast(xs: seq<real>, m: real)
    requires xs != []
    ensures Deviations(xs, m) == Deviations(xs[..|xs| - 1], m) + (xs[|xs| - 1] - m)
    ensures SquaredDeviations(xs, m)
         == SquaredDeviations(xs[..|xs| - 1], m) + (xs[|xs| - 1] - m) * (xs[|xs| - 1] - m)
  {
  }

  lemma VarianceTimesCount(xs: seq<real>)
    requires xs != []
    ensures Variance(xs) * (|xs| as real) == SquaredDeviations(xs, Mean(xs))
  {
    hide SquaredDeviations, Mean;
    TimesQuotient(SquaredDeviations(xs, Mean(xs)), |xs| as real);
  }

  lemma MeanCentres(xs: seq<real>)
    requires xs != []
    ensures Deviations(xs, Mean(xs)) == 0.0
  {
    TimesQuotient(Sum(xs), |xs| as real);
    DeviationsFromSum(xs, Mean(xs));
  }

  lemma TimesQuotient(x: real, n: real)
    requires n != 0.0
    ensures x / n * n == x
  {
  }

  lemma ScoreBound(z: real, std: real, d: real, v: real, bound: real)
    requires std > 0.0 && z == d / std && std * std == v && d * d <= bound * v
    ensures z * z <= bound
  {
    assert z * std == d by { TimesQuotient(d, std); }
    SquarePositive(std, v);
    SquareOfProduct(z, std, d, v);
    OrderByPositive(z * z, bound, v);
  }

  lemma SquareOfProduct(z: real, y: real, w: real, yy: real)
    requires w == z * y && yy == y * y
    ensures w * w == (z * z) * yy
  {
    assert w * w == (z * y) * (z * y) == (z * z) * (y * y);
  }

  lemma SquarePositive(x: real, v: real)
    requires x > 0.0 && v == x * x
    ensures v > 0.0
  {
    ProductPositive(x, x, v);
  }

  lemma ProductPositive(x: real, y: real, v: real)
    requires x > 0.0 && y > 0.0 && v == x * y
    ensures v > 0.0
  {
  }

  lemma OrderByPositive(x: real, y: real, v: real)
    requires v > 0.0 && x * v <= y * v
    ensures x <= y
  {
    assert (y - x) * v >= 0.0;
  }

  /** So the last z-score of a window of n closes squares to at most n - 1. */
  lemma LastScoreBounded(closes: seq<real>, std: real, z: real)
    requires closes != [] && std > 0.0 && std * std == Variance(closes)
    requires z == (closes[|closes| - 1] - Mean(closes)) / std
    ensures z * z <= ((|closes| - 1) as real)
  {
    hide *;
    Samuelson(closes);
    ScoreBound(z, std, closes[|closes| - 1] - Mean(closes), Variance(closes), ((|closes| - 1) as real));
  }

  /** A snapshot is taken from a full frame of valid prices. */
  lemma SnapshotUsesFrame(candles: seq<Candle>, now: real, mid: real, s: Settings, root: real -> real)
    requires s.Valid() && CalculateSnapshot(candles, now, mid, s, root).Ok?
    ensures UsableFrame(Frame(candles, now, s), s)
    ensures CalculateSnapshot(candles, now, mid, s, root) == FromFrame(Frame(candles, now, s), mid, s, root)
  {
  }

  lemma FrameFields(frame: seq<Candle>, mid: real, s: Settings, root: real -> real)
    requires s.Valid() && UsableFrame(frame, s) && FromFrame(frame, mid, s, root).Ok?
    ensures var snapshot, closes := FromFrame(frame, mid, s, root).value, Window(frame, s);
            && closes != [] && snapshot.std == root(Variance(closes)) > 0.0
            && snapshot.mean == Mean(closes)
            && snapshot.closedZ == (closes[|closes| - 1] - snapshot.mean) / snapshot.std
            && snapshot.z == (mid - snapshot.mean) / snapshot.std
            && snapshot.signal == Signal(snapshot.closedZ, snapshot.z, s)
  {
    hide Variance, Mean, Window, Tail, TrueRanges, Signal;
  }

  lemma FrameScoreBounded(frame: seq<Candle>, mid: real, s: Settings, root: real -> real)
    requires s.Valid() && UsableFrame(frame, s)
    requires FromFrame(frame, mid, s, root).Ok? && IsRootAt(root, Variance(Window(frame, s)))
    ensures var z := FromFrame(frame, mid, s, root).value.closedZ;
            z * z <= ((s.meanWindow - 1) as real)
  {
    hide FromFrame, Window, Variance, Mean, Signal, ReversionSide, TrueRanges;
    var closes := Window(frame, s);
    var snapshot := FromFrame(frame, mid, s, root).value;
    FrameFields(frame, mid, s, root);
    assert snapshot.std * snapshot.std == Variance(closes);
    LastScoreBounded(closes, snapshot.std, snapshot.closedZ);
  }

  /** The closed candle's z-score of every snapshot obeys the bound. */
  lemma ClosedScoreBounded(candles: seq<Candle>, now: real, mid: real, s: Settings, root: real -> real)
    requires s.Valid() && CalculateSnapshot(candles, now, mid, s, root).Ok?
    requires IsRootAt(root, Variance(Window(Frame(candles, now, s), s)))
    ensures var z := CalculateSnapshot(candles, now, mid, s, root).value.closedZ;
            z * z <= ((s.meanWindow - 1) as real)
  {
    hide *;
    SnapshotUsesFrame(candles, now, mid, s, root);
    FrameScoreBounded(Frame(candles, now, s), mid, s, root);
  }

  lemma SquareBelow(t: real, z: real)
    requires 0.0 <= t <= Abs(z)
    ensures t * t <= z * z
  {
    assert (Abs(z) - t) * (Abs(z) + t) >= 0.0;
  }

  lemma NoSideBeyond(z: real, s: Settings)
    requires s.Valid() && z * z < s.entryZ * s.entryZ
    ensures ReversionSide(z, s) == 0
  {
    if s.entryZ <= Abs(z) {
      SquareBelow(s.entryZ, z);
    }
  }

  lemma FrameUnreachable(frame: seq<Candle>, mid: real, s: Settings, root: real -> real)
    requires s.Valid() && UsableFrame(frame, s)
    requires FromFrame(frame, mid, s, root).Ok? && IsRootAt(root, Variance(Window(frame, s)))
    requires s.requireClosedConfirmation && s.entryZ * s.entryZ > ((s.meanWindow - 1) as real)
    ensures FromFrame(frame, mid, s, root).value.signal == 0
  {
    hide FromFrame, Window, Variance, Mean, UsableFrame;
    FrameFields(frame, mid, s, root);
    FrameScoreBounded(frame, mid, s, root);
    NoSideBeyond(FromFrame(frame, mid, s, root).value.closedZ, s);
  }

  /** With closed-candle confirmation, an entry threshold above sqrt(n - 1) can never be met. */
  lemma UnreachableThreshold(candles: seq<Candle>, now: real, mid: real, s: Settings, root: real -> real)
    requires s.Valid() && CalculateSnapshot(candles, now, mid, s, root).Ok?
    requires IsRootAt(root, Variance(Window(Frame(candles, now, s), s)))
    requires s.requireClosedConfirmation && s.entryZ * s.entryZ > ((s.meanWindow - 1) as real)
    ensures CalculateSnapshot(candles, now, mid, s, root).value.signal == 0
  {
    hide *;
    SnapshotUsesFrame(candles, now, mid, s, root);
    FrameUnreachable(Frame(candles, now, s), mid, s, root);
  }

  /** `n - 1` equal closes followed by one outlier. */
  function OutlierWindow(n: nat, level: real, jump: real): seq<real>
    requires n >= 1
  {
    seq(n - 1, i => level) + [level + jump]
  }

  lemma {:induction false} ConstantSums(k: nat, level: real, m: real)
    ensures Sum(seq(k, i => level)) == (k as real) * level
    ensures SquaredDeviations(seq(k, i => level), m) == (k as real) * ((level - m) * (level - m))
  {
    if k > 0 {
      assert seq(k, i => level)[..k - 1] == seq(k - 1, i => level);
      ConstantSums(k - 1, level, m);
    }
  }

  /** The bound is sharp: for every window length a single outlier attains it exactly. */
  lemma SamuelsonIsSharp(n: nat, level: real, jump: real)
    requires n >= 2
    ensures var xs := OutlierWindow(n, level, jump);
            var d := xs[n - 1] - Mean(xs);
            d * d == ((n - 1) as real) * Variance(xs)
  {
    hide Sum, SquaredDeviations, Deviations, Mean, Variance;
    var xs, init := OutlierWindow(n, level, jump), seq(n - 1, i => level);
    var m := Mean(xs);
    var e := level - m;
    assert xs[..n - 1] == init;
    ConstantSums(n - 1, level, m);
    SplitLast(xs, m);
    MeanCentres(xs);
    DeviationsFromSum(init, m);
    VarianceTimesCount(xs);
    Spread((n - 1) as real, level, m);
    SharpArithmetic((n - 1) as real, n as real, e, level + jump - m, Variance(xs));
  }

  lemma Spread(k: real, level: real, m: real)
    ensures k * level - k * m == k * (level - m)
  {
  }

  lemma SharpArithmetic(k: real, r: real, e: real, d: real, v: real)
    requires r == k + 1.0 && k >= 1.0
    requires k * e + d == 0.0
    requires v * r == k * (e * e) + d * d
    ensures d * d == k * v
  {
    var f := e * e;
    assert d * d == k * k * f by { assert d == -(k * e); }
    assert r * (k * f) == k * f + k * k * f;
    assert r * (v - k * f) == 0.0;
  }
}
