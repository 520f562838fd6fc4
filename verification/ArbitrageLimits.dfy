/** The arbitrage controller: at most one executor per direction, and the difference between
    finished buys and sells held within a limit while executors are in flight. */
module ArbitrageLimits {
  import opened Results

  /** The market an executor buys on: the first or the second of the two configured, distinct pairs. */
  datatype Market = First | Second

  datatype Executor = Executor(buysOn: Market, terminated: bool, closedAt: real)

  datatype Config = Config(delay: real, maxImbalance: int)

  /** What the controller recomputes from the whole executor list on every tick. */
  datatype Stats = Stats(imbalance: int, lastBuyClosed: real, lastSellClosed: real, activeBuys: nat, activeSells: nat)

  function Count(es: seq<Executor>, market: Market, terminated: bool): nat {
    if es == [] then 0
    else
      var last := es[|es| - 1];
      Count(es[..|es| - 1], market, terminated)
      + if last.buysOn == market && last.terminated == terminated then 1 else 0
  }

  /** The latest close time of the finished executors buying there. */
  function Newest(es: seq<Executor>, market: Market): (latest: Option<real>)
    ensures forall e | e in es && e.buysOn == market && e.terminated :: latest.Some? && e.closedAt <= latest.value
    ensures latest.Some? ==> exists e | e in es :: e.buysOn == market && e.terminated && e.closedAt == latest.value
  {
    if es == [] then None
    else
      var init, last := es[..|es| - 1], es[|es| - 1];
      var before := Newest(init, market);
      assert es == init + [last];
      if last.buysOn != market || !last.terminated then before
      else if before.None? || before.value < last.closedAt then Some(last.closedAt)
      else before
  }

  lemma CountSnoc(es: seq<Executor>, i: nat, market: Market, terminated: bool)
    requires i < |es|
    ensures Count(es[..i + 1], market, terminated)
         == Count(es[..i], market, terminated)
            + if es[i].buysOn == market && es[i].terminated == terminated then 1 else 0
  {
    assert es[..i + 1][..i] == es[..i];
  }

  lemma NewestSnoc(es: seq<Executor>, i: nat, market: Market)
    requires i < |es|
    ensures var before := Newest(es[..i], market);
            Newest(es[..i + 1], market)
            == if es[i].buysOn != market || !es[i].terminated then before
               else if before.None? || before.value < es[i].closedAt then Some(es[i].closedAt) else before
  {
    assert es[..i + 1][..i] == es[..i];
  }

  function LastClosed(es: seq<Executor>, market: Market): real {
    var newest := Newest(es, market);
    if newest.Some? then newest.value else 0.0
  }

  function StatsOf(es: seq<Executor>): Stats {
    Stats(Count(es, First, true) - Count(es, Second, true), LastClosed(es, First), LastClosed(es, Second),
          Count(es, First, false), Count(es, Second, false))
  }

  function Magnitude(x: int): int { if x < 0 then -x else x }

  /** Neither at the limit nor within the delay after a close. */
  predicate MayTrade(s: Stats, now: real, c: Config) {
    && Magnitude(s.imbalance) < c.maxImbalance
    && s.lastBuyClosed + c.delay <= now && s.lastSellClosed + c.delay <= now
  }

  /** The markets on which new executors start buying. `quoted` tells for which of them a rate was
      found and no error came up; without one the executor is skipped. */
  function Actions(s: Stats, now: real, quoted: set<Market>, c: Config): seq<Market> {
    if !MayTrade(s, now, c) then []
    else
      (if s.activeBuys == 0 && First in quoted then [First] else [])
      + (if s.activeSells == 0 && Second in quoted then [Second] else [])
  }

  class ArbitrageController {
    const c: Config
    var imbalance: int
    var lastBuyClosed: real
    var lastSellClosed: real
    var activeBuys: nat
    var activeSells: nat

    function Now(): Stats reads this { Stats(imbalance, lastBuyClosed, lastSellClosed, activeBuys, activeSells) }

    constructor (c: Config)
      ensures this.c == c && Now() == StatsOf([])
    {
      this.c, imbalance, lastBuyClosed, lastSellClosed, activeBuys, activeSells := c, 0, 0.0, 0.0, 0, 0;
    }

    method UpdateArbitrageStats(es: seq<Executor>)
      modifies this
      ensures Now() == StatsOf(es)
    {
      var buys := Find(es, First, true);
      var sells := Find(es, Second, true);
      imbalance := |buys| - |sells|;
      lastBuyClosed := LatestClose(buys, First);
      lastSellClosed := LatestClose(sells, Second);
      var active := Find(es, First, false);
      activeBuys := |active|;
      active := Find(es, Second, false);
      activeSells := |active|;
    }

    /** The executors buying there that are finished, or that are not. */
    method Find(es: seq<Executor>, market: Market, terminated: bool) returns (found: seq<Executor>)
      ensures |found| == Count(es, market, terminated)
      ensures forall e | e in found :: e.buysOn == market && e.terminated == terminated
      ensures terminated ==> Newest(found, market) == Newest(es, market)
    {
      found := [];
      for i := 0 to |es|
        invariant |found| == Count(es[..i], market, terminated)
        invariant forall e | e in found :: e.buysOn == market && e.terminated == terminated
        invariant terminated ==> Newest(found, market) == Newest(es[..i], market)
      {
        hide Count, Newest;
        CountSnoc(es, i, market, terminated);
        NewestSnoc(es, i, market);
        if es[i].buysOn == market && es[i].terminated == terminated {
          found := found + [es[i]];
          NewestSnoc(found, |found| - 1, market);
          assert found[..|found| - 1] + [es[i]] == found == found[..|found|];
        }
      }
      assert es[..|es|] == es;
    }

    /** The largest close time, or 0 when nothing is finished there. */
    method LatestClose(closed: seq<Executor>, market: Market) returns (latest: real)
      requires forall e | e in closed :: e.buysOn == market && e.terminated
      ensures latest == LastClosed(closed, market)
    {
      if closed == [] {
        return 0.0;
      }
      latest := closed[0].closedAt;
      NewestSnoc(closed, 0, market);
      for i := 1 to |closed|
        invariant Newest(closed[..i], market) == Some(latest)
      {
        hide Newest;
        NewestSnoc(closed, i, market);
        if latest < closed[i].closedAt {
          latest := closed[i].closedAt;
        }
      }
      assert closed[..|closed|] == closed;
    }

    method DetermineExecutorActions(es: seq<Executor>, now: real, quoted: set<Market>) returns (actions: seq<Market>)
      modifies this
      ensures Now() == StatsOf(es) && actions == Actions(StatsOf(es), now, quoted, c)
    {
      UpdateArbitrageStats(es);
      actions := [];
      if (if imbalance < 0 then -imbalance else imbalance) >= c.maxImbalance
         || lastBuyClosed + c.delay > now || lastSellClosed + c.delay > now {
        return;
      }
      if activeBuys == 0 && First in quoted {
        actions := actions + [First];
      }
      if activeSells == 0 && Second in quoted {
        actions := actions + [Second];
      }
    }
  }

  lemma {:induction false} NobodyThere(es: seq<Executor>, market: Market)
    ensures Count(es, market, false) == 0 <==> !exists e | e in es :: e.buysOn == market && !e.terminated
  {
    if es != [] {
      var n := |es| - 1;
      assert es == es[..n] + [es[n]];
      NobodyThere(es[..n], market);
    }
  }

  /** The delay has passed since every close there; without any, since the start of the clock. */
  predicate Rested(es: seq<Executor>, market: Market, now: real, c: Config) {
    && (forall e | e in es && e.buysOn == market && e.terminated :: now >= e.closedAt + c.delay)
    && ((forall e | e in es && e.buysOn == market :: !e.terminated) ==> now >= c.delay)
  }

  lemma RestedIs(es: seq<Executor>, market: Market, now: real, c: Config)
    ensures LastClosed(es, market) + c.delay <= now <==> Rested(es, market, now, c)
  {
    var newest := Newest(es, market);
    if newest.Some? {
      var e :| e in es && e.buysOn == market && e.terminated && e.closedAt == newest.value;
    }
  }

  /** A direction gets a new executor exactly when finished ones of the two directions differ by less than the limit,
      the delay has passed in both, none is in flight there and a rate was found; the first direction comes first. */
  lemma DirectionsIff(es: seq<Executor>, now: real, quoted: set<Market>, c: Config, market: Market)
    ensures var actions := Actions(StatsOf(es), now, quoted, c);
            var difference := Count(es, First, true) - Count(es, Second, true);
      && (market in actions <==>
            && -c.maxImbalance < difference < c.maxImbalance
            && Rested(es, First, now, c) && Rested(es, Second, now, c)
            && (!exists e | e in es :: e.buysOn == market && !e.terminated) && market in quoted)
      && (forall i, j | 0 <= i < j < |actions| :: actions[i] == First && actions[j] == Second)
  {
    hide Count, LastClosed, Rested;
    NobodyThere(es, First);
    NobodyThere(es, Second);
    RestedIs(es, First, now, c);
    RestedIs(es, Second, now, c);
  }

  // ------------------------------------------------------------------ runs

  /** New executors are listed from the next tick on. */
  function Started(markets: seq<Market>): seq<Executor> {
    seq(|markets|, i requires 0 <= i < |markets| => Executor(markets[i], false, 0.0))
  }

  /** One controller tick, or one executor finishing; finished executors stay in the list. */
  ghost predicate Step(es: seq<Executor>, es': seq<Executor>, c: Config) {
    || (exists now, quoted :: es' == es + Started(Actions(StatsOf(es), now, quoted, c)))
    || (exists k: nat, closedAt ::
          k < |es| && !es[k].terminated && es' == es[k := es[k].(terminated := true, closedAt := closedAt)])
  }

  ghost predicate Leads(es: seq<Executor>, es': seq<Executor>, c: Config, n: nat)
    decreases n
  {
    if n == 0 then es == es'
    else exists middle :: Leads(es, middle, c, n - 1) && Step(middle, es', c)
  }

  // ------------------------------------------------------------------ the bound

  /** Finished executors plus the ones in flight stay within the limit on both sides. */
  ghost predicate Bounded(es: seq<Executor>, c: Config) {
    var s := StatsOf(es);
    s.imbalance + s.activeBuys <= c.maxImbalance && s.imbalance - s.activeSells >= -c.maxImbalance
  }

  lemma {:induction false} CountConcat(a: seq<Executor>, b: seq<Executor>, market: Market, terminated: bool)
    ensures Count(a + b, market, terminated) == Count(a, market, terminated) + Count(b, market, terminated)
  {
    if b == [] {
      assert a + b == a;
    } else {
      assert (a + b)[..|a + b| - 1] == a + b[..|b| - 1];
      CountConcat(a, b[..|b| - 1], market, terminated);
    }
  }

  lemma CountOne(e: Executor, market: Market, terminated: bool)
    ensures Count([e], market, terminated) == if e.buysOn == market && e.terminated == terminated then 1 else 0
  {
    assert [e][..0] == [];
  }

  lemma CountReplaced(es: seq<Executor>, k: nat, e: Executor, market: Market, terminated: bool)
    requires k < |es|
    ensures Count(es[k := e], market, terminated) - Count([e], market, terminated)
         == Count(es, market, terminated) - Count([es[k]], market, terminated)
  {
    hide Count;
    assert es == es[..k] + [es[k]] + es[k + 1..];
    assert es[k := e] == es[..k] + [e] + es[k + 1..];
    CountConcat(es[..k] + [es[k]], es[k + 1..], market, terminated);
    CountConcat(es[..k], [es[k]], market, terminated);
    CountConcat(es[..k] + [e], es[k + 1..], market, terminated);
    CountConcat(es[..k], [e], market, terminated);
  }

  lemma FinishKeepsBound(es: seq<Executor>, k: nat, closedAt: real, c: Config)
    requires k < |es| && !es[k].terminated && Bounded(es, c)
    ensures Bounded(es[k := es[k].(terminated := true, closedAt := closedAt)], c)
  {
    hide Count, LastClosed;
    var e := es[k].(terminated := true, closedAt := closedAt);
    CountReplaced(es, k, e, First, true);
    CountReplaced(es, k, e, First, false);
    CountReplaced(es, k, e, Second, true);
    CountReplaced(es, k, e, Second, false);
    CountsOf(e);
    CountsOf(es[k]);
  }

  lemma CountsOf(e: Executor)
    ensures Count([e], First, true) == if e.buysOn == First && e.terminated then 1 else 0
    ensures Count([e], First, false) == if e.buysOn == First && !e.terminated then 1 else 0
    ensures Count([e], Second, true) == if e.buysOn == Second && e.terminated then 1 else 0
    ensures Count([e], Second, false) == if e.buysOn == Second && !e.terminated then 1 else 0
  {
    hide Count;
    CountOne(e, First, true);
    CountOne(e, First, false);
    CountOne(e, Second, true);
    CountOne(e, Second, false);
  }

  lemma {:induction false} StartedCounts(markets: seq<Market>, market: Market)
    ensures Count(Started(markets), market, true) == 0
    ensures Count(Started(markets), market, false) <= |markets|
    ensures market !in markets ==> Count(Started(markets), market, false) == 0
  {
    if markets != [] {
      var n := |markets| - 1;
      assert Started(markets)[..n] == Started(markets[..n]);
      StartedCounts(markets[..n], market);
      assert markets[n] in markets;
    }
  }

  lemma StartedPair(markets: seq<Market>)
    requires markets == [] || markets == [First] || markets == [Second] || markets == [First, Second]
    ensures Count(Started(markets), First, false) == if First in markets then 1 else 0
    ensures Count(Started(markets), Second, false) == if Second in markets then 1 else 0
  {
    CountsOf(Executor(First, false, 0.0));
    CountsOf(Executor(Second, false, 0.0));
    CountConcat([Executor(First, false, 0.0)], [Executor(Second, false, 0.0)], First, false);
    CountConcat([Executor(First, false, 0.0)], [Executor(Second, false, 0.0)], Second, false);
    assert markets == [First, Second]
        ==> Started(markets) == [Executor(First, false, 0.0)] + [Executor(Second, false, 0.0)];
    assert markets == [First] ==> Started(markets) == [Executor(First, false, 0.0)];
    assert markets == [Second] ==> Started(markets) == [Executor(Second, false, 0.0)];
  }

  lemma TickKeepsBound(es: seq<Executor>, now: real, quoted: set<Market>, c: Config)
    requires Bounded(es, c)
    ensures Bounded(es + Started(Actions(StatsOf(es), now, quoted, c)), c)
  {
    hide Count, LastClosed, Started;
    var markets := Actions(StatsOf(es), now, quoted, c);
    StartedPair(markets);
    forall m: Market, t: bool
      ensures Count(es + Started(markets), m, t) == Count(es, m, t) + Count(Started(markets), m, t)
    {
      CountConcat(es, Started(markets), m, t);
    }
    StartedCounts(markets, First);
    StartedCounts(markets, Second);
  }

  lemma {:induction false} LeadsKeepsBound(es: seq<Executor>, es': seq<Executor>, c: Config, n: nat)
    requires Leads(es, es', c, n) && Bounded(es, c)
    ensures Bounded(es', c)
    decreases n
  {
    hide Step, Bounded;
    if n > 0 {
      var middle :| Leads(es, middle, c, n - 1) && Step(middle, es', c);
      LeadsKeepsBound(es, middle, c, n - 1);
      StepKeepsBound(middle, es', c);
    }
  }

  lemma StepKeepsBound(es: seq<Executor>, es': seq<Executor>, c: Config)
    requires Step(es, es', c) && Bounded(es, c)
    ensures Bounded(es', c)
  {
    hide Bounded, Actions, StatsOf, Started;
    if now, quoted :| es' == es + Started(Actions(StatsOf(es), now, quoted, c)) {
      TickKeepsBound(es, now, quoted, c);
    } else {
      var k: nat, closedAt :|
        k < |es| && !es[k].terminated && es' == es[k := es[k].(terminated := true, closedAt := closedAt)];
      FinishKeepsBound(es, k, closedAt, c);
    }
  }

  /** However executors finish and whatever the rates do, the imbalance never passes the limit. */
  lemma ImbalanceBounded(es: seq<Executor>, c: Config, n: nat)
    requires c.maxImbalance >= 0 && Leads([], es, c, n)
    ensures Magnitude(StatsOf(es).imbalance) <= c.maxImbalance
  {
    LeadsKeepsBound([], es, c, n);
  }

  ghost predicate Settled(es: seq<Executor>, c: Config) {
    Magnitude(StatsOf(es).imbalance) >= c.maxImbalance && forall e | e in es :: e.terminated
  }

  /** Once the limit is met with nothing in flight, nothing ever happens again. */
  lemma {:induction false} StopsForGood(es: seq<Executor>, es': seq<Executor>, c: Config, n: nat)
    requires Leads(es, es', c, n) && Settled(es, c)
    ensures es' == es
    decreases n
  {
    hide Settled, Step;
    if n > 0 {
      var middle :| Leads(es, middle, c, n - 1) && Step(middle, es', c);
      StopsForGood(es, middle, c, n - 1);
      SettledStep(es, es', c);
    }
  }

  lemma SettledStep(es: seq<Executor>, es': seq<Executor>, c: Config)
    requires Step(es, es', c) && Settled(es, c)
    ensures es' == es
  {
    hide StatsOf, Magnitude;
    assert forall k | 0 <= k < |es| :: es[k] in es;
    assert es + [] == es;
  }

  // ------------------------------------------------------------------ the bound is reached

  /** Executors that all bought on one market and have finished. */
  function Finished(market: Market, k: nat): (es: seq<Executor>)
    ensures |es| == k && forall e | e in es :: e.buysOn == market && e.terminated && e.closedAt == 0.0
  {
    if k == 0 then [] else Finished(market, k - 1) + [Executor(market, true, 0.0)]
  }

  lemma {:induction false} FinishedStats(market: Market, k: nat)
    ensures StatsOf(Finished(market, k)) == Stats(if market == First then k else -(k as int), 0.0, 0.0, 0, 0)
  {
    hide Newest;
    LastClosedZero(Finished(market, k), First);
    LastClosedZero(Finished(market, k), Second);
    FinishedCounts(market, k);
  }

  lemma LastClosedZero(es: seq<Executor>, market: Market)
    requires forall e | e in es :: e.closedAt == 0.0
    ensures LastClosed(es, market) == 0.0
  {
    assert Newest(es, market).Some? ==> exists e | e in es :: e.closedAt == Newest(es, market).value;
  }

  lemma {:induction false} FinishedCounts(market: Market, k: nat)
    ensures Count(Finished(market, k), First, true) == if market == First then k else 0
    ensures Count(Finished(market, k), Second, true) == if market == Second then k else 0
    ensures Count(Finished(market, k), First, false) == Count(Finished(market, k), Second, false) == 0
  {
    hide Count;
    var last := Executor(market, true, 0.0);
    CountNone();
    if k > 0 {
      FinishedCounts(market, k - 1);
      CountsOf(last);
      CountConcat(Finished(market, k - 1), [last], First, true);
      CountConcat(Finished(market, k - 1), [last], Second, true);
      CountConcat(Finished(market, k - 1), [last], First, false);
      CountConcat(Finished(market, k - 1), [last], Second, false);
    }
  }

  lemma CountNone()
    ensures forall market, terminated :: Count([], market, terminated) == 0
  {
  }

  /** Below the limit one more executor starts on a quoted market, and finishes. */
  lemma OneMore(market: Market, k: nat, c: Config)
    requires k < c.maxImbalance
    ensures var es := Finished(market, k);
            Step(es, es + [Executor(market, false, 0.0)], c)
            && Step(es + [Executor(market, false, 0.0)], Finished(market, k + 1), c)
  {
    var es := Finished(market, k);
    var middle := es + [Executor(market, false, 0.0)];
    FinishedStats(market, k);
    hide StatsOf, Finished;
    assert Actions(StatsOf(es), c.delay, {market}, c) == [market];
    assert Started([market]) == [Executor(market, false, 0.0)];
    assert Step(es, middle, c);
    FinishedSnoc(market, k);
    assert middle[k := middle[k].(terminated := true, closedAt := 0.0)] == Finished(market, k + 1);
  }

  lemma FinishedSnoc(market: Market, k: nat)
    ensures Finished(market, k + 1) == Finished(market, k) + [Executor(market, true, 0.0)]
  {
  }

  lemma {:induction false} FinishedReached(market: Market, k: nat, c: Config)
    requires k <= c.maxImbalance
    ensures Leads([], Finished(market, k), c, 2 * k)
  {
    hide Step;
    if k > 0 {
      FinishedReached(market, k - 1, c);
      OneMore(market, k - 1, c);
      assert Leads([], Finished(market, k - 1) + [Executor(market, false, 0.0)], c, 2 * k - 1);
    }
  }

  /** Some run ends with the imbalance at the limit, on either side. */
  lemma LimitIsReached(c: Config)
    requires c.maxImbalance >= 0
    ensures exists es, n :: Leads([], es, c, n) && StatsOf(es).imbalance == c.maxImbalance
    ensures exists es, n :: Leads([], es, c, n) && StatsOf(es).imbalance == -c.maxImbalance
  {
    hide Leads, StatsOf;
    FinishedReached(First, c.maxImbalance, c);
    FinishedReached(Second, c.maxImbalance, c);
    FinishedStats(First, c.maxImbalance);
    FinishedStats(Second, c.maxImbalance);
  }
}
