/** What one tick of the single-position controller does, in plain terms: when it closes, what it stops, and
    exactly when it enters. */
module SimpleTerms {
  import opened Results
  import opened RealFacts
  import opened MeanReversion
  import opened PositionSizing
  import opened PmmSimple

  // ------------------------------------------------------------------ the terms

  predicate Live(e: Executor) { e.status in {NotStarted, Running} }

  /** The executor may hold something. */
  predicate Holding(e: Executor) { e.trading || e.filledQuote > 0.0 }

  /** Everything is closed at once: on request, or when the unrealized result beats a fixed target above one. */
  predicate ClosesNow(executors: seq<Executor>, env: Env, c: Config) {
    || env.closeRequested
    || (&& c.fixedTarget.Some? && c.fixedTarget.value > 1.0 && env.unrealized > c.fixedTarget.value
        && (env.held || env.exchangePosition || exists e | e in executors :: Live(e) && Holding(e)))
  }

  /** An order that has waited too long or whose direction is no longer signalled, with nothing filled. */
  predicate Outdated(e: Executor, env: Env, c: Config) {
    && Live(e) && !Holding(e)
    && (env.snapshot.Some? && env.snapshot.value.signal == (if e.isBuy then 1 else -1) ==>
          env.now - e.timestamp >= c.refreshTime)
  }

  /** It closed after holding something: filled, or closed by a barrier. */
  predicate ClosedPosition(e: Executor) {
    e.closeTimestamp.Some?
    && (e.filledQuote > 0.0 || e.closeType == Some(StopLoss) || e.closeType == Some(TakeProfit)
        || e.closeType == Some(TimeLimit))
  }

  /** It closed without ever holding anything. */
  predicate ClosedOrder(e: Executor) { e.closeTimestamp.Some? && !ClosedPosition(e) }

  /** When the executor's cooldown is over: longer after a stop loss. */
  function RestedAt(e: Executor, c: Config): real
    requires e.closeTimestamp.Some?
  {
    match e.closeType
    case Some(StopLoss) => e.closeTimestamp.value + c.stopLossCooldown
    case _ => e.closeTimestamp.value + c.cooldown
  }

  lemma ClosedPositionIs(e: Executor, c: Config)
    ensures ClosedPosition(e) <==> e.ClosedFilled()
    ensures e.closeTimestamp.Some? ==> RestedAt(e, c) == e.closeTimestamp.value + CooldownOf(e, c)
  {
  }

  // ------------------------------------------------------------------ closing and stopping

  lemma {:induction false} ActiveStopsIff(executors: seq<Executor>, id: nat)
    ensures Stop(id) in ActiveStops(executors) <==> exists e | e in executors :: Live(e) && e.id == id
  {
    if executors != [] {
      var n := |executors| - 1;
      assert executors == executors[..n] + [executors[n]];
      ActiveStopsIff(executors[..n], id);
    }
  }

  lemma {:induction false} RoutineStopsIff(executors: seq<Executor>, env: Env, c: Config, id: nat)
    ensures var signal := if env.snapshot.Some? then env.snapshot.value.signal else 0;
            Stop(id) in RoutineStops(executors, signal, env.now, c) <==>
              exists e | e in executors :: Outdated(e, env, c) && e.id == id
  {
    if executors != [] {
      var n := |executors| - 1;
      assert executors == executors[..n] + [executors[n]];
      RoutineStopsIff(executors[..n], env, c, id);
    }
  }

  lemma ClosesIff(executors: seq<Executor>, env: Env, c: Config)
    ensures ClosesNow(executors, env, c) <==> env.closeRequested || FixedTargetHit(executors, env, c)
  {
  }

  /** A close stops exactly the live executors, asks for a market close exactly when all executors are finished, and
      keeps new entries away for the ordinary cooldown. */
  lemma CloseTerms(st: State, executors: seq<Executor>, env: Env, c: Config)
    requires c.Valid() && env.Valid() && ClosesNow(executors, env, c)
    ensures var (st', d) := Tick(st, executors, env, c);
      && st'.snapshot == st.snapshot && st'.lastEntryCandle == st.lastEntryCandle
      && st'.cooldownUntil == (if st.cooldownUntil < env.now + c.cooldown then env.now + c.cooldown else st.cooldownUntil)
      && (forall a | a in d.actions :: a.Stop?)
      && (forall id :: Stop(id) in d.actions <==> exists e | e in executors :: Live(e) && e.id == id)
      && (d.marketClose <==> forall e | e in executors :: e.status == Terminated)
  {
    ClosesIff(executors, env, c);
    ActiveStopsAreStops(executors);
    forall id ensures Stop(id) in ActiveStops(executors) <==> exists e | e in executors :: Live(e) && e.id == id {
      ActiveStopsIff(executors, id);
    }
    assert Owns(executors) <==> exists e | e in executors :: e.status != Terminated;
    hide ClosesNow, FixedTargetHit, ActiveStops, Owns, Live, Propose, RoutineStops;
  }

  lemma NoStops(d: Decision, id: nat)
    requires (forall a | a in d.actions :: a.Create?)
    ensures Stop(id) !in d.actions
  {
  }

  lemma ProposeCreates(st: State, executors: seq<Executor>, env: Env, c: Config)
    requires c.Valid() && (st.snapshot.Some? ==> st.snapshot.value.std > 0.0)
    ensures !Propose(st, executors, env, c).1.marketClose
    ensures forall a | a in Propose(st, executors, env, c).1.actions :: a.Create?
  {
    hide EntryOrder, CanEnter;
  }

  /** Any other tick asks for no market close and stops exactly the outdated orders, if it was told to look. */
  lemma StopTerms(st: State, executors: seq<Executor>, env: Env, c: Config, id: nat)
    requires c.Valid() && env.Valid() && !ClosesNow(executors, env, c)
    ensures var (st', d) := Tick(st, executors, env, c);
      && !d.marketClose
      && (Stop(id) in d.actions <==> env.updateEvent && exists e | e in executors :: Outdated(e, env, c) && e.id == id)
  {
    hide ClosesNow, FixedTargetHit, RoutineStops, Propose, Outdated;
    ClosesIff(executors, env, c);
    RoutineStopsIff(executors, env, c, id);
    var seen := st.(snapshot := env.snapshot);
    RoutineStopsAreStale(executors, CurrentSignal(seen), env.now, c);
    ProposeCreates(seen, executors, env, c);
  }

  // ------------------------------------------------------------------ entering

  lemma AbsorbTerms(st: State, e: Executor, now: real, c: Config)
    ensures var st' := Absorb(st, e, now, c);
      && st'.snapshot == st.snapshot
      && st'.cooldownUntil == if ClosedPosition(e) then Max(st.cooldownUntil, RestedAt(e, c)) else st.cooldownUntil
  {
    hide RestedAt, CooldownOf;
    ClosedPositionIs(e, c);
  }

  /** A scan over finished executors leaves as cooldown the largest of what it started with and what they ask for. */
  lemma {:induction false} ScanTerms(st: State, executors: seq<Executor>, now: real, c: Config)
    ensures var (st', ok) := Scan(st, executors, now, c);
      && (ok <==> forall e | e in executors :: e.status == Terminated)
      && st'.snapshot == st.snapshot && st'.cooldownUntil >= st.cooldownUntil
      && (ok ==> forall e | e in executors && ClosedPosition(e) :: st'.cooldownUntil >= RestedAt(e, c))
      && (st'.cooldownUntil == st.cooldownUntil
          || exists e | e in executors :: ClosedPosition(e) && st'.cooldownUntil == RestedAt(e, c))
    decreases |executors|
  {
    hide ClosedPosition, RestedAt, Absorb;
    if executors != [] {
      var e, rest := executors[0], executors[1..];
      assert executors == [e] + rest;
      if e.Done() {
        AbsorbTerms(st, e, now, c);
        ScanTerms(Absorb(st, e, now, c), rest, now, c);
      }
    }
  }

  /** The cooldown only ever moves to what a close or a closed position asks for. */
  lemma CooldownComesFrom(st: State, executors: seq<Executor>, env: Env, c: Config)
    requires c.Valid() && env.Valid()
    ensures var until := Tick(st, executors, env, c).0.cooldownUntil;
      || until == st.cooldownUntil
      || (ClosesNow(executors, env, c) && until == env.now + c.cooldown)
      || exists e | e in executors :: ClosedPosition(e) && until == RestedAt(e, c)
  {
    hide EntryOrder, ClosesNow, FixedTargetHit, ClosedPosition, RestedAt, RoutineStops, ActiveStops, Scan;
    ClosesIff(executors, env, c);
    ScanTerms(st.(snapshot := env.snapshot), executors, env.now, c);
  }

  /** The candle lock survives the scan exactly when no order on that candle closed unfilled long enough ago. */
  lemma {:induction false} ScanLockTerms(st: State, executors: seq<Executor>, now: real, c: Config)
    requires st.snapshot.Some? && Scan(st, executors, now, c).1
    ensures var lock, candle := Scan(st, executors, now, c).0.lastEntryCandle, Some(st.snapshot.value.timestamp);
            lock == candle <==>
              st.lastEntryCandle == candle
              && !exists e | e in executors :: ClosedOrder(e) && now >= e.closeTimestamp.value + 5.0
    decreases |executors|
  {
    if executors != [] {
      var e, rest := executors[0], executors[1..];
      assert executors == [e] + rest;
      ScanLockTerms(Absorb(st, e, now, c), rest, now, c);
    }
  }

  /** An entry goes out exactly when the controller was told to look, is not switched off and sees a signal, every
      executor is finished, the account is flat with its leverage set, every cooldown is over, the candle is not
      used up, and the sizing finds this entry. */
  lemma EntryIff(st: State, executors: seq<Executor>, env: Env, c: Config, entry: Entry)
    requires c.Valid() && env.Valid()
    ensures Create(entry) in Tick(st, executors, env, c).1.actions
       <==> && env.updateEvent && !env.closeRequested && !c.killSwitch
            && env.snapshot.Some? && env.snapshot.value.signal != 0
            && (forall e | e in executors :: e.status == Terminated)
            && !env.held && !env.exchangePosition && env.leverageReady
            && env.now >= st.cooldownUntil
            && (forall e | e in executors && ClosedPosition(e) :: env.now >= RestedAt(e, c))
            && (st.lastEntryCandle == Some(env.snapshot.value.timestamp) ==>
                  exists e | e in executors :: ClosedOrder(e) && env.now >= e.closeTimestamp.value + 5.0)
            && EntryOrder(env.snapshot.value, env.market, c.settings, c.budget) == Ok(entry)
  {
    hide EntryOrder, ClosedPosition, ClosedOrder, RestedAt, RoutineStops, Scan, ActiveStops, FixedTargetHit;
    var seen := st.(snapshot := env.snapshot);
    ActiveStopsAreStops(executors);
    RoutineStopsAreStale(executors, CurrentSignal(seen), env.now, c);
    NothingLive(executors, env, c);
    ScanTerms(seen, executors, env.now, c);
    if seen.snapshot.Some? && Scan(seen, executors, env.now, c).1 {
      ScanLockTerms(seen, executors, env.now, c);
    }
  }

  /** With every executor finished and a flat account the fixed target is not hit and nothing is outdated. */
  lemma NothingLive(executors: seq<Executor>, env: Env, c: Config)
    ensures (forall e | e in executors :: e.status == Terminated) && !env.held && !env.exchangePosition ==>
              !FixedTargetHit(executors, env, c)
    ensures forall signal: int | (forall e | e in executors :: e.status == Terminated) ::
              RoutineStops(executors, signal, env.now, c) == []
  {
    hide StaleOrder;
    forall signal: int | forall e | e in executors :: e.status == Terminated
      ensures RoutineStops(executors, signal, env.now, c) == []
    {
      NothingStale(executors, signal, env.now, c);
    }
  }

  lemma {:induction false} NothingStale(executors: seq<Executor>, signal: int, now: real, c: Config)
    requires forall e | e in executors :: e.status == Terminated
    ensures RoutineStops(executors, signal, now, c) == []
  {
    if executors != [] {
      assert executors[|executors| - 1] in executors;
      NothingStale(executors[..|executors| - 1], signal, now, c);
    }
  }
}
