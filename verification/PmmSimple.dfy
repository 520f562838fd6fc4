/** The single-position controller: its tick, and what every run of ticks and executor
    progress keeps. */
module PmmSimple {
  import opened Results
  import opened RealFacts
  import opened MeanReversion
  import opened PositionSizing

  datatype Status = NotStarted | Running | ShuttingDown | Terminated
  datatype CloseType = TimeLimit | StopLoss | TakeProfit | EarlyStop | OtherClose

  datatype Executor = Executor(id: nat, isBuy: bool, status: Status, timestamp: real, filledQuote: real,
                               trading: bool, closeTimestamp: Option<real>, closeType: Option<CloseType>)
  {
    predicate Active() { status == NotStarted || status == Running }
    predicate Done() { status == Terminated }
    predicate Exposed() { trading || filledQuote > 0.0 }
    /** Closed after holding exposure, as the cooldown rule sees it. */
    predicate ClosedFilled() {
      closeTimestamp.Some?
      && (filledQuote > 0.0 || closeType in {Some(StopLoss), Some(TakeProfit), Some(TimeLimit)})
    }
  }

  datatype Config = Config(settings: Settings, budget: Budget, refreshTime: real, cooldown: real,
                           stopLossCooldown: real, fixedTarget: Option<real>, killSwitch: bool)
  {
    predicate Valid() {
      settings.Valid() && budget.Valid() && refreshTime >= 1.0 && 1.0 <= cooldown <= stopLossCooldown
    }
  }

  datatype State = State(snapshot: Option<Snapshot>, lastEntryCandle: Option<real>, cooldownUntil: real)

  /** Everything a tick reads from outside: clock, dashboard, data, exchange. */
  datatype Env = Env(now: real, closeRequested: bool, updateEvent: bool, snapshot: Option<Snapshot>,
                     unrealized: real, held: bool, exchangePosition: bool, leverageReady: bool, market: Market)
  {
    predicate Valid() { snapshot.Some? ==> snapshot.value.std > 0.0 }
  }

  datatype Action = Create(entry: Entry) | Stop(id: nat)
  datatype Decision = Decision(actions: seq<Action>, marketClose: bool)

  // ------------------------------------------------------------------ the tick, as a function

  function ActiveStops(executors: seq<Executor>): seq<Action> {
    if executors == [] then []
    else
      var last := executors[|executors| - 1];
      ActiveStops(executors[..|executors| - 1]) + if last.Active() then [Stop(last.id)] else []
  }

  predicate Owns(executors: seq<Executor>) { exists e | e in executors :: !e.Done() }

  /** A dashboard close and the fixed unrealized target do the same thing. */
  function CloseAll(st: State, executors: seq<Executor>, now: real, c: Config): (State, Decision) {
    (st.(cooldownUntil := Max(st.cooldownUntil, now + c.cooldown)),
     Decision(ActiveStops(executors), !Owns(executors)))
  }

  predicate FixedTargetHit(executors: seq<Executor>, env: Env, c: Config) {
    && c.fixedTarget.Some? && c.fixedTarget.value > 1.0 && env.unrealized > c.fixedTarget.value
    && ((exists e | e in executors :: e.Active() && e.Exposed()) || env.held || env.exchangePosition)
  }

  function CurrentSignal(st: State): int { if st.snapshot.Some? then st.snapshot.value.signal else 0 }

  predicate StaleOrder(e: Executor, signal: int, now: real, c: Config) {
    && e.Active() && !e.Exposed()
    && (signal != (if e.isBuy then 1 else -1) || now - e.timestamp >= c.refreshTime)
  }

  function RoutineStops(executors: seq<Executor>, signal: int, now: real, c: Config): seq<Action> {
    if executors == [] then []
    else
      var last := executors[|executors| - 1];
      RoutineStops(executors[..|executors| - 1], signal, now, c)
      + if StaleOrder(last, signal, now, c) then [Stop(last.id)] else []
  }

  function CooldownOf(e: Executor, c: Config): real {
    if e.closeType == Some(StopLoss) then c.stopLossCooldown else c.cooldown
  }

  /** What reading one closed executor does to the cooldown and to the candle lock. */
  function Absorb(st: State, e: Executor, now: real, c: Config): State {
    if e.closeTimestamp.None? then st
    else if e.ClosedFilled() then
      st.(cooldownUntil := Max(st.cooldownUntil, e.closeTimestamp.value + CooldownOf(e, c)))
    else if st.snapshot.Some? && st.lastEntryCandle == Some(st.snapshot.value.timestamp)
            && now >= e.closeTimestamp.value + 5.0 then st.(lastEntryCandle := None)
    else st
  }

  /** The loop of `_can_enter` over the first `n` executors; it stops at one still in progress. */
  function Scan(st: State, executors: seq<Executor>, now: real, c: Config): (State, bool)
    decreases |executors|
  {
    if executors == [] then (st, true)
    else if !executors[0].Done() then (st, false)
    else Scan(Absorb(st, executors[0], now, c), executors[1..], now, c)
  }

  function CanEnter(st: State, executors: seq<Executor>, env: Env, c: Config): (State, bool) {
    var (scanned, allDone) := Scan(st, executors, env.now, c);
    (scanned,
     allDone && !env.held && env.leverageReady && !env.exchangePosition && env.now >= scanned.cooldownUntil
     && scanned.snapshot.Some? && scanned.lastEntryCandle != Some(scanned.snapshot.value.timestamp))
  }

  function Propose(st: State, executors: seq<Executor>, env: Env, c: Config): (State, Decision)
    requires c.Valid() && (st.snapshot.Some? ==> st.snapshot.value.std > 0.0)
  {
    if c.killSwitch || CurrentSignal(st) == 0 then (st, Decision([], false))
    else
      var (scanned, ok) := CanEnter(st, executors, env, c);
      if !ok then (scanned, Decision([], false))
      else
        match EntryOrder(st.snapshot.value, env.market, c.settings, c.budget)
        case Err(_) => (scanned, Decision([], false))
        case Ok(entry) =>
          (scanned.(lastEntryCandle := Some(st.snapshot.value.timestamp)), Decision([Create(entry)], false))
  }

  function Tick(st: State, executors: seq<Executor>, env: Env, c: Config): (State, Decision)
    requires c.Valid() && env.Valid()
  {
    if env.closeRequested || FixedTargetHit(executors, env, c) then CloseAll(st, executors, env.now, c)
    else if !env.updateEvent then (st, Decision([], false))
    else
      var seen := st.(snapshot := env.snapshot);
      var stops := RoutineStops(executors, CurrentSignal(seen), env.now, c);
      if stops != [] then (seen, Decision(stops, false)) else Propose(seen, executors, env, c)
  }

  // ------------------------------------------------------------------ the controller object

  class Controller {
    const c: Config
    var snapshot: Option<Snapshot>
    var lastEntryCandle: Option<real>
    var cooldownUntil: real

    function Now(): State reads this { State(snapshot, lastEntryCandle, cooldownUntil) }

    constructor (config: Config)
      ensures c == config && Now() == State(None, None, 0.0)
    {
      c, snapshot, lastEntryCandle, cooldownUntil := config, None, None, 0.0;
    }

    method CloseEverything(executors: seq<Executor>, now: real) returns (d: Decision)
      modifies this
      ensures (Now(), d) == CloseAll(old(Now()), executors, now, c)
    {
      cooldownUntil := Max(cooldownUntil, now + c.cooldown);
      var actions, owns := [], false;
      for i := 0 to |executors|
        invariant actions == ActiveStops(executors[..i])
        invariant owns == Owns(executors[..i])
      {
        assert executors[..i + 1][..i] == executors[..i];
        if !executors[i].Done() {
          owns := true;
        }
        if executors[i].Active() {
          actions := actions + [Stop(executors[i].id)];
        }
      }
      assert executors[..|executors|] == executors;
      d := Decision(actions, !owns);
    }

    method StopActionsProposal(executors: seq<Executor>, now: real) returns (stops: seq<Action>)
      ensures stops == RoutineStops(executors, CurrentSignal(Now()), now, c)
    {
      var signal := CurrentSignal(Now());
      stops := [];
      for i := 0 to |executors|
        invariant stops == RoutineStops(executors[..i], signal, now, c)
      {
        assert executors[..i + 1][..i] == executors[..i];
        if !executors[i].Active() || executors[i].Exposed() {
          continue;
        }
        var side := if executors[i].isBuy then 1 else -1;
        if signal != side || now - executors[i].timestamp >= c.refreshTime {
          stops := stops + [Stop(executors[i].id)];
        }
      }
      assert executors[..|executors|] == executors;
    }

    method CanEnterNow(executors: seq<Executor>, env: Env) returns (ok: bool)
      requires snapshot.Some?
      modifies this
      ensures (Now(), ok) == CanEnter(old(Now()), executors, env, c)
    {
      ghost var start := Now();
      for i := 0 to |executors|
        invariant snapshot == start.snapshot
        invariant Scan(start, executors, env.now, c) == Scan(Now(), executors[i..], env.now, c)
      {
        var e := executors[i];
        assert executors[i..][0] == e && executors[i..][1..] == executors[i + 1..];
        if !e.Done() {
          return false;
        }
        if e.closeTimestamp.Some? {
          if e.ClosedFilled() {
            cooldownUntil := Max(cooldownUntil, e.closeTimestamp.value + CooldownOf(e, c));
          } else if lastEntryCandle == Some(snapshot.value.timestamp) && env.now >= e.closeTimestamp.value + 5.0 {
            lastEntryCandle := None;
          }
        }
      }
      if env.held { return false; }
      if !env.leverageReady { return false; }
      if env.exchangePosition { return false; }
      if env.now < cooldownUntil { return false; }
      if lastEntryCandle == Some(snapshot.value.timestamp) { return false; }
      return true;
    }

    method CreateActionsProposal(executors: seq<Executor>, env: Env) returns (actions: seq<Action>)
      requires c.Valid() && (snapshot.Some? ==> snapshot.value.std > 0.0)
      modifies this
      ensures (Now(), Decision(actions, false)) == Propose(old(Now()), executors, env, c)
    {
      if c.killSwitch || snapshot.None? || snapshot.value.signal == 0 {
        return [];
      }
      var ok := CanEnterNow(executors, env);
      if !ok {
        return [];
      }
      ScanKeepsSnapshot(old(Now()), executors, env.now, c);
      var order := EntryOrder(snapshot.value, env.market, c.settings, c.budget);
      if order.Err? {
        return [];
      }
      lastEntryCandle := Some(snapshot.value.timestamp);
      return [Create(order.value)];
    }

    method ControlTask(executors: seq<Executor>, env: Env) returns (d: Decision)
      requires c.Valid() && env.Valid()
      modifies this
      ensures (Now(), d) == Tick(old(Now()), executors, env, c)
    {
      if env.closeRequested || FixedTargetHit(executors, env, c) {
        d := CloseEverything(executors, env.now);
        return;
      }
      if !env.updateEvent {
        return Decision([], false);
      }
      snapshot := env.snapshot;
      var actions := StopActionsProposal(executors, env.now);
      if actions == [] {
        actions := CreateActionsProposal(executors, env);
      }
      return Decision(actions, false);
    }
  }

  // ------------------------------------------------------------------ one tick

  lemma {:induction false} ScanKeepsSnapshot(st: State, executors: seq<Executor>, now: real, c: Config)
    ensures Scan(st, executors, now, c).0.snapshot == st.snapshot
    decreases |executors|
  {
    if executors != [] && executors[0].Done() {
      ScanKeepsSnapshot(Absorb(st, executors[0], now, c), executors[1..], now, c);
    }
  }

  /** A scan that reaches the end saw only finished executors and absorbed every one's cooldown. */
  lemma {:induction false} ScanAbsorbs(st: State, executors: seq<Executor>, now: real, c: Config)
    ensures var (st', ok) := Scan(st, executors, now, c);
            && st'.cooldownUntil >= st.cooldownUntil
            && (ok ==> forall e | e in executors ::
                  e.Done() && (e.ClosedFilled() ==> st'.cooldownUntil >= e.closeTimestamp.value + CooldownOf(e, c)))
    decreases |executors|
  {
    if executors != [] && executors[0].Done() {
      ScanAbsorbs(Absorb(st, executors[0], now, c), executors[1..], now, c);
      assert executors == [executors[0]] + executors[1..];
    }
  }

  /** The candle lock is lifted only by an unfilled executor that closed at least five seconds ago. */
  lemma {:induction false} ScanLock(st: State, executors: seq<Executor>, now: real, c: Config)
    ensures var lock := Scan(st, executors, now, c).0.lastEntryCandle;
            || lock == st.lastEntryCandle
            || (lock == None && st.snapshot.Some? && st.lastEntryCandle == Some(st.snapshot.value.timestamp)
                && exists e | e in executors ::
                     e.closeTimestamp.Some? && !e.ClosedFilled() && now >= e.closeTimestamp.value + 5.0)
    decreases |executors|
  {
    if executors != [] && executors[0].Done() {
      ScanLock(Absorb(st, executors[0], now, c), executors[1..], now, c);
      assert executors == [executors[0]] + executors[1..];
    }
  }

  lemma {:induction false} ActiveStopsAreStops(executors: seq<Executor>)
    ensures forall a | a in ActiveStops(executors) ::
              a.Stop? && exists e | e in executors :: e.Active() && e.id == a.id
  {
    if executors != [] {
      ActiveStopsAreStops(executors[..|executors| - 1]);
    }
  }

  lemma {:induction false} RoutineStopsAreStale(executors: seq<Executor>, signal: int, now: real, c: Config)
    ensures forall a | a in RoutineStops(executors, signal, now, c) ::
              a.Stop? && exists e | e in executors :: StaleOrder(e, signal, now, c) && e.id == a.id
  {
    if executors != [] {
      RoutineStopsAreStale(executors[..|executors| - 1], signal, now, c);
    }
  }

  /** An entry is alone in its decision, comes when every listed executor is finished and no
      position is held, and waits out every filled executor's own cooldown. */
  lemma EntryConditions(st: State, executors: seq<Executor>, env: Env, c: Config, a: Action)
    requires c.Valid() && env.Valid()
    requires a in Tick(st, executors, env, c).1.actions && a.Create?
    ensures Tick(st, executors, env, c).1 == Decision([a], false)
    ensures !env.held && !env.exchangePosition && env.leverageReady && !c.killSwitch && !env.closeRequested
    ensures forall e | e in executors :: e.Done()
    ensures forall e | e in executors && e.ClosedFilled() && e.closeType == Some(StopLoss) ::
              env.now >= e.closeTimestamp.value + c.stopLossCooldown
    ensures forall e | e in executors && e.ClosedFilled() && e.closeType != Some(StopLoss) ::
              env.now >= e.closeTimestamp.value + c.cooldown
    ensures env.now >= st.cooldownUntil
    ensures env.snapshot.Some?
         && EntryOrder(env.snapshot.value, env.market, c.settings, c.budget) == Ok(a.entry)
  {
    hide EntryOrder;
    ActiveStopsAreStops(executors);
    var seen := st.(snapshot := env.snapshot);
    RoutineStopsAreStale(executors, CurrentSignal(seen), env.now, c);
    ScanKeepsSnapshot(seen, executors, env.now, c);
    ScanAbsorbs(seen, executors, env.now, c);
  }

  /** One entry per candle: a second try on the same candle needs an unfilled order that closed. */
  lemma OneEntryPerCandle(st: State, executors: seq<Executor>, env: Env, c: Config, a: Action)
    requires c.Valid() && env.Valid()
    requires a in Tick(st, executors, env, c).1.actions && a.Create?
    ensures env.snapshot.Some?
         && (st.lastEntryCandle == Some(env.snapshot.value.timestamp) ==>
               exists e | e in executors ::
                 e.closeTimestamp.Some? && !e.ClosedFilled() && env.now >= e.closeTimestamp.value + 5.0)
    ensures Tick(st, executors, env, c).0.lastEntryCandle == Some(env.snapshot.value.timestamp)
  {
    hide EntryOrder;
    ActiveStopsAreStops(executors);
    var seen := st.(snapshot := env.snapshot);
    RoutineStopsAreStale(executors, CurrentSignal(seen), env.now, c);
    ScanKeepsSnapshot(seen, executors, env.now, c);
    ScanLock(seen, executors, env.now, c);
  }

  /** Stops and entries never mix; routine stops spare filled executors; the market order that
      flattens the account is sent only when no executor is still live. */
  lemma TickDecision(st: State, executors: seq<Executor>, env: Env, c: Config)
    requires c.Valid() && env.Valid()
    ensures var d := Tick(st, executors, env, c).1;
            && ((forall a | a in d.actions :: a.Stop?) || (|d.actions| == 1 && d.actions[0].Create?))
            && (d.marketClose ==> forall e | e in executors :: e.Done())
            && (!env.closeRequested && !FixedTargetHit(executors, env, c) ==>
                  forall a | a in d.actions && a.Stop? ::
                    exists e | e in executors :: e.id == a.id && e.Active() && !e.Exposed())
  {
    hide EntryOrder, FixedTargetHit;
    ActiveStopsAreStops(executors);
    var seen := st.(snapshot := env.snapshot);
    RoutineStopsAreStale(executors, CurrentSignal(seen), env.now, c);
    if !env.closeRequested && !FixedTargetHit(executors, env, c) && env.updateEvent {
      forall a | a in RoutineStops(executors, CurrentSignal(seen), env.now, c)
        ensures exists e | e in executors :: e.id == a.id && e.Active() && !e.Exposed()
      {
        var e :| e in executors && StaleOrder(e, CurrentSignal(seen), env.now, c) && e.id == a.id;
      }
    }
  }

  lemma CooldownOnlyGrows(st: State, executors: seq<Executor>, env: Env, c: Config)
    requires c.Valid() && env.Valid()
    ensures Tick(st, executors, env, c).0.cooldownUntil >= st.cooldownUntil
  {
    hide EntryOrder, FixedTargetHit;
    ScanAbsorbs(st.(snapshot := env.snapshot), executors, env.now, c);
  }

  // ------------------------------------------------------------------ every run

  datatype World = World(state: State, executors: seq<Executor>)

  predicate AtMostOneLive(executors: seq<Executor>) {
    forall i, j | 0 <= i < |executors| && 0 <= j < |executors| && !executors[i].Done() && !executors[j].Done() :: i == j
  }

  /** A created executor is listed from the next tick on, not started yet. */
  function Listed(executors: seq<Executor>, actions: seq<Action>, id: nat, now: real): seq<Executor> {
    if |actions| == 1 && actions[0].Create? then
      executors + [Executor(id, actions[0].entry.isBuy, NotStarted, now, 0.0, false, None, None)]
    else executors
  }

  predicate TickStep(w: World, w': World, env: Env, id: nat, c: Config)
    requires c.Valid() && env.Valid()
  {
    var (st', d) := Tick(w.state, w.executors, env, c);
    w' == World(st', Listed(w.executors, d.actions, id, env.now))
  }

  /** Between ticks the framework and the exchange move executors freely: any of them may drop off
      the list, the others keep their order, and a finished one never comes back to life. */
  ghost predicate EnvironmentStep(w: World, w': World) {
    && w'.state == w.state
    && exists origin: seq<nat> ::
         && |origin| == |w'.executors|
         && (forall i | 0 <= i < |origin| :: origin[i] < |w.executors|)
         && (forall i, j | 0 <= i < j < |origin| :: origin[i] < origin[j])
         && (forall i | 0 <= i < |origin| :: w.executors[origin[i]].Done() ==> w'.executors[i] == w.executors[origin[i]])
  }

  ghost predicate Step(w: World, w': World, c: Config)
    requires c.Valid()
  {
    || EnvironmentStep(w, w')
    || exists env: Env, id :: env.Valid() && TickStep(w, w', env, id, c)
  }

  ghost predicate Run(ws: seq<World>, c: Config)
    requires c.Valid()
  {
    && ws != [] && AtMostOneLive(ws[0].executors)
    && forall i | 0 <= i < |ws| - 1 :: Step(ws[i], ws[i + 1], c)
  }

  lemma TickKeepsSingle(w: World, w': World, env: Env, id: nat, c: Config)
    requires c.Valid() && env.Valid() && TickStep(w, w', env, id, c) && AtMostOneLive(w.executors)
    ensures AtMostOneLive(w'.executors) && w'.state.cooldownUntil >= w.state.cooldownUntil
  {
    hide Tick, EntryOrder;
    CooldownOnlyGrows(w.state, w.executors, env, c);
    var d := Tick(w.state, w.executors, env, c).1;
    if |d.actions| == 1 && d.actions[0].Create? {
      EntryConditions(w.state, w.executors, env, c, d.actions[0]);
    }
  }

  lemma EnvironmentKeepsSingle(w: World, w': World)
    requires EnvironmentStep(w, w') && AtMostOneLive(w.executors)
    ensures AtMostOneLive(w'.executors)
  {
    var origin: seq<nat> :|
      && |origin| == |w'.executors|
      && (forall i | 0 <= i < |origin| :: origin[i] < |w.executors|)
      && (forall i, j | 0 <= i < j < |origin| :: origin[i] < origin[j])
      && (forall i | 0 <= i < |origin| :: w.executors[origin[i]].Done() ==> w'.executors[i] == w.executors[origin[i]]);
    forall i, j | 0 <= i < |origin| && 0 <= j < |origin| && !w'.executors[i].Done() && !w'.executors[j].Done()
      ensures i == j
    {
      assert origin[i] == origin[j];
    }
  }

  lemma StepKeepsSingle(w: World, w': World, c: Config)
    requires c.Valid() && Step(w, w', c) && AtMostOneLive(w.executors)
    ensures AtMostOneLive(w'.executors) && w'.state.cooldownUntil >= w.state.cooldownUntil
  {
    if EnvironmentStep(w, w') {
      EnvironmentKeepsSingle(w, w');
    } else {
      var env: Env, id :| env.Valid() && TickStep(w, w', env, id, c);
      TickKeepsSingle(w, w', env, id, c);
    }
  }

  /** Over every run there is at most one live executor, and the cooldown never moves back. */
  lemma {:induction false} SingleExposure(ws: seq<World>, c: Config, i: nat, j: nat)
    requires c.Valid() && Run(ws, c) && i <= j < |ws|
    ensures AtMostOneLive(ws[j].executors)
    ensures ws[i].state.cooldownUntil <= ws[j].state.cooldownUntil
    decreases j
  {
    if j > 0 {
      SingleExposure(ws, c, if i < j then i else j - 1, j - 1);
      StepKeepsSingle(ws[j - 1], ws[j], c);
    }
  }
}
