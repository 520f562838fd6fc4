/** The two-phase global take profit / stop loss of pmm_mister: stop everything, then close
    what the exchange still holds, giving up after three attempts. */
module GlobalClose {
  import opened Results
  import opened RealFacts
  import opened PmmMisterModel

  datatype Phase = Idle | Stopping | Closing

  datatype State = State(phase: Phase, side: Option<Side>, retries: nat, coolingDown: bool)

  /** What the close logic reads besides the executors. `exchange` is the signed live position. */
  datatype Env = Env(position: Position, exchange: real, quantize: real -> real)

  /** The live position: its size and side, or nothing. */
  function ExchangeSide(exchange: real): Option<Side> {
    if exchange == 0.0 then None else if exchange > 0.0 then Some(Buy) else Some(Sell)
  }

  /** The take profit is armed from this base percentage on. */
  function TakeProfitFrom(c: Config): real {
    match c.tpFrom
    case Always => 0.0
    case MinBase => c.minBase
    case _ => c.targetBase
  }

  /** The stop loss is armed from this base percentage on. */
  function StopLossFrom(c: Config): real { if c.slFrom == TargetBase then c.targetBase else c.maxBase }

  predicate Triggered(p: Position, c: Config) {
    || (c.tpEnabled && p.basePct >= TakeProfitFrom(c) && p.pnlPct >= c.globalTakeProfit)
    || (c.slEnabled && p.basePct >= StopLossFrom(c) && p.pnlPct <= -c.globalStopLoss)
  }

  function StopAll(es: seq<Executor>): seq<Action> {
    if es == [] then []
    else
      var last := es[|es| - 1];
      StopAll(es[..|es| - 1]) + if last.active && last.level != GlobalClose then [StopKeep(last.id)] else []
  }

  function Ended(st: State, coolingDown: bool): State { State(Idle, None, 0, coolingDown) }

  function InClosing(st: State, es: seq<Executor>, env: Env): (State, seq<Action>) {
    if AnyActiveClose(es) then (st, [])
    else if st.retries >= 3 then (Ended(st, st.coolingDown), [])
    else
      var live := ExchangeSide(env.exchange);
      if live.None? then (Ended(st, true), [])
      else if st.side.Some? && live != st.side then (Ended(st, st.coolingDown), [])
      else if env.quantize(Abs(env.exchange)) == 0.0 then (Ended(st, st.coolingDown), [])
      else (st.(retries := st.retries + 1), [CloseOrder(Opposite(live.value), Abs(env.exchange))])
  }

  function InIdle(st: State, es: seq<Executor>, env: Env, c: Config): (State, seq<Action>) {
    if env.position.amount == 0.0 then (st.(coolingDown := false), [])
    else if st.coolingDown && Abs(env.exchange) == 0.0 then (st, [])
    else if !Triggered(env.position, c) then (st.(coolingDown := false), [])
    else (State(Stopping, env.position.heldSide, 0, false), StopAll(es))
  }

  function Check(st: State, es: seq<Executor>, env: Env, c: Config): (State, seq<Action>) {
    match st.phase
    case Stopping =>
      if AnyActiveQuote(es) then (st, []) else InClosing(st.(phase := Closing), es, env)
    case Closing => InClosing(st, es, env)
    case Idle => InIdle(st, es, env, c)
  }

  /** The controller's close state, updated in place. */
  class Closer {
    var phase: Phase
    var side: Option<Side>
    var retries: nat
    var coolingDown: bool

    function Now(): State reads this { State(phase, side, retries, coolingDown) }

    constructor ()
      ensures Now() == State(Idle, None, 0, false)
    {
      phase, side, retries, coolingDown := Idle, None, 0, false;
    }

    method CheckGlobalTpSl(es: seq<Executor>, env: Env, c: Config) returns (actions: seq<Action>)
      modifies this
      ensures (Now(), actions) == Check(old(Now()), es, env, c)
    {
      if phase == Stopping {
        if AnyActiveQuote(es) {
          return [];
        }
        phase := Closing;
      }
      if phase == Closing {
        if AnyActiveClose(es) {
          return [];
        }
        if retries >= 3 {
          phase, side, retries := Idle, None, 0;
          return [];
        }
        var live := ExchangeSide(env.exchange);
        if live.None? {
          phase, side, retries, coolingDown := Idle, None, 0, true;
          return [];
        }
        if side.Some? && live != side {
          phase, side, retries := Idle, None, 0;
          return [];
        }
        if env.quantize(Abs(env.exchange)) == 0.0 {
          phase, side, retries := Idle, None, 0;
          return [];
        }
        retries := retries + 1;
        return [CloseOrder(Opposite(live.value), Abs(env.exchange))];
      }
      if env.position.amount == 0.0 {
        coolingDown := false;
        return [];
      }
      if coolingDown {
        if Abs(env.exchange) > 0.0 {
          coolingDown := false;
        } else {
          return [];
        }
      }
      if !Triggered(env.position, c) {
        return [];
      }
      phase, retries, side := Stopping, 0, env.position.heldSide;
      actions := [];
      for i := 0 to |es|
        invariant actions == StopAll(es[..i])
      {
        assert es[..i + 1][..i] == es[..i];
        if es[i].active && es[i].level != GlobalClose {
          actions := actions + [StopKeep(es[i].id)];
        }
      }
      assert es[..|es|] == es;
    }
  }

  // ------------------------------------------------------------------ one check

  /** What every reachable close state satisfies, together with the executors of that moment. */
  ghost predicate Consistent(st: State, es: seq<Executor>) {
    && st.retries <= 3
    && (st.phase == Idle ==> st.side == None && st.retries == 0)
    && (st.phase == Stopping ==> st.retries == 0)
    && (AnyActiveClose(es) ==> st.phase == Closing)
    && (st.phase == Closing ==> !AnyActiveQuote(es))
  }

  lemma {:induction false} StopAllStops(es: seq<Executor>)
    ensures forall a | a in StopAll(es) ::
              a.StopKeep? && exists e | e in es :: e.active && e.level != GlobalClose && e.id == a.id
    ensures forall e | e in es && e.active && e.level != GlobalClose :: StopKeep(e.id) in StopAll(es)
  {
    if es != [] {
      StopAllStops(es[..|es| - 1]);
      assert es == es[..|es| - 1] + [es[|es| - 1]];
    }
  }

  /** A close order goes out alone, against the live position, on the captured side when one was
      captured, while nothing at all is active, and it uses up one of three attempts. */
  lemma CloseOrderConditions(st: State, es: seq<Executor>, env: Env, c: Config, a: Action)
    requires Consistent(st, es) && a in Check(st, es, env, c).1 && a.CloseOrder?
    ensures Check(st, es, env, c).1 == [a]
    ensures !AnyActive(es) && st.phase != Idle && st.retries < 3
    ensures Check(st, es, env, c).0 == st.(phase := Closing, retries := st.retries + 1)
    ensures if a.side == Sell then env.exchange == a.amount > 0.0 else env.exchange == -a.amount < 0.0
    ensures st.side.Some? ==> a.side != st.side.value
  {
    StopAllStops(es);
  }

  /** The live position lies on the other side than the one captured when the close was triggered. */
  predicate Flipped(st: State, exchange: real) {
    (st.side == Some(Buy) && exchange < 0.0) || (st.side == Some(Sell) && exchange > 0.0)
  }

  /** While a close is going on, a check waits for what it has to wait for; otherwise it sends a close order,
      unless the attempts are used up, the position is gone, flipped or too small, which ends the close. */
  lemma ClosingOutcome(st: State, es: seq<Executor>, env: Env, c: Config)
    requires st.phase != Idle
    ensures var (st', actions) := Check(st, es, env, c);
            var waits := (st.phase == Stopping && exists e | e in es :: e.active && e.level != GlobalClose)
                         || exists e | e in es :: e.active && e.level == GlobalClose;
            var size := if env.exchange < 0.0 then -env.exchange else env.exchange;
            var side := if env.exchange > 0.0 then Sell else Buy;
            var over := st.retries >= 3 || size == 0.0 || Flipped(st, env.exchange) || env.quantize(size) == 0.0;
            && (waits ==> actions == [] && st'.phase != Idle && st'.retries == st.retries && st'.side == st.side)
            && (!waits && over ==> actions == [] && st' == State(Idle, None, 0, st'.coolingDown))
            && (!waits && !over ==>
                  && actions == [CloseOrder(side, size)]
                  && st' == st.(phase := Closing, retries := st.retries + 1))
  {
    hide AnyActiveQuote, AnyActiveClose;
    ActiveParts(es);
    var size := if env.exchange < 0.0 then -env.exchange else env.exchange;
    assert size == Abs(env.exchange);
    if st.side.Some? {
      match st.side.value
      case Buy =>
      case Sell =>
    }
  }

  lemma ActiveParts(es: seq<Executor>)
    ensures AnyActiveQuote(es) <==> exists e | e in es :: e.active && e.level != GlobalClose
    ensures AnyActiveClose(es) <==> exists e | e in es :: e.active && e.level == GlobalClose
  {
  }

  /** The take profit: armed from the chosen base percentage on, met at the target. */
  predicate ProfitTaken(p: Position, c: Config) {
    && c.tpEnabled && p.pnlPct >= c.globalTakeProfit
    && (c.tpFrom == Always ==> p.basePct >= 0.0)
    && (c.tpFrom == MinBase ==> p.basePct >= c.minBase)
    && (c.tpFrom in {TargetBase, MaxBase} ==> p.basePct >= c.targetBase)
  }

  /** The stop loss: armed from the chosen base percentage on, met at the loss. */
  predicate LossStopped(p: Position, c: Config) {
    && c.slEnabled && p.pnlPct <= -c.globalStopLoss
    && (c.slFrom == TargetBase ==> p.basePct >= c.targetBase)
    && (c.slFrom != TargetBase ==> p.basePct >= c.maxBase)
  }

  /** From idle a check starts a close exactly with a position, past the post-close cooldown, and with the take
      profit or the stop loss armed and met; then exactly the active executors are told to stop. */
  lemma TriggerIff(st: State, es: seq<Executor>, env: Env, c: Config)
    requires Consistent(st, es) && st.phase == Idle
    ensures Check(st, es, env, c).0.phase != Idle <==>
              && env.position.amount != 0.0
              && (st.coolingDown ==> env.exchange != 0.0)
              && (ProfitTaken(env.position, c) || LossStopped(env.position, c))
    ensures Check(st, es, env, c).0.phase == Idle ==> Check(st, es, env, c).1 == []
    ensures Check(st, es, env, c).0.phase != Idle ==>
              && Check(st, es, env, c).0 == State(Stopping, env.position.heldSide, 0, false)
              && forall a :: a in Check(st, es, env, c).1 <==> exists e | e in es && e.active :: a == StopKeep(e.id)
  {
    StopAllStops(es);
  }

  /** Between the two levels nothing is ever started. */
  lemma QuietBand(st: State, es: seq<Executor>, env: Env, c: Config)
    requires st.phase == Idle && -c.globalStopLoss < env.position.pnlPct < c.globalTakeProfit
    ensures Check(st, es, env, c).0.phase == Idle && Check(st, es, env, c).1 == []
  {
  }

  /** A check raises the cooldown flag exactly when a close is going on, its stops are done, no close
      order is live, an attempt is left, and the exchange shows the position gone; that ends the episode. */
  lemma CooldownRaisedIff(st: State, es: seq<Executor>, env: Env, c: Config)
    requires !st.coolingDown
    ensures Check(st, es, env, c).0.coolingDown <==>
              && st.phase != Idle && (st.phase == Stopping ==> !AnyActiveQuote(es))
              && !AnyActiveClose(es) && st.retries < 3 && env.exchange == 0.0
    ensures Check(st, es, env, c).0.coolingDown ==> Check(st, es, env, c) == (State(Idle, None, 0, true), [])
  {
    hide AnyActiveQuote, AnyActiveClose;
    assert ExchangeSide(env.exchange).None? <==> env.exchange == 0.0;
  }

  // ------------------------------------------------------------------ the end of an episode

  /** Attempts left before an episode must be over; it drops at every check that finds nothing active. */
  function Budget(st: State): int {
    match st.phase
    case Idle => 0
    case Stopping => 4
    case Closing => 4 - st.retries
  }

  lemma QuietCheckMakesProgress(st: State, es: seq<Executor>, env: Env, c: Config)
    requires Consistent(st, es) && st.phase != Idle && !AnyActive(es)
    ensures Budget(Check(st, es, env, c).0) < Budget(st)
  {
  }

  lemma CheckNeverLosesProgress(st: State, es: seq<Executor>, env: Env, c: Config)
    requires Consistent(st, es) && st.phase != Idle
    ensures Budget(Check(st, es, env, c).0) <= Budget(st)
  {
  }
}
