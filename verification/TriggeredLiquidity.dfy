/** The XRPL liquidity strategy as interleaved coroutines: three boolean flags used as locks
    across awaits, and what they guarantee in every interleaving. */
module TriggeredLiquidity {
  import opened Results

  datatype Config = Config(triggerAbove: bool, target: real, widthPct: real, totalQuote: real,
                           outOfRangePct: real, outOfRangeSecs: real, refreshSecs: real)

  /** Where a coroutine stands: scheduled but not started, or waiting for one gateway answer. */
  datatype Pc =
    | CheckScheduled | PoolAwaited | QuoteAwaited | AddAwaited
    | BalanceScheduled | BalanceAwaited
    | MonitorScheduled | MonitorAwaited
    | CloseScheduled | RemoveAwaited
    | Finished

  /** What an awaited gateway call comes back with; `Fails` is an exception. */
  datatype Reply = Fails | PoolInfo(price: real) | Quoted | Moved(base: real, quote: real)

  datatype State = State(opening: bool, isOpen: bool, closing: bool,
                         lower: Option<real>, upper: Option<real>, outSince: Option<real>, pool: Option<real>,
                         connectorReady: bool, lastRefresh: real, tasks: seq<Pc>)

  predicate TriggerMet(price: real, c: Config) { if c.triggerAbove then price > c.target else price < c.target }

  function RangeLow(price: real, c: Config): real { price * (1.0 - c.widthPct / 100.0) }
  function RangeHigh(price: real, c: Config): real { price * (1.0 + c.widthPct / 100.0) }

  function LowerBuffered(lower: real, c: Config): real { lower * (1.0 - c.outOfRangePct / 100.0) }
  function UpperBuffered(upper: real, c: Config): real { upper * (1.0 + c.outOfRangePct / 100.0) }

  function At(s: State, k: nat, pc: Pc): State
    requires k < |s.tasks|
  {
    s.(tasks := s.tasks[k := pc])
  }

  // ------------------------------------------------------------------ the coroutines, segment by segment

  /** The balance check that follows every attempt to open. */
  function CheckBalance(s: State, k: nat): State
    requires k < |s.tasks|
  {
    At(s, k, if s.pool.None? || !s.connectorReady then Finished else BalanceAwaited)
  }

  /** `open_position` up to its first await. */
  function OpenPosition(s: State, k: nat, c: Config): State
    requires k < |s.tasks|
  {
    if s.opening || s.isOpen then CheckBalance(s, k)
    else if s.pool.None? || !s.connectorReady then CheckBalance(s.(opening := false), k)
    else if s.pool.value == 0.0 then CheckBalance(s.(opening := false), k)
    else
      var ranged := s.(lower := Some(RangeLow(s.pool.value, c)),
                       upper := Some(RangeHigh(s.pool.value, c)));
      if c.totalQuote > 0.0 then At(ranged.(opening := true), k, QuoteAwaited)
      else CheckBalance(ranged.(opening := false), k)
  }

  function StartCheck(s: State, k: nat): State
    requires k < |s.tasks|
  {
    if s.opening || s.isOpen then At(s, k, Finished) else At(s.(opening := true), k, PoolAwaited)
  }

  function PoolSeen(s: State, k: nat, reply: Reply, c: Config): State
    requires k < |s.tasks|
  {
    if !reply.PoolInfo? then At(s.(opening := false), k, Finished)
    else
      var seen := s.(pool := Some(reply.price), opening := false);
      if TriggerMet(reply.price, c) then OpenPosition(seen, k, c) else At(seen, k, Finished)
  }

  /** The `finally` of `open_position`. */
  function ReleaseUnlessOpen(s: State): State { if s.isOpen then s else s.(opening := false) }

  function QuoteSeen(s: State, k: nat, reply: Reply): State
    requires k < |s.tasks|
  {
    if reply.Quoted? then At(s, k, AddAwaited) else CheckBalance(ReleaseUnlessOpen(s), k)
  }

  predicate MovedSomething(reply: Reply) { reply.Moved? && !(reply.base == 0.0 && reply.quote == 0.0) }

  function AddSeen(s: State, k: nat, reply: Reply): State
    requires k < |s.tasks|
  {
    if MovedSomething(reply) then CheckBalance(s.(isOpen := true, opening := false), k)
    else if reply.Moved? then CheckBalance(s.(opening := false), k)
    else CheckBalance(ReleaseUnlessOpen(s), k)
  }

  /** `close_position` up to its await. */
  function ClosePosition(s: State, k: nat): State
    requires k < |s.tasks|
  {
    if s.closing then At(s, k, Finished)
    else if !s.connectorReady || s.pool.None? then At(s.(closing := false), k, Finished)
    else At(s.(closing := true), k, RemoveAwaited)
  }

  function RemoveSeen(s: State, k: nat, reply: Reply): State
    requires k < |s.tasks|
  {
    At(if MovedSomething(reply) then s.(closing := false, isOpen := false) else s.(closing := false), k, Finished)
  }

  function StartMonitor(s: State, k: nat): State
    requires k < |s.tasks|
  {
    At(s, k, if s.closing || s.lower.None? || s.upper.None? then Finished else MonitorAwaited)
  }

  /** Out of range long enough closes; the percentage that is logged divides by the bound that was crossed. */
  function MonitorSeen(s: State, k: nat, reply: Reply, now: real, c: Config): State
    requires k < |s.tasks|
  {
    if !reply.PoolInfo? then At(s, k, Finished)
    else
      var seen := s.(pool := Some(reply.price));
      if reply.price == 0.0 || s.lower.None? || s.upper.None? then At(seen, k, Finished)
      else
        var below := reply.price < LowerBuffered(s.lower.value, c);
        var above := !below && reply.price > UpperBuffered(s.upper.value, c);
        if (below && s.lower.value == 0.0) || (above && s.upper.value == 0.0) then At(seen, k, Finished)
        else if below || above then
          var since := if s.outSince.Some? then s.outSince.value else now;
          var timed := seen.(outSince := Some(since));
          if now - since >= c.outOfRangeSecs then ClosePosition(timed, k) else At(timed, k, Finished)
        else At(seen.(outSince := None), k, Finished)
  }

  /** One coroutine runs until its next await. */
  function RunTask(s: State, k: nat, reply: Reply, now: real, c: Config): State
    requires k < |s.tasks|
  {
    match s.tasks[k]
    case CheckScheduled => StartCheck(s, k)
    case PoolAwaited => PoolSeen(s, k, reply, c)
    case QuoteAwaited => QuoteSeen(s, k, reply)
    case AddAwaited => AddSeen(s, k, reply)
    case BalanceScheduled => CheckBalance(s, k)
    case BalanceAwaited => At(s, k, Finished)
    case MonitorScheduled => StartMonitor(s, k)
    case MonitorAwaited => MonitorSeen(s, k, reply, now, c)
    case CloseScheduled => ClosePosition(s, k)
    case RemoveAwaited => RemoveSeen(s, k, reply)
    case Finished => s
  }

  function Tick(s: State, now: real, up: bool, c: Config): State {
    if now - s.lastRefresh < c.refreshSecs then s
    else
      var ticked := s.(lastRefresh := now);
      if !s.connectorReady then ticked.(connectorReady := up)
      else if !s.isOpen && !s.opening then ticked.(tasks := s.tasks + [CheckScheduled])
      else if s.isOpen && !s.closing then ticked.(tasks := s.tasks + [MonitorScheduled, BalanceScheduled])
      else ticked
  }

  function Stop(s: State): State { if s.isOpen then s.(tasks := s.tasks + [CloseScheduled]) else s }

  /** The strategy object; `tasks` is the event loop's view of its coroutines. */
  class XrplTriggeredLiquidity {
    const c: Config
    var opening: bool
    var isOpen: bool
    var closing: bool
    var lower: Option<real>
    var upper: Option<real>
    var outSince: Option<real>
    var pool: Option<real>
    var connectorReady: bool
    var lastRefresh: real
    var tasks: seq<Pc>

    function Now(): State
      reads this
    {
      State(opening, isOpen, closing, lower, upper, outSince, pool, connectorReady, lastRefresh, tasks)
    }

    constructor (c: Config, up: bool)
      ensures this.c == c && Now() == State(false, false, false, None, None, None, None, up, 0.0, [])
    {
      this.c := c;
      opening, isOpen, closing, lower, upper, outSince, pool := false, false, false, None, None, None, None;
      connectorReady, lastRefresh, tasks := up, 0.0, [];
    }

    method OnTick(now: real, up: bool)
      modifies this
      ensures Now() == Tick(old(Now()), now, up, c)
    {
      if now - lastRefresh < c.refreshSecs {
        return;
      }
      lastRefresh := now;
      if !connectorReady {
        connectorReady := up;
        return;
      }
      if !isOpen && !opening {
        tasks := tasks + [CheckScheduled];
      } else if isOpen && !closing {
        tasks := tasks + [MonitorScheduled, BalanceScheduled];
      }
    }

    method OnStop()
      modifies this
      ensures Now() == Stop(old(Now()))
    {
      if isOpen {
        tasks := tasks + [CloseScheduled];
      }
    }

    method BeginCheck(k: nat)
      requires k < |tasks|
      modifies this
      ensures Now() == StartCheck(old(Now()), k)
    {
      if opening || isOpen {
        tasks := tasks[k := Finished];
        return;
      }
      opening := true;
      tasks := tasks[k := PoolAwaited];
    }

    method AfterPool(k: nat, reply: Reply)
      requires k < |tasks|
      modifies this
      ensures Now() == PoolSeen(old(Now()), k, reply, c)
    {
      if !reply.PoolInfo? {
        opening := false;
        tasks := tasks[k := Finished];
        return;
      }
      pool := Some(reply.price);
      if TriggerMet(reply.price, c) {
        opening := false;
        BeginOpen(k);
      } else {
        opening := false;
        tasks := tasks[k := Finished];
      }
    }

    method BeginOpen(k: nat)
      requires k < |tasks|
      modifies this
      ensures Now() == OpenPosition(old(Now()), k, c)
    {
      hide RangeLow, RangeHigh, CheckBalance;
      if opening || isOpen {
        AwaitBalance(k);
        return;
      }
      if pool.None? || !connectorReady {
        opening := false;
        AwaitBalance(k);
        return;
      }
      opening := true;
      if pool.value == 0.0 {
        opening := false;
        AwaitBalance(k);
        return;
      }
      lower := Some(RangeLow(pool.value, c));
      upper := Some(RangeHigh(pool.value, c));
      if c.totalQuote > 0.0 {
        tasks := tasks[k := QuoteAwaited];
      } else {
        opening := false;
        AwaitBalance(k);
      }
    }

    method AfterQuote(k: nat, reply: Reply)
      requires k < |tasks|
      modifies this
      ensures Now() == QuoteSeen(old(Now()), k, reply)
    {
      if reply.Quoted? {
        tasks := tasks[k := AddAwaited];
        return;
      }
      if !isOpen {
        opening := false;
      }
      AwaitBalance(k);
    }

    method AfterAdd(k: nat, reply: Reply)
      requires k < |tasks|
      modifies this
      ensures Now() == AddSeen(old(Now()), k, reply)
    {
      if MovedSomething(reply) {
        isOpen := true;
        opening := false;
      } else if reply.Moved? {
        opening := false;
      }
      if !isOpen {
        opening := false;
      }
      AwaitBalance(k);
    }

    method AwaitBalance(k: nat)
      requires k < |tasks|
      modifies this`tasks
      ensures Now() == CheckBalance(old(Now()), k)
    {
      tasks := tasks[k := if pool.None? || !connectorReady then Finished else BalanceAwaited];
    }

    method BeginMonitor(k: nat)
      requires k < |tasks|
      modifies this`tasks
      ensures Now() == StartMonitor(old(Now()), k)
    {
      tasks := tasks[k := if closing || lower.None? || upper.None? then Finished else MonitorAwaited];
    }

    method AfterMonitor(k: nat, reply: Reply, now: real)
      requires k < |tasks|
      modifies this
      ensures Now() == MonitorSeen(old(Now()), k, reply, now, c)
    {
      hide LowerBuffered, UpperBuffered, ClosePosition;
      if reply.PoolInfo? {
        pool := Some(reply.price);
      }
      if !reply.PoolInfo? || reply.price == 0.0 || lower.None? || upper.None? {
        tasks := tasks[k := Finished];
        return;
      }
      var below := reply.price < LowerBuffered(lower.value, c);
      var above := !below && reply.price > UpperBuffered(upper.value, c);
      if (below && lower.value == 0.0) || (above && upper.value == 0.0) {
        tasks := tasks[k := Finished];
        return;
      }
      if below || above {
        if outSince.None? {
          outSince := Some(now);
        }
        if now - outSince.value >= c.outOfRangeSecs {
          BeginClose(k);
        } else {
          tasks := tasks[k := Finished];
        }
      } else {
        outSince := None;
        tasks := tasks[k := Finished];
      }
    }

    method BeginClose(k: nat)
      requires k < |tasks|
      modifies this
      ensures Now() == ClosePosition(old(Now()), k)
    {
      if closing {
        tasks := tasks[k := Finished];
        return;
      }
      if !connectorReady {
        closing := false;
        tasks := tasks[k := Finished];
        return;
      }
      closing := true;
      if pool.None? {
        closing := false;
        tasks := tasks[k := Finished];
        return;
      }
      tasks := tasks[k := RemoveAwaited];
    }

    method AfterRemove(k: nat, reply: Reply)
      requires k < |tasks|
      modifies this
      ensures Now() == RemoveSeen(old(Now()), k, reply)
    {
      var closed := MovedSomething(reply);
      if closed {
        closing := false;
        isOpen := false;
      } else {
        closing := false;
      }
      tasks := tasks[k := Finished];
    }

    /** The event loop resumes one coroutine. */
    method Continue(k: nat, reply: Reply, now: real)
      requires k < |tasks|
      modifies this
      ensures Now() == RunTask(old(Now()), k, reply, now, c)
    {
      match tasks[k]
      case CheckScheduled => BeginCheck(k);
      case PoolAwaited => AfterPool(k, reply);
      case QuoteAwaited => AfterQuote(k, reply);
      case AddAwaited => AfterAdd(k, reply);
      case BalanceScheduled => AwaitBalance(k);
      case BalanceAwaited => tasks := tasks[k := Finished];
      case MonitorScheduled => BeginMonitor(k);
      case MonitorAwaited => AfterMonitor(k, reply, now);
      case CloseScheduled => BeginClose(k);
      case RemoveAwaited => AfterRemove(k, reply);
      case Finished =>
    }
  }
}
