/** The XRPL liquidity strategy in plain terms: exactly when it asks for liquidity to be added or removed, around which
    price, and what its timer counts. */
module LiquidityTerms {
  import opened Results
  import opened TriggeredLiquidity
  import opened LiquidityLocks

  // ------------------------------------------------------------------ the terms

  /** The price has crossed the target in the configured direction. */
  predicate Crossed(price: real, c: Config) {
    match c.triggerAbove
    case true => c.target < price
    case false => price < c.target
  }

  /** The range of a position opened at this price: the width in percent on either side. */
  predicate Around(lower: Option<real>, upper: Option<real>, price: real, c: Config) {
    && lower.Some? && 100.0 * lower.value == price * (100.0 - c.widthPct)
    && upper.Some? && 100.0 * upper.value == price * (100.0 + c.widthPct)
  }

  predicate BelowRange(price: real, lower: real, c: Config) { 100.0 * price < lower * (100.0 - c.outOfRangePct) }
  predicate AboveRange(price: real, upper: real, c: Config) { 100.0 * price > upper * (100.0 + c.outOfRangePct) }

  /** The price has left the range by more than the buffer; a bound of zero makes the report fail. */
  predicate Left(price: real, lower: real, upper: real, c: Config) {
    if BelowRange(price, lower, c) then lower != 0.0 else AboveRange(price, upper, c) && upper != 0.0
  }

  /** The report on the bound that was crossed divides by it. */
  predicate ReportFails(price: real, lower: real, upper: real, c: Config) {
    if BelowRange(price, lower, c) then lower == 0.0 else AboveRange(price, upper, c) && upper == 0.0
  }

  predicate TokensMoved(reply: Reply) { reply.Moved? && (reply.base != 0.0 || reply.quote != 0.0) }

  lemma Scaled(x: real, pct: real)
    ensures 100.0 * (x * (1.0 - pct / 100.0)) == x * (100.0 - pct)
    ensures 100.0 * (x * (1.0 + pct / 100.0)) == x * (100.0 + pct)
  {
    var q := pct / 100.0;
    assert q * 100.0 == pct;
    assert 100.0 * (x * (1.0 - q)) == x * (100.0 - 100.0 * q);
    assert 100.0 * (x * (1.0 + q)) == x * (100.0 + 100.0 * q);
  }

  lemma TermsAre(price: real, lower: real, upper: real, c: Config)
    ensures TriggerMet(price, c) <==> Crossed(price, c)
    ensures Around(Some(RangeLow(price, c)), Some(RangeHigh(price, c)), price, c)
    ensures price < LowerBuffered(lower, c) <==> BelowRange(price, lower, c)
    ensures price > UpperBuffered(upper, c) <==> AboveRange(price, upper, c)
  {
    Scaled(price, c.widthPct);
    Scaled(lower, c.outOfRangePct);
    Scaled(upper, c.outOfRangePct);
  }

  /** What a close does to its own coroutine, and what it leaves alone. */
  lemma CloseOnly(s: State, k: nat)
    requires k < |s.tasks|
    ensures var s' := ClosePosition(s, k);
            var removes := !s.closing && s.connectorReady && s.pool.Some?;
      && |s'.tasks| == |s.tasks| && s'.tasks == s.tasks[k := if removes then RemoveAwaited else Finished]
      && (removes ==> s'.closing)
      && s'.isOpen == s.isOpen && s'.opening == s.opening && s'.lower == s.lower && s'.upper == s.upper
      && s'.outSince == s.outSince
  {
  }

  /** The monitor's answer from the state with the price noted: finished, or on to a close. */
  ghost predicate MonitorEnds(seen: State, k: nat, s': State)
    requires k < |seen.tasks|
  {
    || s' == At(seen, k, Finished)
    || exists since :: s' == At(seen.(outSince := since), k, Finished) || s' == ClosePosition(seen.(outSince := since), k)
  }

  lemma MonitorEnding(s: State, k: nat, reply: Reply, now: real, c: Config)
    requires k < |s.tasks|
    ensures MonitorEnds(if reply.PoolInfo? then s.(pool := Some(reply.price)) else s, k, MonitorSeen(s, k, reply, now, c))
  {
    hide LowerBuffered, UpperBuffered, ClosePosition, At;
  }

  /** What a monitor leaves alone. */
  lemma MonitorOnly(s: State, k: nat, reply: Reply, now: real, c: Config)
    requires k < |s.tasks|
    ensures var s' := MonitorSeen(s, k, reply, now, c);
      && |s'.tasks| == |s.tasks| && s'.tasks == s.tasks[k := s'.tasks[k]] && s'.tasks[k] in {Finished, RemoveAwaited}
      && s'.isOpen == s.isOpen && s'.opening == s.opening && s'.lower == s.lower && s'.upper == s.upper
  {
    hide MonitorSeen, ClosePosition;
    MonitorEnding(s, k, reply, now, c);
    var seen := if reply.PoolInfo? then s.(pool := Some(reply.price)) else s;
    forall since: Option<real> ensures SameButTask(seen, k, ClosePosition(seen.(outSince := since), k)) {
      CloseOnly(seen.(outSince := since), k);
    }
  }

  ghost predicate SameButTask(s: State, k: nat, s': State)
    requires k < |s.tasks|
  {
    && |s'.tasks| == |s.tasks| && s'.tasks == s.tasks[k := s'.tasks[k]] && s'.tasks[k] in {Finished, RemoveAwaited}
    && s'.isOpen == s.isOpen && s'.opening == s.opening && s'.lower == s.lower && s'.upper == s.upper
  }

  /** What an opening leaves alone. */
  lemma OpeningOnly(s: State, k: nat, c: Config)
    requires k < |s.tasks|
    ensures var s' := OpenPosition(s, k, c);
      && |s'.tasks| == |s.tasks| && s'.tasks == s.tasks[k := s'.tasks[k]]
      && s'.tasks[k] in {Finished, BalanceAwaited, QuoteAwaited}
      && s'.isOpen == s.isOpen && s'.closing == s.closing && s'.outSince == s.outSince
  {
    hide RangeLow, RangeHigh;
  }

  /** One coroutine moved, without a change of range, openness or timer. */
  ghost predicate OnlyMoved(s: State, k: nat, s': State)
    requires k < |s.tasks|
  {
    && |s'.tasks| == |s.tasks| && s'.tasks == s.tasks[k := s'.tasks[k]]
    && s'.isOpen == s.isOpen && s'.lower == s.lower && s'.upper == s.upper && s'.outSince == s.outSince
  }

  lemma CheckOnly(s: State, k: nat)
    requires k < |s.tasks|
    ensures OnlyMoved(s, k, StartCheck(s, k)) && StartCheck(s, k).tasks[k] in {Finished, PoolAwaited}
    ensures OnlyMoved(s, k, CheckBalance(s, k)) && CheckBalance(s, k).tasks[k] in {Finished, BalanceAwaited}
    ensures OnlyMoved(s, k, StartMonitor(s, k)) && StartMonitor(s, k).tasks[k] in {Finished, MonitorAwaited}
  {
  }

  lemma PoolOnly(s: State, k: nat, reply: Reply, c: Config)
    requires k < |s.tasks|
    ensures var s' := PoolSeen(s, k, reply, c);
      && |s'.tasks| == |s.tasks| && s'.tasks == s.tasks[k := s'.tasks[k]]
      && s'.tasks[k] in {Finished, BalanceAwaited, QuoteAwaited}
      && s'.isOpen == s.isOpen && s'.closing == s.closing && s'.outSince == s.outSince
    ensures !(reply.PoolInfo? && Crossed(reply.price, c)) ==>
              OnlyMoved(s, k, PoolSeen(s, k, reply, c)) && PoolSeen(s, k, reply, c).tasks[k] == Finished
  {
    hide OpenPosition, TriggerMet, Crossed;
    if reply.PoolInfo? {
      TermsAre(reply.price, 0.0, 0.0, c);
      OpeningOnly(s.(pool := Some(reply.price), opening := false), k, c);
    }
  }

  lemma QuoteOnly(s: State, k: nat, reply: Reply)
    requires k < |s.tasks|
    ensures OnlyMoved(s, k, QuoteSeen(s, k, reply))
    ensures if reply.Quoted? then QuoteSeen(s, k, reply).tasks[k] == AddAwaited
            else QuoteSeen(s, k, reply).tasks[k] in {Finished, BalanceAwaited}
  {
  }

  lemma AddOnly(s: State, k: nat, reply: Reply)
    requires k < |s.tasks|
    ensures var s' := AddSeen(s, k, reply);
            OnlyMoved(s.(isOpen := s.isOpen || TokensMoved(reply)), k, s') && s'.tasks[k] in {Finished, BalanceAwaited}
  {
  }

  lemma RemoveOnly(s: State, k: nat, reply: Reply)
    requires k < |s.tasks|
    ensures var s' := RemoveSeen(s, k, reply);
            OnlyMoved(s.(isOpen := s.isOpen && !TokensMoved(reply)), k, s') && s'.tasks[k] == Finished
  {
  }

  /** Everything one step can do to openness, range, timer and its coroutine, apart from the conditions. */
  ghost predicate Moves(s: State, k: nat, reply: Reply, c: Config, s': State)
    requires k < |s.tasks|
  {
    && |s'.tasks| == |s.tasks| && s'.tasks == s.tasks[k := s'.tasks[k]]
    && (s'.isOpen <==> if s.tasks[k] == AddAwaited && TokensMoved(reply) then true
                       else if s.tasks[k] == RemoveAwaited && TokensMoved(reply) then false else s.isOpen)
    && (s.tasks[k] != PoolAwaited || !reply.PoolInfo? || !Crossed(reply.price, c) ==>
          s'.lower == s.lower && s'.upper == s.upper && (s'.tasks[k] == QuoteAwaited ==> s.tasks[k] == QuoteAwaited))
    && (s.tasks[k] != MonitorAwaited ==> s'.outSince == s.outSince)
    && (s'.tasks[k] == AddAwaited <==> s.tasks[k] == QuoteAwaited && reply.Quoted?)
    && (s'.tasks[k] == RemoveAwaited ==> s.tasks[k] in {MonitorAwaited, CloseScheduled})
  }

  lemma PoolMoves(s: State, k: nat, reply: Reply, c: Config)
    requires k < |s.tasks| && s.tasks[k] == PoolAwaited
    ensures Moves(s, k, reply, c, PoolSeen(s, k, reply, c))
  {
    hide PoolSeen, TokensMoved, Crossed;
    PoolOnly(s, k, reply, c);
  }

  lemma QuoteMoves(s: State, k: nat, reply: Reply, c: Config)
    requires k < |s.tasks| && s.tasks[k] == QuoteAwaited
    ensures Moves(s, k, reply, c, QuoteSeen(s, k, reply))
  {
    hide QuoteSeen, TokensMoved, Crossed;
    QuoteOnly(s, k, reply);
  }

  lemma AddMoves(s: State, k: nat, reply: Reply, c: Config)
    requires k < |s.tasks| && s.tasks[k] == AddAwaited
    ensures Moves(s, k, reply, c, AddSeen(s, k, reply))
  {
    hide AddSeen, TokensMoved, Crossed;
    AddOnly(s, k, reply);
  }

  lemma RemoveMoves(s: State, k: nat, reply: Reply, c: Config)
    requires k < |s.tasks| && s.tasks[k] == RemoveAwaited
    ensures Moves(s, k, reply, c, RemoveSeen(s, k, reply))
  {
    hide RemoveSeen, TokensMoved, Crossed;
    RemoveOnly(s, k, reply);
  }

  lemma MonitorMoves(s: State, k: nat, reply: Reply, now: real, c: Config)
    requires k < |s.tasks| && s.tasks[k] == MonitorAwaited
    ensures Moves(s, k, reply, c, MonitorSeen(s, k, reply, now, c))
  {
    hide MonitorSeen, TokensMoved, Crossed;
    MonitorOnly(s, k, reply, now, c);
  }

  lemma CloseMoves(s: State, k: nat, reply: Reply, c: Config)
    requires k < |s.tasks| && s.tasks[k] == CloseScheduled
    ensures Moves(s, k, reply, c, ClosePosition(s, k))
  {
    hide ClosePosition, TokensMoved, Crossed;
    CloseOnly(s, k);
  }

  lemma OtherMoves(s: State, k: nat, reply: Reply, c: Config)
    requires k < |s.tasks|
    ensures s.tasks[k] == CheckScheduled ==> Moves(s, k, reply, c, StartCheck(s, k))
    ensures s.tasks[k] == BalanceScheduled ==> Moves(s, k, reply, c, CheckBalance(s, k))
    ensures s.tasks[k] == MonitorScheduled ==> Moves(s, k, reply, c, StartMonitor(s, k))
    ensures s.tasks[k] == BalanceAwaited ==> Moves(s, k, reply, c, At(s, k, Finished))
    ensures s.tasks[k] == Finished ==> Moves(s, k, reply, c, s)
  {
    hide StartCheck, CheckBalance, StartMonitor, TokensMoved, Crossed;
    CheckOnly(s, k);
  }

  lemma StepOnly(s: State, k: nat, reply: Reply, now: real, c: Config)
    requires k < |s.tasks|
    ensures Moves(s, k, reply, c, RunTask(s, k, reply, now, c))
  {
    hide StartCheck, PoolSeen, QuoteSeen, AddSeen, CheckBalance, StartMonitor, MonitorSeen, ClosePosition, RemoveSeen,
         Moves, At;
    match s.tasks[k]
    case PoolAwaited => PoolMoves(s, k, reply, c);
    case QuoteAwaited => QuoteMoves(s, k, reply, c);
    case AddAwaited => AddMoves(s, k, reply, c);
    case MonitorAwaited => MonitorMoves(s, k, reply, now, c);
    case CloseScheduled => CloseMoves(s, k, reply, c);
    case RemoveAwaited => RemoveMoves(s, k, reply, c);
    case _ => OtherMoves(s, k, reply, c);
  }

  // ------------------------------------------------------------------ opening

  lemma PoolQuotes(s: State, k: nat, reply: Reply, c: Config)
    requires k < |s.tasks|
    ensures var s' := PoolSeen(s, k, reply, c);
      && |s'.tasks| == |s.tasks|
      && (s'.tasks[k] == QuoteAwaited <==>
            && reply.PoolInfo? && Crossed(reply.price, c)
            && !s.isOpen && s.connectorReady && reply.price != 0.0 && c.totalQuote > 0.0)
      && (s'.tasks[k] == QuoteAwaited ==> s'.opening && s'.pool == Some(reply.price)
                                          && Around(s'.lower, s'.upper, reply.price, c))
  {
    hide RangeLow, RangeHigh, TriggerMet, Around, Crossed;
    if reply.PoolInfo? {
      TermsAre(reply.price, 0.0, 0.0, c);
    }
  }

  /** A quote for adding liquidity is asked for exactly when the pool's price, just read, has crossed the target and
      nothing is open; the range is then the one around that price. */
  lemma QuoteIff(s: State, k: nat, reply: Reply, now: real, c: Config)
    requires k < |s.tasks| && s.tasks[k] != QuoteAwaited
    ensures var s' := RunTask(s, k, reply, now, c);
      && |s'.tasks| == |s.tasks|
      && (s'.tasks[k] == QuoteAwaited <==>
            && s.tasks[k] == PoolAwaited && reply.PoolInfo? && Crossed(reply.price, c)
            && !s.isOpen && s.connectorReady && reply.price != 0.0 && c.totalQuote > 0.0)
      && (s'.tasks[k] == QuoteAwaited ==> s'.opening && s'.pool == Some(reply.price)
                                          && Around(s'.lower, s'.upper, reply.price, c))
  {
    hide MonitorSeen, ClosePosition, PoolSeen, StartCheck, CheckBalance, StartMonitor, QuoteSeen, AddSeen, RemoveSeen,
         TokensMoved, Crossed, Around;
    StepOnly(s, k, reply, now, c);
    if s.tasks[k] == PoolAwaited {
      PoolQuotes(s, k, reply, c);
    }
  }

  /** Adding is asked for exactly after a quote arrived. */
  lemma AddIff(s: State, k: nat, reply: Reply, now: real, c: Config)
    requires k < |s.tasks|
    ensures var s' := RunTask(s, k, reply, now, c);
            |s'.tasks| == |s.tasks| && (s'.tasks[k] == AddAwaited <==> s.tasks[k] == QuoteAwaited && reply.Quoted?)
  {
    hide RunTask, TokensMoved, Crossed;
    StepOnly(s, k, reply, now, c);
  }

  /** A position becomes open exactly when an add moved tokens, and stops being open exactly when a removal did. */
  lemma OpenIff(s: State, k: nat, reply: Reply, now: real, c: Config)
    requires k < |s.tasks|
    ensures RunTask(s, k, reply, now, c).isOpen <==>
              if s.tasks[k] == AddAwaited && TokensMoved(reply) then true
              else if s.tasks[k] == RemoveAwaited && TokensMoved(reply) then false
              else s.isOpen
  {
    hide RunTask, TokensMoved, Crossed;
    StepOnly(s, k, reply, now, c);
  }

  // ------------------------------------------------------------------ closing

  /** How long the price has been out of range, counting from now when it just left. */
  function OutFor(s: State, now: real): real { if s.outSince.Some? then now - s.outSince.value else 0.0 }

  /** The monitor has read a price that is far enough out of range and has been so for long enough. */
  predicate OverstayedAt(s: State, reply: Reply, now: real, c: Config) {
    && reply.PoolInfo? && reply.price != 0.0 && s.lower.Some? && s.upper.Some?
    && Left(reply.price, s.lower.value, s.upper.value, c) && OutFor(s, now) >= c.outOfRangeSecs
  }

  /** Where a monitor ends up, by what it read. */
  lemma MonitorBranch(s: State, k: nat, reply: Reply, now: real, c: Config)
    requires k < |s.tasks|
    ensures MonitorSeen(s, k, reply, now, c)
         == if !reply.PoolInfo? then At(s, k, Finished)
            else
              var seen := s.(pool := Some(reply.price));
              if reply.price == 0.0 || s.lower.None? || s.upper.None? then At(seen, k, Finished)
              else if ReportFails(reply.price, s.lower.value, s.upper.value, c) then At(seen, k, Finished)
              else if !Left(reply.price, s.lower.value, s.upper.value, c) then At(seen.(outSince := None), k, Finished)
              else
                var timed := seen.(outSince := Some(if s.outSince.Some? then s.outSince.value else now));
                if OutFor(s, now) >= c.outOfRangeSecs then ClosePosition(timed, k) else At(timed, k, Finished)
  {
    hide LowerBuffered, UpperBuffered, ClosePosition, At, BelowRange, AboveRange;
    if reply.PoolInfo? && s.lower.Some? && s.upper.Some? {
      TermsAre(reply.price, s.lower.value, s.upper.value, c);
    }
  }

  lemma MonitorRemoves(s: State, k: nat, reply: Reply, now: real, c: Config)
    requires k < |s.tasks|
    ensures var s' := MonitorSeen(s, k, reply, now, c);
      && |s'.tasks| == |s.tasks|
      && (s'.tasks[k] == RemoveAwaited <==> !s.closing && s.connectorReady && OverstayedAt(s, reply, now, c))
      && (s'.tasks[k] == RemoveAwaited ==> s'.closing)
  {
    hide MonitorSeen, ClosePosition, Left, ReportFails, OutFor;
    MonitorBranch(s, k, reply, now, c);
    FailsOrLeft(s, reply, c);
    if reply.PoolInfo? {
      CloseOnly(s.(pool := Some(reply.price), outSince := Some(if s.outSince.Some? then s.outSince.value else now)), k);
    }
  }

  lemma FailsOrLeft(s: State, reply: Reply, c: Config)
    ensures reply.PoolInfo? && s.lower.Some? && s.upper.Some? && Left(reply.price, s.lower.value, s.upper.value, c) ==>
              !ReportFails(reply.price, s.lower.value, s.upper.value, c)
  {
  }

  lemma MonitorTimer(s: State, k: nat, reply: Reply, now: real, c: Config)
    requires k < |s.tasks|
    ensures MonitorSeen(s, k, reply, now, c).outSince
         == if !reply.PoolInfo? || reply.price == 0.0 || s.lower.None? || s.upper.None?
               || ReportFails(reply.price, s.lower.value, s.upper.value, c) then s.outSince
            else if !Left(reply.price, s.lower.value, s.upper.value, c) then None
            else if s.outSince.Some? then s.outSince else Some(now)
  {
    hide MonitorSeen, ClosePosition, Left, ReportFails, OutFor;
    MonitorBranch(s, k, reply, now, c);
    if reply.PoolInfo? {
      CloseOnly(s.(pool := Some(reply.price), outSince := Some(if s.outSince.Some? then s.outSince.value else now)), k);
    }
  }

  /** A removal is asked for exactly by a scheduled close or by a monitor that saw the price out of range for long
      enough, when none is going on, the connector is ready and the pool is known. */
  lemma RemoveIff(s: State, k: nat, reply: Reply, now: real, c: Config)
    requires k < |s.tasks| && s.tasks[k] != RemoveAwaited
    ensures var s' := RunTask(s, k, reply, now, c);
      && |s'.tasks| == |s.tasks|
      && (s'.tasks[k] == RemoveAwaited <==>
            && !s.closing && s.connectorReady
            && (|| (s.tasks[k] == CloseScheduled && s.pool.Some?)
                || (s.tasks[k] == MonitorAwaited && OverstayedAt(s, reply, now, c))))
      && (s'.tasks[k] == RemoveAwaited ==> s'.closing)
  {
    hide MonitorSeen, ClosePosition, PoolSeen, StartCheck, CheckBalance, StartMonitor, QuoteSeen, AddSeen, RemoveSeen,
         TokensMoved, Crossed, OverstayedAt;
    StepOnly(s, k, reply, now, c);
    if s.tasks[k] == MonitorAwaited {
      MonitorRemoves(s, k, reply, now, c);
    } else if s.tasks[k] == CloseScheduled {
      CloseOnly(s, k);
    }
  }

  /** The timer: a reading out of range starts it unless it runs, a reading in range stops it, anything else leaves
      it alone. */
  lemma TimerTerms(s: State, k: nat, reply: Reply, now: real, c: Config)
    requires k < |s.tasks|
    ensures RunTask(s, k, reply, now, c).outSince
         == if s.tasks[k] != MonitorAwaited || !reply.PoolInfo? || reply.price == 0.0 || s.lower.None? || s.upper.None?
               || ReportFails(reply.price, s.lower.value, s.upper.value, c) then s.outSince
            else if !Left(reply.price, s.lower.value, s.upper.value, c) then None
            else if s.outSince.Some? then s.outSince else Some(now)
  {
    hide MonitorSeen, ClosePosition, PoolSeen, StartCheck, CheckBalance, StartMonitor, QuoteSeen, AddSeen, RemoveSeen,
         TokensMoved, Crossed, Left, ReportFails;
    StepOnly(s, k, reply, now, c);
    if s.tasks[k] == MonitorAwaited {
      MonitorTimer(s, k, reply, now, c);
    }
  }

  // ------------------------------------------------------------------ what is scheduled

  /** A tick past the refresh time either waits for the connector, or schedules a check when nothing is open or being
      opened, or a monitor and a balance check when something is open and not being closed. */
  lemma TickTerms(s: State, now: real, up: bool, c: Config)
    ensures var s' := Tick(s, now, up, c);
      && s' == s.(tasks := s'.tasks, lastRefresh := s'.lastRefresh, connectorReady := s'.connectorReady)
      && (s'.lastRefresh == if now < s.lastRefresh + c.refreshSecs then s.lastRefresh else now)
      && (s'.connectorReady <==> s.connectorReady || (up && now >= s.lastRefresh + c.refreshSecs))
      && (s'.tasks == s.tasks
          + (if now < s.lastRefresh + c.refreshSecs || !s.connectorReady then []
             else if s.isOpen && !s.closing then [MonitorScheduled, BalanceScheduled]
             else if !s.isOpen && !s.opening then [CheckScheduled]
             else []))
  {
    assert s.tasks + [] == s.tasks;
  }

  /** Stopping schedules a close exactly when a position is open. */
  lemma StopSchedules(s: State)
    ensures Stop(s) == s.(tasks := Stop(s).tasks)
    ensures Stop(s).tasks == s.tasks + if s.isOpen then [CloseScheduled] else []
  {
    assert s.tasks + [] == s.tasks;
  }

  /** A monitor reads the pool unless a removal is going on or no range is known. */
  lemma MonitorIff(s: State, k: nat, reply: Reply, now: real, c: Config)
    requires k < |s.tasks| && s.tasks[k] == MonitorScheduled
    ensures RunTask(s, k, reply, now, c)
         == s.(tasks := s.tasks[k := if !s.closing && s.lower.Some? && s.upper.Some? then MonitorAwaited else Finished])
  {
  }

  /** The balance of a position is asked for only with a known pool and a connector. */
  lemma BalanceIff(s: State, k: nat, reply: Reply, now: real, c: Config)
    requires k < |s.tasks| && s.tasks[k] == BalanceScheduled
    ensures RunTask(s, k, reply, now, c)
         == s.(tasks := s.tasks[k := if s.pool.Some? && s.connectorReady then BalanceAwaited else Finished])
  {
  }

  // ------------------------------------------------------------------ every run

  /** Whatever is being added or open lies around a price that had crossed the target. */
  ghost predicate Targeted(s: State, c: Config) {
    && (s.lower.Some? ==> exists price :: Crossed(price, c) && Around(s.lower, s.upper, price, c))
    && (s.lower.None? ==> !s.isOpen && forall k | 0 <= k < |s.tasks| :: s.tasks[k] !in {QuoteAwaited, AddAwaited})
  }

  lemma OpeningTargeted(s: State, k: nat, c: Config)
    requires k < |s.tasks| && Targeted(s.(tasks := s.tasks[k := Finished]), c)
    requires s.pool.Some? && Crossed(s.pool.value, c)
    ensures Targeted(OpenPosition(s, k, c), c)
  {
    hide RangeLow, RangeHigh, Around, Crossed;
    TermsAre(s.pool.value, 0.0, 0.0, c);
    var finished, s' := s.(tasks := s.tasks[k := Finished]), OpenPosition(s, k, c);
    if s'.lower.None? {
      assert forall i | 0 <= i < |s.tasks| && i != k :: finished.tasks[i] == s.tasks[i];
    }
  }

  /** A step that keeps range and openness and starts no add keeps what is said of them. */
  lemma SameTargeted(s: State, k: nat, s': State, c: Config)
    requires Targeted(s, c) && k < |s.tasks| && |s'.tasks| == |s.tasks| && s'.tasks == s.tasks[k := s'.tasks[k]]
    requires s'.lower == s.lower && s'.upper == s.upper && (s'.isOpen ==> s.isOpen || s.tasks[k] == AddAwaited)
    requires s'.tasks[k] in {QuoteAwaited, AddAwaited} ==> s.tasks[k] in {QuoteAwaited, AddAwaited}
    ensures Targeted(s', c)
  {
    hide Around, Crossed;
  }

  /** Only an opening changes the range or starts an add. */
  lemma RangeStays(s: State, k: nat, reply: Reply, now: real, c: Config)
    requires k < |s.tasks| && !(s.tasks[k] == PoolAwaited && reply.PoolInfo? && Crossed(reply.price, c))
    ensures var s' := RunTask(s, k, reply, now, c);
      && |s'.tasks| == |s.tasks| && s'.tasks == s.tasks[k := s'.tasks[k]]
      && s'.lower == s.lower && s'.upper == s.upper && (s'.isOpen ==> s.isOpen || s.tasks[k] == AddAwaited)
      && (s'.tasks[k] in {QuoteAwaited, AddAwaited} ==> s.tasks[k] in {QuoteAwaited, AddAwaited})
  {
    hide RunTask, TokensMoved, Crossed;
    StepOnly(s, k, reply, now, c);
  }

  lemma RunTaskTargeted(s: State, k: nat, reply: Reply, now: real, c: Config)
    requires k < |s.tasks| && Targeted(s, c)
    ensures Targeted(RunTask(s, k, reply, now, c), c)
  {
    hide MonitorSeen, OpenPosition, TriggerMet, Targeted, Crossed;
    if s.tasks[k] == PoolAwaited && reply.PoolInfo? && Crossed(reply.price, c) {
      TermsAre(reply.price, 0.0, 0.0, c);
      var seen := s.(pool := Some(reply.price), opening := false);
      SameTargeted(s, k, seen.(tasks := seen.tasks[k := Finished]), c);
      OpeningTargeted(seen, k, c);
    } else {
      RangeStays(s, k, reply, now, c);
      SameTargeted(s, k, RunTask(s, k, reply, now, c), c);
    }
  }

  lemma StepTargeted(s: State, h: Happening, s': State, c: Config)
    requires Step(s, h, s', c) && Targeted(s, c)
    ensures Targeted(s', c)
  {
    hide RunTask, Around, Crossed;
    match h
    case Continued(k, reply, now) => RunTaskTargeted(s, k, reply, now, c);
    case _ =>
  }

  /** In every interleaving liquidity that is being added, or has been, lies around a price that had crossed the
      target in the configured direction. */
  lemma {:induction false} OpenedOnTarget(ss: seq<State>, hs: seq<Happening>, c: Config, i: nat)
    requires Run(ss, hs, c) && i < |ss|
    ensures Targeted(ss[i], c)
  {
    hide Step, Targeted;
    if i > 0 {
      OpenedOnTarget(ss, hs, c, i - 1);
      assert Step(ss[i - 1], hs[i - 1], ss[i], c);
      StepTargeted(ss[i - 1], hs[i - 1], ss[i], c);
    } else {
      FreshTargeted(ss[0], c);
    }
  }

  lemma FreshTargeted(s: State, c: Config)
    requires Fresh(s)
    ensures Targeted(s, c)
  {
  }
}
