/** What the tracker's events tell: when orders count as lost, that fill events add up to the
    executed amount, and how often completion is announced. */
module TrackerEvents {
  import opened Results
  import opened InFlightOrders
  import opened OrderTracker
  import opened TrackerLaws

  // ------------------------------------------------------------------ what one update appends

  /** The events an applied update adds, in order. */
  function AppliedEvents(s: State, id: string, u: Update): seq<Event>
    requires id in s.orders
  {
    var o, o' := s.orders[id], WithUpdate(s.orders[id], id, u);
    if !Changed(o, o') then []
    else CreationEvents(id, o.state, u.newState) + if o'.IsOpen() then [] else TerminalEvents(id, o')
  }

  lemma AppliedParts(s: State, id: string, u: Update)
    requires id in s.orders
    ensures var s' := Apply(s, id, u);
      && s'.log == s.log + AppliedEvents(s, id, u)
      && s'.orders == s.orders[id := WithUpdate(s.orders[id], id, u)]
      && s'.lost == s.lost && s'.pending == s.pending
      && (s'.records == s.records || s'.records == s.records - {id})
  {
    hide WithUpdate, Order.IsOpen, CreationEvents, TerminalEvents;
    UnchangedIsSame(s.orders[id], id, u);
    var o' := WithUpdate(s.orders[id], id, u);
    if !Changed(s.orders[id], o') {
      assert s.orders[id := s.orders[id]] == s.orders;
    } else if !o'.IsOpen() {
      var events := CreationEvents(id, s.orders[id].state, u.newState);
      assert s.log + events + TerminalEvents(id, o') == s.log + (events + TerminalEvents(id, o'));
    } else {
      var events := CreationEvents(id, s.orders[id].state, u.newState);
      assert events + [] == events;
    }
  }

  // ------------------------------------------------------------------ lost orders

  function ReportCount(calls: seq<Call>, id: string): nat {
    if calls == [] then 0
    else ReportCount(calls[..|calls| - 1], id) + if calls[|calls| - 1] == NotFoundCall(id) then 1 else 0
  }

  ghost predicate RestoredAsLost(calls: seq<Call>, id: string) {
    exists c | c in calls :: c.RestoreCall? && c.id == id && c.order.state == Failed
  }

  /** How one call may move an order's counter and its place on the lost list. */
  ghost predicate LosesOnlyByReports(s: State, call: Call, s': State, limit: int, id: string) {
    && Reports(s', id) <= Reports(s, id) + (if call == NotFoundCall(id) then 1 else 0)
    && (id in s'.lost && id !in s.lost ==>
          || (call == NotFoundCall(id) && Reports(s, id) + 1 > limit)
          || (call.RestoreCall? && call.id == id && call.order.state == Failed))
  }

  lemma ProcessLosesNothing(s: State, u: Update, id: string)
    requires Known(s)
    ensures var s' := Process(s, u); Reports(s', id) <= Reports(s, id) && (id in s'.lost ==> id in s.lost)
  {
    hide Apply, Fetch, Order.IsDone;
    var found := Fetch(s.active + s.cached, s.orders, u);
    if found.Some? {
      FetchedIsKnown(s, u);
      AppliedParts(s, found.value, u);
    }
  }

  lemma FetchedIsKnown(s: State, u: Update)
    requires Known(s)
    ensures AllIn(s.active + s.cached, s.orders)
    ensures var found := Fetch(s.active + s.cached, s.orders, u); found.Some? ==> found.value in s.orders
  {
  }

  lemma LostStep(s: State, call: Call, s': State, limit: int, id: string)
    requires Known(s) && Step(s, call, s', limit)
    ensures LosesOnlyByReports(s, call, s', limit, id)
  {
    hide Process, Apply;
    match call
    case UpdateCall(u) => ProcessLosesNothing(s, u, id);
    case ResumeCall(k) =>
      AppliedParts(s.(pending := s.pending[..k] + s.pending[k + 1..]), s.pending[k].id, s.pending[k].update);
    case NotFoundCall(x) =>
      var counted := s.(records := s.records[x := Reports(s, x) + 1]);
      ProcessLosesNothing(if x in s.active then counted else s, FailedUpdate(x), id);
    case _ =>
  }

  lemma CountSnoc(calls: seq<Call>, k: nat, id: string)
    requires k < |calls|
    ensures ReportCount(calls[..k + 1], id)
         == ReportCount(calls[..k], id) + if calls[k] == NotFoundCall(id) then 1 else 0
    ensures RestoredAsLost(calls[..k], id) ==> RestoredAsLost(calls[..k + 1], id)
  {
    assert calls[..k + 1][..k] == calls[..k];
    assert forall c | c in calls[..k] :: c in calls[..k + 1];
  }

  /** An order is on the lost list only after more not-found reports than the limit allows, or
      because it was saved as failed and restored. */
  lemma {:induction false} LostOnlyAfterReports(ss: seq<State>, calls: seq<Call>, limit: int, k: nat, id: string)
    requires Run(ss, calls, limit) && k < |ss|
    ensures Reports(ss[k], id) <= ReportCount(calls[..k], id)
    ensures id in ss[k].lost ==> ReportCount(calls[..k], id) > limit || RestoredAsLost(calls[..k], id)
  {
    if k > 0 {
      LostOnlyAfterReports(ss, calls, limit, k - 1, id);
      RunKeepsInvariant(ss, calls, limit, k - 1);
      StepAt(ss, calls, limit, k - 1);
      hide Step, Run;
      LostStep(ss[k - 1], calls[k - 1], ss[k], limit, id);
      CountSnoc(calls, k - 1, id);
      assert calls[k - 1] in calls[..k];
    }
  }

  // ------------------------------------------------------------------ fills

  function FilledSum(log: seq<Event>, id: string): real {
    if log == [] then 0.0
    else
      var last := log[|log| - 1];
      FilledSum(log[..|log| - 1], id) + if last.OrderFilled? && last.id == id then last.amount else 0.0
  }

  function CompletedCount(log: seq<Event>, id: string): nat {
    if log == [] then 0
    else
      var last := log[|log| - 1];
      CompletedCount(log[..|log| - 1], id) + if last.OrderCompleted? && last.id == id then 1 else 0
  }

  lemma {:induction false} LogConcat(a: seq<Event>, b: seq<Event>, id: string)
    ensures FilledSum(a + b, id) == FilledSum(a, id) + FilledSum(b, id)
    ensures CompletedCount(a + b, id) == CompletedCount(a, id) + CompletedCount(b, id)
  {
    if b == [] {
      assert a + b == a;
    } else {
      assert (a + b)[..|a + b| - 1] == a + b[..|b| - 1];
      LogConcat(a, b[..|b| - 1], id);
    }
  }

  lemma {:induction false} NothingLogged(log: seq<Event>, id: string)
    requires forall e | e in log :: e.id != id
    ensures FilledSum(log, id) == 0.0 && CompletedCount(log, id) == 0
  {
    if log != [] {
      assert log[|log| - 1] in log;
      NothingLogged(log[..|log| - 1], id);
    }
  }

  lemma LoggedOne(e: Event, id: string)
    ensures FilledSum([e], id) == if e.OrderFilled? && e.id == id then e.amount else 0.0
    ensures CompletedCount([e], id) == if e.OrderCompleted? && e.id == id then 1 else 0
  {
    assert [e][..0] == [];
  }

  /** Updates announce completion at most once, and never a fill. */
  lemma AppliedCounts(s: State, id: string, u: Update, x: string)
    requires id in s.orders
    ensures FilledSum(AppliedEvents(s, id, u), x) == 0.0
    ensures CompletedCount(AppliedEvents(s, id, u), x)
         == if x == id && AppliedEvents(s, id, u) != [] && AppliedEvents(s, id, u)[|AppliedEvents(s, id, u)| - 1].OrderCompleted?
            then 1 else 0
  {
    hide WithUpdate, Order.IsOpen, Order.IsFilled, Changed, FilledSum, CompletedCount, CreationEvents, TerminalEvents;
    var o' := WithUpdate(s.orders[id], id, u);
    var creation, terminal := CreationEvents(id, s.orders[id].state, u.newState), TerminalEvents(id, o');
    EventShapes(id, s.orders[id].state, u.newState, o');
    EventCounts(creation, x);
    EventCounts(terminal, x);
    EventCounts([], x);
    LogConcat(creation, terminal, x);
    assert creation + [] == creation;
  }

  lemma EventShapes(id: string, before: OrderState, after: OrderState, o: Order)
    ensures |CreationEvents(id, before, after)| <= 1 && |TerminalEvents(id, o)| <= 1
    ensures forall e | e in CreationEvents(id, before, after) :: e.OrderCreated? && e.id == id
    ensures forall e | e in TerminalEvents(id, o) :: !e.OrderFilled? && e.id == id
  {
    hide Order.IsFilled;
  }

  lemma EventCounts(events: seq<Event>, x: string)
    requires |events| <= 1 && forall e | e in events :: !e.OrderFilled?
    ensures FilledSum(events, x) == 0.0
    ensures CompletedCount(events, x) == if events != [] && events[0].OrderCompleted? && events[0].id == x then 1 else 0
  {
    if events != [] {
      assert events == [events[0]];
      LoggedOne(events[0], x);
    }
  }

  /** Executed beyond what the fill events say. */
  function Gap(s: State, id: string): real
    requires id in s.orders
  {
    s.orders[id].executed - FilledSum(s.log, id)
  }

  /** A fill of a negative amount that the order accepts: it changes the executed amount without an event. */
  ghost predicate SilentFill(s: State, call: Call, id: string) {
    && call.TradeCall? && call.trade.clientId == id && call.trade.amount < 0.0
    && id in s.orders && id in s.active + s.cached + s.lost && Accepts(s.orders[id], id, call.trade)
  }

  ghost function Unreported(s: State, call: Call, id: string): real {
    if SilentFill(s, call, id) then call.trade.amount else 0.0
  }

  lemma ApplyKeepsGap(s: State, id: string, u: Update, x: string)
    requires id in s.orders && x in s.orders
    ensures x in Apply(s, id, u).orders && Gap(Apply(s, id, u), x) == Gap(s, x)
  {
    hide Apply, FilledSum;
    AppliedParts(s, id, u);
    AppliedCounts(s, id, u, x);
    LogConcat(s.log, AppliedEvents(s, id, u), x);
  }

  lemma ProcessKeepsGap(s: State, u: Update, x: string)
    requires Known(s) && x in s.orders
    ensures x in Process(s, u).orders && Gap(Process(s, u), x) == Gap(s, x)
  {
    hide Apply, FilledSum, Fetch, Order.IsDone;
    FetchedIsKnown(s, u);
    var found := Fetch(s.active + s.cached, s.orders, u);
    if found.Some? {
      ApplyKeepsGap(s, found.value, u, x);
    }
  }

  lemma TradeGap(s: State, t: Trade, x: string)
    requires Known(s) && x in s.orders
    ensures x in ProcessTrade(s, t).orders
    ensures Gap(ProcessTrade(s, t), x) == Gap(s, x) + Unreported(s, TradeCall(t), x)
  {
    hide FilledSum, Accepts;
    LogConcat(s.log, [OrderFilled(t.clientId, t.amount)], x);
    LoggedOne(OrderFilled(t.clientId, t.amount), x);
    assert s.log + [] == s.log;
  }

  lemma GapStep(s: State, call: Call, s': State, limit: int, x: string)
    requires Step(s, call, s', limit) && x in s.orders
    ensures x in s'.orders && Gap(s', x) == Gap(s, x) + Unreported(s, call, x)
  {
    hide Process, Apply, FilledSum, ProcessTrade, Accepts;
    match call
    case UpdateCall(u) => ProcessKeepsGap(s, u, x);
    case ResumeCall(k) =>
      ApplyKeepsGap(s.(pending := s.pending[..k] + s.pending[k + 1..]), s.pending[k].id, s.pending[k].update, x);
    case TradeCall(t) => TradeGap(s, t, x);
    case NotFoundCall(id) =>
      var counted := s.(records := s.records[id := Reports(s, id) + 1]);
      ProcessKeepsGap(if id in s.active then counted else s, FailedUpdate(id), x);
    case _ =>
  }

  ghost function UnreportedBetween(ss: seq<State>, calls: seq<Call>, i: nat, j: nat, id: string): real
    requires i <= j < |ss| && j <= |calls|
  {
    if i == j then 0.0 else UnreportedBetween(ss, calls, i, j - 1, id) + Unreported(ss[j - 1], calls[j - 1], id)
  }

  /** Along any run the executed amount moves exactly with the fill events, up to negative fills. */
  lemma {:induction false} FillsAddUp(ss: seq<State>, calls: seq<Call>, limit: int, i: nat, j: nat, id: string)
    requires Run(ss, calls, limit) && i <= j < |ss| && id in ss[i].orders
    ensures |ss| == |calls| + 1 && id in ss[j].orders
    ensures Gap(ss[j], id) == Gap(ss[i], id) + UnreportedBetween(ss, calls, i, j, id)
    decreases j
  {
    hide *;
    RunShape(ss, calls, limit);
    UnreportedStep(ss, calls, i, j, id);
    if i < j {
      FillsAddUp(ss, calls, limit, i, j - 1, id);
      StepAt(ss, calls, limit, j - 1);
      GapStep(ss[j - 1], calls[j - 1], ss[j], limit, id);
    }
  }

  lemma UnreportedStep(ss: seq<State>, calls: seq<Call>, i: nat, j: nat, id: string)
    requires i <= j < |ss| && j <= |calls|
    ensures UnreportedBetween(ss, calls, i, j, id)
         == if i == j then 0.0
            else UnreportedBetween(ss, calls, i, j - 1, id) + Unreported(ss[j - 1], calls[j - 1], id)
  {
    hide Unreported;
  }

  lemma RunShape(ss: seq<State>, calls: seq<Call>, limit: int)
    requires Run(ss, calls, limit)
    ensures |ss| == |calls| + 1
  {
  }

  ghost predicate NoSilentFill(ss: seq<State>, calls: seq<Call>, i: nat, j: nat, id: string)
    requires j < |ss| && j <= |calls|
  {
    forall k | i <= k < j :: !SilentFill(ss[k], calls[k], id)
  }

  lemma {:induction false} UnreportedSign(ss: seq<State>, calls: seq<Call>, i: nat, j: nat, id: string)
    requires i <= j < |ss| && j <= |calls|
    ensures UnreportedBetween(ss, calls, i, j, id) <= 0.0
    ensures UnreportedBetween(ss, calls, i, j, id) == 0.0 <==> NoSilentFill(ss, calls, i, j, id)
  {
    hide SilentFill;
    if i < j {
      UnreportedSign(ss, calls, i, j - 1, id);
      UnreportedAmount(ss[j - 1], calls[j - 1], id);
    }
  }

  lemma UnreportedAmount(s: State, call: Call, id: string)
    ensures if SilentFill(s, call, id) then Unreported(s, call, id) < 0.0 else Unreported(s, call, id) == 0.0
  {
  }

  /** Between two moments the fill events of an order never report less than what it executed, and they report
      exactly that if and only if no fill of a negative amount was accepted in between. */
  lemma FillEventsEqualExecuted(ss: seq<State>, calls: seq<Call>, limit: int, i: nat, j: nat, id: string)
    requires Run(ss, calls, limit) && i <= j < |ss| && id in ss[i].orders
    ensures |ss| == |calls| + 1 && id in ss[j].orders
    ensures var reported := FilledSum(ss[j].log, id) - FilledSum(ss[i].log, id);
            var executed := ss[j].orders[id].executed - ss[i].orders[id].executed;
            reported >= executed && (reported == executed <==> NoSilentFill(ss, calls, i, j, id))
  {
    hide FilledSum, Run, UnreportedBetween, NoSilentFill;
    FillsAddUp(ss, calls, limit, i, j, id);
    UnreportedSign(ss, calls, i, j, id);
  }

  /** The calls that bring an order into the tracker, started now or restored from an earlier session. */
  predicate Introduces(call: Call, id: string, o: Order) {
    || call == StartCall(id, o)
    || (call == RestoreCall(id, o) && (o.IsOpen() || o.state == Failed))
  }

  lemma IntroducedStep(s: State, call: Call, s': State, limit: int, id: string, o: Order)
    requires Step(s, call, s', limit) && Invariant(s, limit) && Introduces(call, id, o)
    ensures id in s'.orders && s'.orders[id] == o && FilledSum(s'.log, id) == 0.0
  {
    hide FilledSum, CompletedCount, Order.IsOpen;
    NothingLogged(s.log, id);
  }

  /** From the call that introduced it an order has executed what its fill events report, on top of what it
      came with, if and only if no fill of a negative amount was accepted since. */
  lemma FillsSinceIntroduction(ss: seq<State>, calls: seq<Call>, limit: int, i: nat, j: nat, id: string, o: Order)
    requires Run(ss, calls, limit) && i < j < |ss| && |ss| == |calls| + 1 && Introduces(calls[i], id, o)
    ensures id in ss[j].orders
    ensures FilledSum(ss[j].log, id) == ss[j].orders[id].executed - o.executed
       <==> NoSilentFill(ss, calls, i + 1, j, id)
  {
    hide FilledSum, Run, Step, Invariant, Introduces, NoSilentFill;
    StepAt(ss, calls, limit, i);
    RunKeepsInvariant(ss, calls, limit, i);
    IntroducedStep(ss[i], calls[i], ss[i + 1], limit, id, o);
    FillEventsEqualExecuted(ss, calls, limit, i + 1, j, id);
  }

  // ------------------------------------------------------------------ a run with a negative fill

  const OPENED := Order(Open, None, 1.0, 0.0, map[])
  const CORRECTION := Trade("t", "a", "", -1.0)
  const STARTED := State(map["a" := OPENED], ["a"], [], [], map[], [], [])
  const CORRECTED := STARTED.(orders := map["a" := WithTrade(OPENED, CORRECTION)])

  /** Two calls after which the order has executed minus one and no fill event tells of it. */
  lemma NegativeFillIsSilent(limit: int)
    ensures Run([EMPTY, STARTED, CORRECTED], [StartCall("a", OPENED), TradeCall(CORRECTION)], limit)
    ensures SilentFill(STARTED, TradeCall(CORRECTION), "a")
    ensures FilledSum(CORRECTED.log, "a") == 0.0 && CORRECTED.orders["a"].executed == -1.0
  {
    StartedStep(limit);
    CorrectedStep(limit);
    hide Step, SilentFill;
    NothingLogged([], "a");
  }

  lemma StartedStep(limit: int)
    ensures Step(EMPTY, StartCall("a", OPENED), STARTED, limit)
  {
    assert Start(EMPTY, "a", OPENED) == STARTED;
  }

  lemma CorrectedStep(limit: int)
    ensures Step(STARTED, TradeCall(CORRECTION), CORRECTED, limit)
    ensures SilentFill(STARTED, TradeCall(CORRECTION), "a")
    ensures CORRECTED.log == [] && CORRECTED.orders["a"].executed == -1.0
  {
    assert ProcessTrade(STARTED, CORRECTION) == CORRECTED;
  }
}
