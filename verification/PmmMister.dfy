/** The pmm_mister tick as a whole, and what every run of ticks and executor progress keeps. */
module PmmMister {
  import opened Results
  import opened PmmMisterModel
  import GlobalClose
  import opened LevelAdmission
  import opened AdmissionLaws
  import opened StopProposals

  /** One tick's inputs. `verified` is the position-mode check that guards everything else. */
  datatype Inputs = Inputs(verified: bool, close: GlobalClose.Env, feed: Feed)

  /** Without a positive reference price the tick analyses nothing; otherwise levels can be priced. */
  ghost predicate Usable(f: Feed, c: Config) { f.reference <= 0.0 || Priceable(f, c) }

  /** The controller's decision: its new close state and the close and entry orders and stops it sends. */
  ghost function Decide(st: GlobalClose.State, es: seq<Executor>, i: Inputs, c: Config): (GlobalClose.State, seq<Action>)
    requires Usable(i.feed, c)
  {
    if !i.verified then (st, [])
    else
      var (st', actions) := GlobalClose.Check(st, es, i.close, c);
      if st'.phase != GlobalClose.Idle || i.feed.reference <= 0.0 then (st', actions)
      else (st', actions + Proposal(es, i.close.position, i.feed, c) + Stops(es, i.feed, c))
  }

  method DetermineExecutorActions(closer: GlobalClose.Closer, es: seq<Executor>, i: Inputs, c: Config)
    returns (actions: seq<Action>)
    requires Usable(i.feed, c)
    modifies closer
    ensures (closer.Now(), actions) == Decide(old(closer.Now()), es, i, c)
  {
    if !i.verified {
      return [];
    }
    actions := closer.CheckGlobalTpSl(es, i.close, c);
    if closer.phase != GlobalClose.Idle || i.feed.reference <= 0.0 {
      return;
    }
    var entries := CreateActionsProposal(es, i.close.position, i.feed, c);
    actions := actions + entries;
    var stops := StopActionsProposal(es, i.feed, c);
    actions := actions + stops;
  }

  // ------------------------------------------------------------------ one tick

  lemma EndedWithoutOrders(st: GlobalClose.State, es: seq<Executor>, env: GlobalClose.Env, c: Config)
    requires GlobalClose.Check(st, es, env, c).0.phase == GlobalClose.Idle
    ensures GlobalClose.Check(st, es, env, c).1 == []
  {
  }

  /** A wrong position mode stops everything; otherwise the close logic always runs, and alone while a close goes on. */
  lemma GuardsComeFirst(st: GlobalClose.State, es: seq<Executor>, i: Inputs, c: Config)
    requires Usable(i.feed, c)
    ensures !i.verified ==> Decide(st, es, i, c) == (st, [])
    ensures i.verified ==> Decide(st, es, i, c).0 == GlobalClose.Check(st, es, i.close, c).0
    ensures i.verified && GlobalClose.Check(st, es, i.close, c).0.phase != GlobalClose.Idle ==>
              Decide(st, es, i, c).1 == GlobalClose.Check(st, es, i.close, c).1
  {
    hide Proposal, Priceable, Stops, GlobalClose.Check;
  }

  predicate HasClose(actions: seq<Action>) { exists a | a in actions :: a.CloseOrder? }
  predicate HasEntry(actions: seq<Action>) { exists a | a in actions :: a.EntryOrder? }

  /** Outside the global close a tick only enters and stops. */
  lemma TradingActions(st: GlobalClose.State, es: seq<Executor>, i: Inputs, c: Config)
    requires Usable(i.feed, c) && i.verified
    requires GlobalClose.Check(st, es, i.close, c).0.phase == GlobalClose.Idle
    ensures i.feed.reference <= 0.0 ==> Decide(st, es, i, c).1 == []
    ensures i.feed.reference > 0.0 ==>
              Decide(st, es, i, c).1 == Proposal(es, i.close.position, i.feed, c) + Stops(es, i.feed, c)
    ensures forall a | a in Decide(st, es, i, c).1 :: (a.EntryOrder? && a.level.Quote?) || a.StopKeep?
  {
    hide Proposal, Priceable, Stops, GlobalClose.Check;
    EndedWithoutOrders(st, es, i.close, c);
    if i.feed.reference <= 0.0 {
      return;
    }
    var entries, stops := Proposal(es, i.close.position, i.feed, c), Stops(es, i.feed, c);
    assert [] + entries + stops == entries + stops;
    StopsAreStops(es, i.feed, c);
    forall a | a in entries ensures a.EntryOrder? && a.level.Quote? {
      EntryServesPosition(es, i.close.position, i.feed, c, a);
    }
  }

  /** No tick both closes the position and enters, and while a global close goes on nothing enters. */
  lemma NeverCloseAndEnter(st: GlobalClose.State, es: seq<Executor>, i: Inputs, c: Config)
    requires Usable(i.feed, c)
    ensures !(HasClose(Decide(st, es, i, c).1) && HasEntry(Decide(st, es, i, c).1))
    ensures Decide(st, es, i, c).0.phase != GlobalClose.Idle ==> !HasEntry(Decide(st, es, i, c).1)
  {
    hide Proposal, Usable, Priceable, Stops;
    GlobalClose.StopAllStops(es);
    if i.verified && GlobalClose.Check(st, es, i.close, c).0.phase == GlobalClose.Idle {
      TradingActions(st, es, i, c);
    }
  }

  // ------------------------------------------------------------------ runs

  datatype World = World(close: GlobalClose.State, es: seq<Executor>)

  /** What happens next: a controller tick, one executor changing, or a finished one leaving the list. */
  datatype Event = Tick(inputs: Inputs, firstId: nat) | Change(index: nat, to: Executor) | Leave(index: nat)

  /** The executor an order becomes; it is listed from the next tick on. */
  function Started(a: Action, id: nat, now: real): seq<Executor> {
    match a
    case StopKeep(_) => []
    case CloseOrder(_, _) => [Executor(id, Level.GlobalClose, true, false, 0.0, now, None)]
    case EntryOrder(level, price, _) => [Executor(id, level, true, false, price, now, None)]
  }

  function AllStarted(actions: seq<Action>, firstId: nat, now: real): seq<Executor> {
    if actions == [] then []
    else
      var n := |actions| - 1;
      AllStarted(actions[..n], firstId, now) + Started(actions[n], firstId + n, now)
  }

  /** An executor keeps its level, never becomes active again, and stays filled while active. */
  predicate Progress(e: Executor, e': Executor) {
    && e'.id == e.id && e'.level == e.level
    && (e'.active ==> e.active)
    && (e.active && e.trading && e'.active ==> e'.trading)
  }

  ghost predicate Step(w: World, event: Event, w': World, c: Config) {
    match event
    case Tick(i, firstId) =>
      && Usable(i.feed, c)
      && w'.close == Decide(w.close, w.es, i, c).0
      && w'.es == w.es + AllStarted(Decide(w.close, w.es, i, c).1, firstId, i.feed.now)
    case Change(k, e') =>
      k < |w.es| && Progress(w.es[k], e') && w' == World(w.close, w.es[k := e'])
    case Leave(k) =>
      k < |w.es| && !w.es[k].active && w' == World(w.close, w.es[..k] + w.es[k + 1..])
  }

  const START := World(GlobalClose.State(GlobalClose.Idle, None, 0, false), [])

  ghost predicate Run(ws: seq<World>, events: seq<Event>, c: Config) {
    && |ws| == |events| + 1
    && ws[0] == START
    && forall k | 0 <= k < |events| :: Step(ws[k], events[k], ws[k + 1], c)
  }

  /** Every level keeps within its cap, with at most one order still waiting to fill. */
  ghost predicate LevelsBounded(es: seq<Executor>, c: Config) {
    forall level: Level | level.Quote? :: ActiveCount(es, level) <= c.maxActive && UntradedCount(es, level) <= 1
  }

  ghost predicate Invariant(w: World, c: Config) {
    GlobalClose.Consistent(w.close, w.es) && LevelsBounded(w.es, c)
  }

  // ------------------------------------------------------------------ counting

  lemma {:induction false} CountsConcat(a: seq<Executor>, b: seq<Executor>, level: Level)
    ensures ActiveCount(a + b, level) == ActiveCount(a, level) + ActiveCount(b, level)
    ensures UntradedCount(a + b, level) == UntradedCount(a, level) + UntradedCount(b, level)
  {
    if b == [] {
      assert a + b == a;
    } else {
      assert (a + b)[..|a + b| - 1] == a + b[..|b| - 1];
      CountsConcat(a, b[..|b| - 1], level);
    }
  }

  lemma CountsAround(es: seq<Executor>, k: nat, level: Level)
    requires k < |es|
    ensures ActiveCount(es, level)
         == ActiveCount(es[..k], level) + ActiveCount([es[k]], level) + ActiveCount(es[k + 1..], level)
    ensures UntradedCount(es, level)
         == UntradedCount(es[..k], level) + UntradedCount([es[k]], level) + UntradedCount(es[k + 1..], level)
  {
    hide ActiveCount, UntradedCount;
    assert es == es[..k] + [es[k]] + es[k + 1..];
    CountsConcat(es[..k] + [es[k]], es[k + 1..], level);
    CountsConcat(es[..k], [es[k]], level);
  }

  lemma CountsOfOne(e: Executor, level: Level)
    ensures ActiveCount([e], level) == if e.active && e.level == level then 1 else 0
    ensures UntradedCount([e], level) == if e.active && !e.trading && e.level == level then 1 else 0
  {
    assert [e][..0] == [];
  }

  lemma ChangeKeepsLevels(es: seq<Executor>, k: nat, e': Executor, c: Config)
    requires k < |es| && Progress(es[k], e') && LevelsBounded(es, c)
    ensures LevelsBounded(es[k := e'], c)
  {
    hide ActiveCount, UntradedCount;
    var es' := es[k := e'];
    forall level: Level | level.Quote?
      ensures ActiveCount(es', level) <= c.maxActive && UntradedCount(es', level) <= 1
    {
      CountsAround(es, k, level);
      CountsAround(es', k, level);
      assert es'[..k] == es[..k] && es'[k + 1..] == es[k + 1..];
      CountsOfOne(es[k], level);
      CountsOfOne(e', level);
    }
  }

  lemma LeaveKeepsLevels(es: seq<Executor>, k: nat, c: Config)
    requires k < |es| && LevelsBounded(es, c)
    ensures LevelsBounded(es[..k] + es[k + 1..], c)
  {
    hide ActiveCount, UntradedCount;
    forall level: Level | level.Quote?
      ensures ActiveCount(es[..k] + es[k + 1..], level) <= c.maxActive
      ensures UntradedCount(es[..k] + es[k + 1..], level) <= 1
    {
      CountsAround(es, k, level);
      CountsConcat(es[..k], es[k + 1..], level);
    }
  }

  lemma StartedOne(a: Action, id: nat, now: real, level: Level)
    requires level.Quote?
    ensures var n := if a.EntryOrder? && a.level == level then 1 else 0;
            ActiveCount(Started(a, id, now), level) == UntradedCount(Started(a, id, now), level) == n
  {
    hide ActiveCount, UntradedCount;
    NoneActive(level);
    if !a.StopKeep? {
      CountsOfOne(Started(a, id, now)[0], level);
    }
  }

  lemma NoneActive(level: Level)
    ensures ActiveCount([], level) == UntradedCount([], level) == 0
  {
  }

  lemma {:induction false} StartedCounts(actions: seq<Action>, firstId: nat, now: real, level: Level)
    requires level.Quote?
    ensures ActiveCount(AllStarted(actions, firstId, now), level) == OrdersAt(actions, level)
    ensures UntradedCount(AllStarted(actions, firstId, now), level) == OrdersAt(actions, level)
  {
    hide ActiveCount, UntradedCount, Started;
    if actions == [] {
      NoneActive(level);
    } else {
      var n := |actions| - 1;
      StartedCounts(actions[..n], firstId, now, level);
      StartedOne(actions[n], firstId + n, now, level);
      CountsConcat(AllStarted(actions[..n], firstId, now), Started(actions[n], firstId + n, now), level);
    }
  }

  lemma {:induction false} OrdersAtNone(actions: seq<Action>, level: Level)
    requires forall a | a in actions :: !(a.EntryOrder? && a.level == level)
    ensures OrdersAt(actions, level) == 0
  {
    if actions != [] {
      assert actions[|actions| - 1] in actions;
      OrdersAtNone(actions[..|actions| - 1], level);
    }
  }

  lemma OrdersAtSome(actions: seq<Action>, level: Level)
    requires OrdersAt(actions, level) > 0
    ensures exists a :: a in actions && a.EntryOrder? && a.level == level
  {
    if forall a | a in actions :: !(a.EntryOrder? && a.level == level) {
      OrdersAtNone(actions, level);
    }
  }

  /** The orders of a tick fit into every level: one at most, and only where there is room. */
  lemma TickOrdersFit(st: GlobalClose.State, es: seq<Executor>, i: Inputs, c: Config, level: Level)
    requires Usable(i.feed, c) && level.Quote?
    ensures var n := OrdersAt(Decide(st, es, i, c).1, level);
            n <= 1 && (n > 0 ==> UntradedCount(es, level) == 0 && ActiveCount(es, level) < c.maxActive)
  {
    hide Proposal, Priceable, Stops, GlobalClose.Check, ActiveCount, UntradedCount, OrdersAt;
    var actions := Decide(st, es, i, c).1;
    NeverCloseAndEnter(st, es, i, c);
    if OrdersAt(actions, level) > 0 {
      OrdersAtSome(actions, level);
      var a :| a in actions && a.EntryOrder? && a.level == level;
      TradingActions(st, es, i, c);
      var entries, stops := Proposal(es, i.close.position, i.feed, c), Stops(es, i.feed, c);
      StopsAreStops(es, i.feed, c);
      OrdersAtNone(stops, level);
      OrdersAtConcat(entries, stops, level);
      OneOrderPerLevel(es, i.close.position, i.feed, c, level);
      EntryIsAdmitted(es, i.close.position, i.feed, c, a);
    }
  }

  lemma {:induction false} OrdersAtConcat(a: seq<Action>, b: seq<Action>, level: Level)
    ensures OrdersAt(a + b, level) == OrdersAt(a, level) + OrdersAt(b, level)
  {
    if b == [] {
      assert a + b == a;
    } else {
      assert (a + b)[..|a + b| - 1] == a + b[..|b| - 1];
      OrdersAtConcat(a, b[..|b| - 1], level);
    }
  }

  /** A level that receives an order has no order refreshed in the same tick, so a level is never
      quoted again before its stale order is gone. */
  lemma NoEntryBesideRefresh(st: GlobalClose.State, es: seq<Executor>, i: Inputs, c: Config, a: Action, e: Executor)
    requires Usable(i.feed, c) && a in Decide(st, es, i, c).1 && a.EntryOrder?
    requires e in es && e.level == a.level
    ensures !NeedsRefresh(e, i.feed, c)
  {
    hide Proposal, Priceable, Stops, UntradedCount, ActiveCount;
    NeverCloseAndEnter(st, es, i, c);
    assert HasEntry(Decide(st, es, i, c).1);
    TradingActions(st, es, i, c);
    StopsAreStops(es, i.feed, c);
    EntryIsAdmitted(es, i.close.position, i.feed, c, a);
    if e.active && !e.trading {
      UntradedCounted(es, e);
    }
  }

  lemma {:induction false} UntradedCounted(es: seq<Executor>, e: Executor)
    requires e in es && e.active && !e.trading
    ensures UntradedCount(es, e.level) > 0
  {
    if es[|es| - 1] != e {
      UntradedCounted(es[..|es| - 1], e);
    }
  }

  lemma TickKeepsLevels(st: GlobalClose.State, es: seq<Executor>, i: Inputs, firstId: nat, c: Config)
    requires Usable(i.feed, c) && LevelsBounded(es, c)
    ensures LevelsBounded(es + AllStarted(Decide(st, es, i, c).1, firstId, i.feed.now), c)
  {
    hide Decide, ActiveCount, UntradedCount, OrdersAt, Usable, Priceable, AllStarted;
    var actions := Decide(st, es, i, c).1;
    var started := AllStarted(actions, firstId, i.feed.now);
    forall level: Level | level.Quote?
      ensures ActiveCount(es + started, level) <= c.maxActive && UntradedCount(es + started, level) <= 1
    {
      TickOrdersFit(st, es, i, c, level);
      StartedCounts(actions, firstId, i.feed.now, level);
      CountsConcat(es, started, level);
    }
  }

  // ------------------------------------------------------------------ the close state along a run

  lemma {:induction false} StartedActive(actions: seq<Action>, firstId: nat, now: real)
    ensures AnyActiveClose(AllStarted(actions, firstId, now)) ==> HasClose(actions) || HasEntry(actions)
    ensures AnyActiveClose(AllStarted(actions, firstId, now)) && !HasClose(actions) ==>
              exists a | a in actions :: a.EntryOrder? && a.level == Level.GlobalClose
    ensures AnyActiveQuote(AllStarted(actions, firstId, now)) ==> HasEntry(actions)
  {
    if actions != [] {
      var n := |actions| - 1;
      StartedActive(actions[..n], firstId, now);
      assert actions == actions[..n] + [actions[n]];
      assert actions[n] in actions;
      assert forall a | a in actions[..n] :: a in actions;
    }
  }

  lemma ActiveEither(a: seq<Executor>, b: seq<Executor>)
    ensures AnyActiveClose(a + b) <==> AnyActiveClose(a) || AnyActiveClose(b)
    ensures AnyActiveQuote(a + b) <==> AnyActiveQuote(a) || AnyActiveQuote(b)
  {
    assert forall e :: e in a + b <==> e in a || e in b;
  }

  /** What one check guarantees before its orders become executors. */
  lemma CheckConsistent(st: GlobalClose.State, es: seq<Executor>, env: GlobalClose.Env, c: Config)
    requires GlobalClose.Consistent(st, es)
    ensures var (st', actions) := GlobalClose.Check(st, es, env, c);
      && !HasEntry(actions) && GlobalClose.Consistent(st', es)
      && (HasClose(actions) ==> st'.phase == GlobalClose.Closing)
  {
    GlobalClose.StopAllStops(es);
  }

  lemma QuoteEntriesOnly(st: GlobalClose.State, es: seq<Executor>, i: Inputs, c: Config)
    requires GlobalClose.Consistent(st, es) && Usable(i.feed, c)
    ensures var (st', actions) := Decide(st, es, i, c);
      && GlobalClose.Consistent(st', es)
      && (HasClose(actions) ==> st'.phase == GlobalClose.Closing)
      && (HasEntry(actions) ==> st'.phase == GlobalClose.Idle)
      && forall a | a in actions && a.EntryOrder? :: a.level != Level.GlobalClose
  {
    hide Proposal, Usable, Priceable, Stops, GlobalClose.Check, GlobalClose.Consistent;
    CheckConsistent(st, es, i.close, c);
    if i.verified && GlobalClose.Check(st, es, i.close, c).0.phase == GlobalClose.Idle {
      TradingActions(st, es, i, c);
    }
  }

  lemma TickKeepsClose(st: GlobalClose.State, es: seq<Executor>, i: Inputs, firstId: nat, c: Config)
    requires GlobalClose.Consistent(st, es) && Usable(i.feed, c)
    ensures GlobalClose.Consistent(Decide(st, es, i, c).0,
                                   es + AllStarted(Decide(st, es, i, c).1, firstId, i.feed.now))
  {
    hide Decide, Usable, Priceable, AllStarted, AnyActiveClose, AnyActiveQuote;
    var actions := Decide(st, es, i, c).1;
    QuoteEntriesOnly(st, es, i, c);
    StartedActive(actions, firstId, i.feed.now);
    ActiveEither(es, AllStarted(actions, firstId, i.feed.now));
  }

  lemma ChangeKeepsClose(st: GlobalClose.State, es: seq<Executor>, k: nat, e': Executor)
    requires k < |es| && Progress(es[k], e') && GlobalClose.Consistent(st, es)
    ensures GlobalClose.Consistent(st, es[k := e'])
  {
    var es' := es[k := e'];
    forall e | e in es' && e.active ensures exists w | w in es :: w.active && w.level == e.level {
      if e == e' {
        assert es[k] in es;
      } else {
        assert e in es;
      }
    }
  }

  lemma LeaveKeepsClose(st: GlobalClose.State, es: seq<Executor>, k: nat)
    requires k < |es| && GlobalClose.Consistent(st, es)
    ensures GlobalClose.Consistent(st, es[..k] + es[k + 1..])
  {
    assert forall e | e in es[..k] + es[k + 1..] :: e in es;
  }

  lemma StepKeepsInvariant(w: World, event: Event, w': World, c: Config)
    requires Invariant(w, c) && Step(w, event, w', c)
    ensures Invariant(w', c)
  {
    hide GlobalClose.Consistent, LevelsBounded, Decide, Usable, Priceable, Progress, AllStarted;
    match event
    case Tick(i, firstId) =>
      TickKeepsClose(w.close, w.es, i, firstId, c);
      TickKeepsLevels(w.close, w.es, i, firstId, c);
    case Change(k, e') =>
      ChangeKeepsClose(w.close, w.es, k, e');
      ChangeKeepsLevels(w.es, k, e', c);
    case Leave(k) =>
      LeaveKeepsClose(w.close, w.es, k);
      LeaveKeepsLevels(w.es, k, c);
  }

  lemma StartInvariant(c: Config)
    ensures Invariant(START, c)
  {
  }

  /** In every run, whatever executors do: the close state matches the executors, and every level
      stays within its cap with at most one unfilled order. */
  lemma {:induction false} RunKeepsInvariant(ws: seq<World>, events: seq<Event>, c: Config, k: nat)
    requires Run(ws, events, c) && k < |ws|
    ensures Invariant(ws[k], c)
  {
    hide Invariant, Step;
    if k == 0 {
      StartInvariant(c);
    } else {
      RunKeepsInvariant(ws, events, c, k - 1);
      assert Step(ws[k - 1], events[k - 1], ws[k], c);
      StepKeepsInvariant(ws[k - 1], events[k - 1], ws[k], c);
    }
  }

  // ------------------------------------------------------------------ the length of an episode

  /** A tick that finds every executor finished. */
  ghost predicate Quiet(w: World, event: Event) {
    event.Tick? && event.inputs.verified && !AnyActive(w.es)
  }

  ghost predicate PlacesClose(w: World, event: Event, c: Config) {
    event.Tick? && Usable(event.inputs.feed, c) && HasClose(Decide(w.close, w.es, event.inputs, c).1)
  }

  ghost function QuietTicks(ws: seq<World>, events: seq<Event>, i: nat, j: nat): nat
    requires i <= j < |ws| && |ws| == |events| + 1
  {
    if i == j then 0 else QuietTicks(ws, events, i, j - 1) + if Quiet(ws[j - 1], events[j - 1]) then 1 else 0
  }

  ghost function CloseOrders(ws: seq<World>, events: seq<Event>, c: Config, i: nat, j: nat): nat
    requires i <= j < |ws| && |ws| == |events| + 1
  {
    if i == j then 0
    else CloseOrders(ws, events, c, i, j - 1) + if PlacesClose(ws[j - 1], events[j - 1], c) then 1 else 0
  }

  lemma CloseStateMoves(st: GlobalClose.State, es: seq<Executor>, i: Inputs, c: Config)
    requires GlobalClose.Consistent(st, es) && st.phase != GlobalClose.Idle && Usable(i.feed, c)
    ensures var (st', actions) := Decide(st, es, i, c);
      && (st'.phase != GlobalClose.Idle ==> st'.retries == st.retries + if HasClose(actions) then 1 else 0)
      && (st'.phase == GlobalClose.Idle ==> !HasClose(actions))
  {
    hide Proposal, Usable, Priceable, Stops;
    if i.verified && GlobalClose.Check(st, es, i.close, c).0.phase == GlobalClose.Idle {
      TradingActions(st, es, i, c);
    } else {
      var actions := Decide(st, es, i, c).1;
      assert actions != [] ==> actions[0] in actions;
    }
  }

  lemma TickSpends(w: World, event: Event, w': World, c: Config)
    requires Invariant(w, c) && Step(w, event, w', c)
    requires w.close.phase != GlobalClose.Idle
    ensures GlobalClose.Budget(w'.close) + (if Quiet(w, event) then 1 else 0) <= GlobalClose.Budget(w.close)
    ensures w'.close.phase != GlobalClose.Idle ==>
              w'.close.retries == w.close.retries + if PlacesClose(w, event, c) then 1 else 0
    ensures w'.close.phase == GlobalClose.Idle ==> !PlacesClose(w, event, c)
  {
    hide LevelsBounded, Usable, Priceable, AllStarted, Progress, GlobalClose.Check, GlobalClose.Budget, Proposal, HasClose;
    if event.Tick? {
      CloseStateMoves(w.close, w.es, event.inputs, c);
      if event.inputs.verified {
        GlobalClose.CheckNeverLosesProgress(w.close, w.es, event.inputs.close, c);
        if !AnyActive(w.es) {
          GlobalClose.QuietCheckMakesProgress(w.close, w.es, event.inputs.close, c);
        }
      }
    }
  }

  /** A global close that is still going on from `i` to `j` has seen at most three ticks with every
      executor finished, so the fourth ends it, and has sent at most three close orders. */
  lemma {:induction false} EpisodeIsShort(ws: seq<World>, events: seq<Event>, c: Config, i: nat, j: nat)
    requires Run(ws, events, c) && i <= j < |ws|
    requires forall k | i <= k <= j :: ws[k].close.phase != GlobalClose.Idle
    ensures QuietTicks(ws, events, i, j) + GlobalClose.Budget(ws[j].close) <= GlobalClose.Budget(ws[i].close)
    ensures QuietTicks(ws, events, i, j) <= 3
    ensures CloseOrders(ws, events, c, i, j) == ws[j].close.retries - ws[i].close.retries <= 3
    decreases j
  {
    hide Invariant, Step, Quiet, PlacesClose, LevelsBounded;
    BudgetRange(ws, events, c, i);
    BudgetRange(ws, events, c, j);
    if i < j {
      EpisodeIsShort(ws, events, c, i, j - 1);
      RunKeepsInvariant(ws, events, c, j - 1);
      assert Step(ws[j - 1], events[j - 1], ws[j], c);
      TickSpends(ws[j - 1], events[j - 1], ws[j], c);
    }
  }

  lemma BudgetRange(ws: seq<World>, events: seq<Event>, c: Config, k: nat)
    requires Run(ws, events, c) && k < |ws| && ws[k].close.phase != GlobalClose.Idle
    ensures 1 <= GlobalClose.Budget(ws[k].close) <= 4 && ws[k].close.retries <= 3
  {
    hide LevelsBounded, Step;
    RunKeepsInvariant(ws, events, c, k);
  }
}
