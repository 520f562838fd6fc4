/** How many completed events a group of FILLED updates for one order produces. */
module TrackerCompletion {
  import opened Results
  import opened InFlightOrders
  import opened OrderTracker
  import opened TrackerLaws
  import opened TrackerEvents

  /** The updates that reach the order itself during one call, after any wait. */
  ghost function AppliedTo(s: State, call: Call, limit: int, id: string): seq<Update>
    requires Known(s) && Allowed(s, call) && id in s.orders
  {
    match call
    case UpdateCall(u) =>
      if !(Blank(u.clientId) && Blank(u.exchangeId)) && Fetch(s.active + s.cached, s.orders, u) == Some(id)
         && !(u.newState == Filled && !s.orders[id].IsDone())
      then [u] else []
    case ResumeCall(k) => if s.pending[k].id == id then [s.pending[k].update] else []
    case NotFoundCall(x) =>
      if x == id && id in s.active && Reports(s, id) + 1 > limit then [FailedUpdate(id)] else []
    case _ => []
  }

  /** What completion counting depends on. */
  datatype Mark = Mark(state: OrderState, exchangeId: Option<string>, completed: nat)

  function MarkOf(s: State, id: string): Mark
    requires id in s.orders
  {
    Mark(s.orders[id].state, s.orders[id].exchangeId, CompletedCount(s.log, id))
  }

  /** A FILLED update announces completion when it changes the state or supplies a missing exchange id. */
  function FilledMark(m: Mark, u: Update): Mark {
    Mark(Filled, if m.exchangeId.None? then u.exchangeId else m.exchangeId,
         m.completed + if m.state != Filled || (m.exchangeId.None? && u.exchangeId.Some?) then 1 else 0)
  }

  function FilledMarks(m: Mark, us: seq<Update>): Mark {
    if us == [] then m else FilledMark(FilledMarks(m, us[..|us| - 1]), us[|us| - 1])
  }

  lemma ApplyOtherMark(s: State, id: string, u: Update, x: string)
    requires id in s.orders && x in s.orders && x != id
    ensures x in Apply(s, id, u).orders && MarkOf(Apply(s, id, u), x) == MarkOf(s, x)
  {
    hide Apply, CompletedCount, AppliedEvents;
    AppliedParts(s, id, u);
    AppliedCounts(s, id, u, x);
    LogConcat(s.log, AppliedEvents(s, id, u), x);
  }

  lemma FilledEvents(s: State, id: string, u: Update)
    requires id in s.orders && u.newState == Filled && Addressed(s.orders[id], id, u)
    ensures var o := s.orders[id];
            var events := AppliedEvents(s, id, u);
            if o.state != Filled || (o.exchangeId.None? && u.exchangeId.Some?)
            then events != [] && events[|events| - 1].OrderCompleted?
            else events == []
  {
  }

  lemma ApplyFilledMark(s: State, id: string, u: Update)
    requires id in s.orders && u.newState == Filled && Addressed(s.orders[id], id, u)
    ensures id in Apply(s, id, u).orders && MarkOf(Apply(s, id, u), id) == FilledMark(MarkOf(s, id), u)
  {
    hide Apply, CompletedCount, AppliedEvents;
    AppliedParts(s, id, u);
    AppliedCounts(s, id, u, id);
    LogConcat(s.log, AppliedEvents(s, id, u), id);
    FilledEvents(s, id, u);
  }

  /** One update's effect on the order it reaches, and none on the others. */
  lemma ApplyMark(s: State, target: string, u: Update, id: string)
    requires target in s.orders && id in s.orders
    requires id == target ==> u.newState == Filled && Addressed(s.orders[id], id, u)
    ensures id in Apply(s, target, u).orders
    ensures MarkOf(Apply(s, target, u), id)
         == if id == target then FilledMark(MarkOf(s, id), u) else MarkOf(s, id)
  {
    hide *;
    if id == target {
      ApplyFilledMark(s, id, u);
    } else {
      ApplyOtherMark(s, target, u, id);
    }
  }

  lemma OneMark(m: Mark, u: Update)
    ensures FilledMarks(m, [u]) == FilledMark(m, u) && FilledMarks(m, []) == m
  {
    assert [u][..0] == [];
  }

  lemma ProcessMark(s: State, u: Update, limit: int, id: string)
    requires Known(s) && id in s.orders
    requires forall v | v in AppliedTo(s, UpdateCall(u), limit, id) :: v.newState == Filled
    ensures id in Process(s, u).orders
    ensures MarkOf(Process(s, u), id) == FilledMarks(MarkOf(s, id), AppliedTo(s, UpdateCall(u), limit, id))
  {
    hide Apply, CompletedCount, Fetch, Order.IsDone, FilledMark, FilledMarks;
    FetchedIsKnown(s, u);
    var found := Fetch(s.active + s.cached, s.orders, u);
    OneMark(MarkOf(s, id), u);
    if found.Some? && !(Blank(u.clientId) && Blank(u.exchangeId))
       && !(u.newState == Filled && !s.orders[found.value].IsDone()) {
      if found.value == id {
        assert u in AppliedTo(s, UpdateCall(u), limit, id);
      }
      ApplyMark(s, found.value, u, id);
    }
  }

  lemma ResumeMark(s: State, k: nat, limit: int, id: string)
    requires Known(s) && PendingFits(s) && id in s.orders && k < |s.pending|
    ensures id in Resume(s, k).orders
    ensures MarkOf(Resume(s, k), id) == FilledMarks(MarkOf(s, id), AppliedTo(s, ResumeCall(k), limit, id))
  {
    hide Apply, CompletedCount, FilledMark, FilledMarks;
    var p := s.pending[k];
    assert p in s.pending;
    OneMark(MarkOf(s, id), p.update);
    ApplyMark(s.(pending := s.pending[..k] + s.pending[k + 1..]), p.id, p.update, id);
  }

  /** A failure never counts as a FILLED update, so a report that loses an order is excluded. */
  lemma NotFoundMark(s: State, x: string, limit: int, id: string)
    requires Invariant(s, limit) && id in s.orders
    requires forall v | v in AppliedTo(s, NotFoundCall(x), limit, id) :: v.newState == Filled
    ensures id in NotFound(s, x, limit).orders && AppliedTo(s, NotFoundCall(x), limit, id) == []
    ensures MarkOf(NotFound(s, x, limit), id) == MarkOf(s, id)
  {
    hide Process, Apply, CompletedCount, Invariant;
    InvariantParts(s, limit);
    assert FailedUpdate(id) in AppliedTo(s, NotFoundCall(x), limit, id) || AppliedTo(s, NotFoundCall(x), limit, id) == [];
    if x in s.active {
      ActiveFacts(s, x, limit);
      var counted := s.(records := s.records[x := Reports(s, x) + 1]);
      if Reports(s, x) + 1 > limit {
        FailureCaches(counted, x);
        ApplyMark(counted, x, FailedUpdate(x), id);
      }
    } else if x in s.lost {
      LostIsNotFetched(s, x, limit);
      assert id in s.orders;
    }
  }

  lemma InvariantParts(s: State, limit: int)
    requires Invariant(s, limit)
    ensures Known(s) && Separate(s) && PendingFits(s)
  {
  }

  /** A failed update for a lost order only takes it off the lost list. */
  lemma LostIsNotFetched(s: State, x: string, limit: int)
    requires Known(s) && Separate(s) && x in s.lost
    ensures var s' := Process(s, FailedUpdate(x)); s' == s.(lost := s'.lost)
  {
    assert x !in s.active + s.cached;
  }

  lemma StepMark(s: State, call: Call, s': State, limit: int, id: string)
    requires Invariant(s, limit) && Step(s, call, s', limit) && id in s.orders
    requires forall v | v in AppliedTo(s, call, limit, id) :: v.newState == Filled
    ensures id in s'.orders
    ensures MarkOf(s', id) == FilledMarks(MarkOf(s, id), AppliedTo(s, call, limit, id))
  {
    hide Process, Resume, NotFound, CompletedCount, Invariant, Accepts, FilledMark;
    InvariantParts(s, limit);
    match call
    case UpdateCall(u) => ProcessMark(s, u, limit, id);
    case ResumeCall(k) => ResumeMark(s, k, limit, id);
    case NotFoundCall(x) => NotFoundMark(s, x, limit, id);
    case TradeCall(t) =>
      LogConcat(s.log, [OrderFilled(t.clientId, t.amount)], id);
      LoggedOne(OrderFilled(t.clientId, t.amount), id);
      assert s.log + [] == s.log;
    case _ =>
  }

  // ------------------------------------------------------------------ along a run

  ghost function AppliedBetween(ss: seq<State>, calls: seq<Call>, limit: int, i: nat, j: nat, id: string): seq<Update>
    requires |ss| == |calls| + 1 && i <= j < |ss|
  {
    if i == j then []
    else
      var s := ss[j - 1];
      AppliedBetween(ss, calls, limit, i, j - 1, id)
      + if Known(s) && Allowed(s, calls[j - 1]) && id in s.orders then AppliedTo(s, calls[j - 1], limit, id) else []
  }

  ghost predicate OnlyFilled(us: seq<Update>) { forall u | u in us :: u.newState == Filled }

  lemma {:induction false} MarksConcat(m: Mark, us: seq<Update>, vs: seq<Update>)
    ensures FilledMarks(m, us + vs) == FilledMarks(FilledMarks(m, us), vs)
  {
    if vs == [] {
      assert us + vs == us;
    } else {
      assert (us + vs)[..|us + vs| - 1] == us + vs[..|vs| - 1];
      MarksConcat(m, us, vs[..|vs| - 1]);
    }
  }

  lemma BetweenStep(ss: seq<State>, calls: seq<Call>, limit: int, i: nat, j: nat, id: string)
    requires |ss| == |calls| + 1 && i < j < |ss|
    requires Step(ss[j - 1], calls[j - 1], ss[j], limit) && id in ss[j - 1].orders
    ensures AppliedBetween(ss, calls, limit, i, j, id)
         == AppliedBetween(ss, calls, limit, i, j - 1, id) + AppliedTo(ss[j - 1], calls[j - 1], limit, id)
    ensures OnlyFilled(AppliedBetween(ss, calls, limit, i, j, id)) ==>
              && OnlyFilled(AppliedBetween(ss, calls, limit, i, j - 1, id))
              && OnlyFilled(AppliedTo(ss[j - 1], calls[j - 1], limit, id))
  {
    hide AppliedTo, Next;
  }

  lemma {:induction false} MarksAlong(ss: seq<State>, calls: seq<Call>, limit: int, i: nat, j: nat, id: string)
    requires Run(ss, calls, limit) && |ss| == |calls| + 1 && i <= j < |ss| && id in ss[i].orders
    requires OnlyFilled(AppliedBetween(ss, calls, limit, i, j, id))
    ensures id in ss[j].orders
    ensures MarkOf(ss[j], id) == FilledMarks(MarkOf(ss[i], id), AppliedBetween(ss, calls, limit, i, j, id))
    decreases j
  {
    hide *;
    if i == j {
      NothingBetween(ss, calls, limit, i, id);
    } else {
      StepAt(ss, calls, limit, j - 1);
      KeptOrder(ss, calls, limit, i, j - 1, id);
      BetweenStep(ss, calls, limit, i, j, id);
      MarksAlong(ss, calls, limit, i, j - 1, id);
      RunKeepsInvariant(ss, calls, limit, j - 1);
      StepFilled(ss[j - 1], calls[j - 1], ss[j], limit, id);
      MarksConcat(MarkOf(ss[i], id), AppliedBetween(ss, calls, limit, i, j - 1, id),
                  AppliedTo(ss[j - 1], calls[j - 1], limit, id));
    }
  }

  lemma NothingBetween(ss: seq<State>, calls: seq<Call>, limit: int, i: nat, id: string)
    requires |ss| == |calls| + 1 && i < |ss| && id in ss[i].orders
    ensures FilledMarks(MarkOf(ss[i], id), AppliedBetween(ss, calls, limit, i, i, id)) == MarkOf(ss[i], id)
  {
  }

  lemma KeptOrder(ss: seq<State>, calls: seq<Call>, limit: int, i: nat, j: nat, id: string)
    requires Run(ss, calls, limit) && i <= j < |ss| && id in ss[i].orders
    ensures id in ss[j].orders
  {
    FillsAddUp(ss, calls, limit, i, j, id);
  }

  lemma StepFilled(s: State, call: Call, s': State, limit: int, id: string)
    requires Invariant(s, limit) && Step(s, call, s', limit) && Known(s) && Allowed(s, call) && id in s.orders
    requires OnlyFilled(AppliedTo(s, call, limit, id))
    ensures id in s'.orders
    ensures MarkOf(s', id) == FilledMarks(MarkOf(s, id), AppliedTo(s, call, limit, id))
  {
    hide AppliedTo, Invariant, Step, MarkOf, FilledMarks;
    StepMark(s, call, s', limit, id);
  }

  // ------------------------------------------------------------------ how many

  ghost predicate LateExchangeId(known: Option<string>, us: seq<Update>) {
    us != [] && known.None? && us[0].exchangeId.None? && exists u | u in us :: u.exchangeId.Some?
  }

  lemma {:induction false} CompletionsOf(m: Mark, us: seq<Update>)
    requires m.state != Filled
    ensures var m' := FilledMarks(m, us);
      && (us != [] ==> m'.state == Filled)
      && m'.completed == m.completed + (if us == [] then 0 else if LateExchangeId(m.exchangeId, us) then 2 else 1)
      && (m'.exchangeId.None? <==> m.exchangeId.None? && forall u | u in us :: u.exchangeId.None?)
  {
    if us != [] {
      var init, last := us[..|us| - 1], us[|us| - 1];
      CompletionsOf(m, init);
      assert us == init + [last];
      assert init != [] ==> init[0] == us[0];
    }
  }

  /** While FILLED updates are the only ones reaching an order that was not filled before, its
      completion is announced exactly once, however many there are, except in one case: the first
      of them leaves the exchange id unknown and a later one brings it, and then it is announced twice. */
  lemma CompletionsAlongRun(ss: seq<State>, calls: seq<Call>, limit: int, i: nat, j: nat, id: string)
    requires Run(ss, calls, limit) && |ss| == |calls| + 1 && i <= j < |ss|
    requires id in ss[i].orders && ss[i].orders[id].state != Filled
    requires OnlyFilled(AppliedBetween(ss, calls, limit, i, j, id))
    ensures var us := AppliedBetween(ss, calls, limit, i, j, id);
            CompletedCount(ss[j].log, id) - CompletedCount(ss[i].log, id)
            == if us == [] then 0 else if LateExchangeId(ss[i].orders[id].exchangeId, us) then 2 else 1
  {
    hide Run, AppliedBetween, CompletedCount, FilledMarks, LateExchangeId;
    MarksAlong(ss, calls, limit, i, j, id);
    CompletionsOf(MarkOf(ss[i], id), AppliedBetween(ss, calls, limit, i, j, id));
  }

  // ------------------------------------------------------------------ the exception happens

  const WITHOUT_ID := Update(Some("a"), None, Filled)
  const WITH_ID := Update(Some("a"), Some("x"), Filled)

  lemma TwoWait(s: State)
    requires s == Start(EMPTY, "a", OPENED)
    ensures Known(s) && Process(s, WITHOUT_ID) == s.(pending := [Pending("a", WITHOUT_ID)])
    ensures var t := s.(pending := [Pending("a", WITHOUT_ID)]);
            Known(t) && Process(t, WITH_ID) == t.(pending := [Pending("a", WITHOUT_ID), Pending("a", WITH_ID)])
  {
    assert s.active == ["a"] && !OPENED.IsDone();
  }

  /** Resuming the only update that waits, or the first of two. */
  lemma ResumeFirst(s: State, u: Update, rest: seq<Pending>)
    requires Known(s) && "a" in s.orders && s.pending == [Pending("a", u)] + rest && u in {WITHOUT_ID, WITH_ID}
    requires forall p | p in rest :: p.id == "a"
    ensures var s' := Resume(s, 0);
      && Step(s, ResumeCall(0), s', 0) && Known(s') && "a" in s'.orders && s'.pending == rest
      && MarkOf(s', "a") == FilledMark(MarkOf(s, "a"), u)
  {
    hide Apply, CompletedCount, FilledMark;
    var waiting := s.(pending := rest);
    assert s.pending[..0] + s.pending[1..] == rest;
    ApplyFilledMark(waiting, "a", u);
    AppliedParts(waiting, "a", u);
    ApplyKeptKnown(waiting, "a", u);
  }

  /** Two FILLED updates wait together, the first without an exchange id: two completed events. */
  lemma AnnouncedTwice() returns (ss: seq<State>, calls: seq<Call>)
    ensures Run(ss, calls, 0) && |ss| == 6 && CompletedCount(ss[5].log, "a") == 2
  {
    hide Process, Resume, CompletedCount;
    var s1 := Start(EMPTY, "a", OPENED);
    TwoWait(s1);
    var s2 := s1.(pending := [Pending("a", WITHOUT_ID)]);
    var s3 := s1.(pending := [Pending("a", WITHOUT_ID), Pending("a", WITH_ID)]);
    assert s3.pending == [Pending("a", WITHOUT_ID)] + [Pending("a", WITH_ID)];
    ResumeFirst(s3, WITHOUT_ID, [Pending("a", WITH_ID)]);
    var s4 := Resume(s3, 0);
    assert s4.pending == [Pending("a", WITH_ID)] + [];
    ResumeFirst(s4, WITH_ID, []);
    NothingLogged([], "a");
    ss := [EMPTY, s1, s2, s3, s4, Resume(s4, 0)];
    calls := [StartCall("a", OPENED), UpdateCall(WITHOUT_ID), UpdateCall(WITH_ID), ResumeCall(0), ResumeCall(0)];
  }

  lemma ApplyKeptKnown(s: State, id: string, u: Update)
    requires Known(s) && id in s.orders
    ensures Known(Apply(s, id, u))
  {
    hide WithUpdate, Order.IsOpen, Order.IsFilled;
  }
}
