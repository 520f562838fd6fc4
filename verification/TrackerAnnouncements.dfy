/** Which events one call of the tracker raises for an order, in terms of the update that reaches it. */
module TrackerAnnouncements {
  import opened Results
  import opened RealFacts
  import opened InFlightOrders
  import opened OrderTracker
  import opened TrackerLaws
  import opened TrackerEvents
  import opened TrackerCompletion

  /** The update tells the order something new: another state, or an exchange id it did not have. */
  predicate News(o: Order, u: Update) {
    o.state != u.newState || (o.exchangeId.None? && u.exchangeId.Some?)
  }

  /** Executed up to a relative difference of a billionth, or beyond. */
  predicate FilledUp(o: Order) {
    var gap := if o.executed <= o.amount then o.amount - o.executed else o.executed - o.amount;
    || o.executed >= o.amount
    || gap <= 0.000000001 * (if Abs(o.executed) <= Abs(o.amount) then Abs(o.amount) else Abs(o.executed))
  }

  predicate SaysCreated(o: Order, u: Update) {
    News(o, u) && o.state == PendingCreate && u.newState !in {PendingCreate, Canceled, Failed, PendingCancel}
  }

  predicate SaysCancelled(o: Order, u: Update) { News(o, u) && u.newState == Canceled }

  /** Filled is looked at before failed, so a failure of a filled order is announced as completion. */
  predicate SaysCompleted(o: Order, u: Update) {
    && News(o, u) && u.newState !in {PendingCreate, Open, PartiallyFilled, PendingCancel, Canceled}
    && (u.newState == Filled || (o.amount != 0.0 && FilledUp(o)))
  }

  predicate SaysFailed(o: Order, u: Update) {
    News(o, u) && u.newState == Failed && !(o.amount != 0.0 && FilledUp(o))
  }

  /** The events of one applied update, in order. */
  function Announcements(id: string, o: Order, u: Update): seq<Event> {
    (if SaysCreated(o, u) then [OrderCreated(id)] else [])
    + (if SaysCancelled(o, u) then [OrderCancelled(id)]
       else if SaysCompleted(o, u) then [OrderCompleted(id, o.executed)]
       else if SaysFailed(o, u) then [OrderFailure(id)]
       else [])
  }

  lemma FilledUpIs(o: Order)
    ensures FilledUp(o) <==> o.FullyExecuted()
  {
  }

  lemma ChangedIsNews(o: Order, id: string, u: Update)
    requires Addressed(o, id, u)
    ensures Changed(o, WithUpdate(o, id, u)) <==> News(o, u)
    ensures WithUpdate(o, id, u).state == u.newState
    ensures WithUpdate(o, id, u).(state := o.state, exchangeId := o.exchangeId) == o
  {
  }

  lemma AppliedAnnounces(s: State, id: string, u: Update)
    requires id in s.orders && Addressed(s.orders[id], id, u)
    ensures AppliedEvents(s, id, u) == Announcements(id, s.orders[id], u)
  {
    hide News, FilledUp, Order.FullyExecuted, WithUpdate, Changed, Addressed;
    var o := s.orders[id];
    var o' := WithUpdate(o, id, u);
    ChangedIsNews(o, id, u);
    FilledUpIs(o);
    SameExecution(o, o');
  }

  lemma SameExecution(o: Order, o': Order)
    requires o'.executed == o.executed && o'.amount == o.amount
    ensures o'.FullyExecuted() == o.FullyExecuted()
  {
  }

  // ------------------------------------------------------------------ one call

  function Raised(s: State, us: seq<Update>, id: string): seq<Event>
    requires id in s.orders && |us| <= 1
  {
    if us == [] then [] else Announcements(id, s.orders[id], us[0])
  }

  /** The events about one order, fills aside. */
  predicate About(e: Event, id: string) { e.id == id && !e.OrderFilled? }

  function Concerning(log: seq<Event>, id: string): seq<Event> {
    if log == [] then []
    else
      var last := log[|log| - 1];
      Concerning(log[..|log| - 1], id) + if About(last, id) then [last] else []
  }

  lemma {:induction false} ConcerningConcat(a: seq<Event>, b: seq<Event>, id: string)
    ensures Concerning(a + b, id) == Concerning(a, id) + Concerning(b, id)
  {
    hide About;
    if b == [] {
      assert a + b == a;
    } else {
      assert (a + b)[..|a + b| - 1] == a + b[..|b| - 1];
      ConcerningConcat(a, b[..|b| - 1], id);
    }
  }

  lemma {:induction false} ConcerningAll(es: seq<Event>, id: string)
    ensures (forall e | e in es :: About(e, id)) ==> Concerning(es, id) == es
    ensures (forall e | e in es :: !About(e, id)) ==> Concerning(es, id) == []
  {
    hide About;
    if es != [] {
      var n := |es| - 1;
      assert es == es[..n] + [es[n]];
      ConcerningAll(es[..n], id);
    }
  }

  lemma AnnouncementsAbout(id: string, o: Order, u: Update, x: string)
    ensures Concerning(Announcements(id, o, u), x) == if x == id then Announcements(id, o, u) else []
  {
    hide SaysCreated, SaysCancelled, SaysCompleted, SaysFailed, Concerning;
    ConcerningAll(Announcements(id, o, u), x);
  }

  /** An applied update raises its own announcements and nothing about other orders. */
  lemma ApplyRaises(s: State, id: string, u: Update, x: string)
    requires id in s.orders && Addressed(s.orders[id], id, u)
    ensures Concerning(Apply(s, id, u).log, x)
         == Concerning(s.log, x) + if x == id then Announcements(id, s.orders[id], u) else []
  {
    hide *;
    AppliedParts(s, id, u);
    AppliedAnnounces(s, id, u);
    ConcerningConcat(s.log, AppliedEvents(s, id, u), x);
    AnnouncementsAbout(id, s.orders[id], u, x);
  }

  lemma ProcessRaises(s: State, u: Update, limit: int, id: string)
    requires Known(s) && id in s.orders
    ensures |AppliedTo(s, UpdateCall(u), limit, id)| <= 1
    ensures Concerning(Process(s, u).log, id)
         == Concerning(s.log, id) + Raised(s, AppliedTo(s, UpdateCall(u), limit, id), id)
  {
    hide Apply, Concerning, Announcements, Fetch, Order.IsDone;
    FetchedIsKnown(s, u);
    var found := Fetch(s.active + s.cached, s.orders, u);
    assert Concerning(s.log, id) + [] == Concerning(s.log, id);
    if found.Some? && !(Blank(u.clientId) && Blank(u.exchangeId))
       && !(u.newState == Filled && !s.orders[found.value].IsDone()) {
      ApplyRaises(s, found.value, u, id);
    }
  }

  lemma ResumeRaises(s: State, k: nat, limit: int, id: string)
    requires Known(s) && PendingFits(s) && id in s.orders && k < |s.pending|
    ensures |AppliedTo(s, ResumeCall(k), limit, id)| <= 1
    ensures Concerning(Resume(s, k).log, id)
         == Concerning(s.log, id) + Raised(s, AppliedTo(s, ResumeCall(k), limit, id), id)
  {
    hide Apply, Concerning, Announcements;
    var p := s.pending[k];
    assert p in s.pending;
    ApplyRaises(s.(pending := s.pending[..k] + s.pending[k + 1..]), p.id, p.update, id);
  }

  lemma NotFoundRaises(s: State, x: string, limit: int, id: string)
    requires Invariant(s, limit) && id in s.orders
    ensures |AppliedTo(s, NotFoundCall(x), limit, id)| <= 1
    ensures Concerning(NotFound(s, x, limit).log, id)
         == Concerning(s.log, id) + Raised(s, AppliedTo(s, NotFoundCall(x), limit, id), id)
  {
    hide Process, Apply, Concerning, Announcements, Invariant;
    InvariantParts(s, limit);
    assert Concerning(s.log, id) + [] == Concerning(s.log, id);
    if x in s.active {
      ActiveFacts(s, x, limit);
      var counted := s.(records := s.records[x := Reports(s, x) + 1]);
      if Reports(s, x) + 1 > limit {
        FailureCaches(counted, x);
        ApplyRaises(counted, x, FailedUpdate(x), id);
      }
    } else if x in s.lost {
      LostIsNotFetched(s, x, limit);
    }
  }

  /** One call raises for an order exactly what the update that reaches it says, and nothing when none does. */
  lemma StepAnnounces(s: State, call: Call, s': State, limit: int, id: string)
    requires Invariant(s, limit) && Step(s, call, s', limit) && id in s.orders
    ensures |AppliedTo(s, call, limit, id)| <= 1
    ensures Concerning(s'.log, id) == Concerning(s.log, id) + Raised(s, AppliedTo(s, call, limit, id), id)
  {
    hide Process, Resume, NotFound, Concerning, Invariant, Accepts, Announcements;
    InvariantParts(s, limit);
    assert Concerning(s.log, id) + [] == Concerning(s.log, id);
    match call
    case UpdateCall(u) => ProcessRaises(s, u, limit, id);
    case ResumeCall(k) => ResumeRaises(s, k, limit, id);
    case NotFoundCall(x) => NotFoundRaises(s, x, limit, id);
    case TradeCall(t) =>
      ConcerningConcat(s.log, [OrderFilled(t.clientId, t.amount)], id);
      ConcerningAll([OrderFilled(t.clientId, t.amount)], id);
      assert s.log + [] == s.log;
    case _ =>
  }

  // ------------------------------------------------------------------ a whole run

  /** What one call of a run raises for an order that is known at that moment. */
  ghost function RaisedAt(ss: seq<State>, calls: seq<Call>, limit: int, k: nat, id: string): seq<Event>
    requires k < |calls| && k < |ss|
  {
    var s := ss[k];
    if Known(s) && Allowed(s, calls[k]) && id in s.orders && |AppliedTo(s, calls[k], limit, id)| <= 1
    then Raised(s, AppliedTo(s, calls[k], limit, id), id) else []
  }

  ghost function RaisedBetween(ss: seq<State>, calls: seq<Call>, limit: int, i: nat, j: nat, id: string): seq<Event>
    requires i <= j < |ss| && j <= |calls|
  {
    if i == j then [] else RaisedBetween(ss, calls, limit, i, j - 1, id) + RaisedAt(ss, calls, limit, j - 1, id)
  }

  lemma RaisedNow(ss: seq<State>, calls: seq<Call>, limit: int, k: nat, id: string)
    requires k < |calls| && k + 1 < |ss|
    requires Invariant(ss[k], limit) && Step(ss[k], calls[k], ss[k + 1], limit) && id in ss[k].orders
    ensures Concerning(ss[k + 1].log, id) == Concerning(ss[k].log, id) + RaisedAt(ss, calls, limit, k, id)
  {
    hide Invariant, Concerning, AppliedTo, Next, Raised;
    StepAnnounces(ss[k], calls[k], ss[k + 1], limit, id);
  }

  /** Along a run the events about an order, fills aside, are those its applied updates say, in order. */
  lemma {:induction false} EventsAlongRun(ss: seq<State>, calls: seq<Call>, limit: int, i: nat, j: nat, id: string)
    requires Run(ss, calls, limit) && |ss| == |calls| + 1 && i <= j < |ss| && id in ss[i].orders
    ensures Concerning(ss[j].log, id) == Concerning(ss[i].log, id) + RaisedBetween(ss, calls, limit, i, j, id)
    decreases j
  {
    hide Run, Step, Invariant, Concerning, RaisedAt;
    if i == j {
      assert Concerning(ss[i].log, id) + [] == Concerning(ss[i].log, id);
    } else {
      EventsAlongRun(ss, calls, limit, i, j - 1, id);
      KeptOrder(ss, calls, limit, i, j - 1, id);
      StepAt(ss, calls, limit, j - 1);
      RunKeepsInvariant(ss, calls, limit, j - 1);
      RaisedNow(ss, calls, limit, j - 1, id);
    }
  }

  lemma IntroducedSilently(s: State, call: Call, s': State, limit: int, id: string, o: Order)
    requires Step(s, call, s', limit) && Invariant(s, limit) && Introduces(call, id, o)
    ensures id in s'.orders && Concerning(s'.log, id) == []
  {
    hide Concerning, Order.IsOpen;
    ConcerningAll(s.log, id);
  }

  /** From its introduction on, the events about an order are exactly the ones its applied updates say. */
  lemma EventsSinceIntroduction(ss: seq<State>, calls: seq<Call>, limit: int, i: nat, j: nat, id: string, o: Order)
    requires Run(ss, calls, limit) && i < j < |ss| && |ss| == |calls| + 1 && Introduces(calls[i], id, o)
    ensures Concerning(ss[j].log, id) == RaisedBetween(ss, calls, limit, i + 1, j, id)
  {
    hide Run, Step, Invariant, Introduces, Concerning, RaisedBetween;
    StepAt(ss, calls, limit, i);
    RunKeepsInvariant(ss, calls, limit, i);
    IntroducedSilently(ss[i], calls[i], ss[i + 1], limit, id, o);
    EventsAlongRun(ss, calls, limit, i + 1, j, id);
    assert [] + RaisedBetween(ss, calls, limit, i + 1, j, id) == RaisedBetween(ss, calls, limit, i + 1, j, id);
  }
}
