/** What the order tracker keeps in every interleaving of calls and waiting updates. */
module TrackerLaws {
  import opened Results
  import opened InFlightOrders
  import opened OrderTracker

  // ------------------------------------------------------------------ runs

  /** Everything that can happen to the tracker. Cached orders expire whenever they like. */
  datatype Call =
    | StartCall(id: string, order: Order)
    | RestoreCall(id: string, order: Order)
    | StopCall(id: string)
    | UpdateCall(update: Update)
    | ResumeCall(k: nat)
    | TradeCall(trade: Trade)
    | NotFoundCall(id: string)
    | ExpireCall(id: string)

  /** Client ids are unique and not empty, and a new order starts in an open state. */
  ghost predicate Allowed(s: State, call: Call) {
    match call
    case StartCall(id, o) => id !in s.orders && id != "" && o.IsOpen()
    case RestoreCall(id, _) => id !in s.orders && id != ""
    case ResumeCall(k) => k < |s.pending|
    case _ => true
  }

  ghost function Next(s: State, call: Call, limit: int): State
    requires Known(s) && Allowed(s, call)
  {
    match call
    case StartCall(id, o) => Start(s, id, o)
    case RestoreCall(id, o) => Restore(s, id, o)
    case StopCall(id) => StopTracking(s, id)
    case UpdateCall(u) => Process(s, u)
    case ResumeCall(k) => Resume(s, k)
    case TradeCall(t) => ProcessTrade(s, t)
    case NotFoundCall(id) => NotFound(s, id, limit)
    case ExpireCall(id) => s.(cached := Remove(s.cached, id))
  }

  const EMPTY := State(map[], [], [], [], map[], [], [])

  ghost predicate Step(s: State, call: Call, s': State, limit: int) {
    Known(s) && Allowed(s, call) && s' == Next(s, call, limit)
  }

  ghost predicate Run(ss: seq<State>, calls: seq<Call>, limit: int) {
    && |ss| == |calls| + 1 && ss[0] == EMPTY
    && forall k | 0 <= k < |calls| :: Step(ss[k], calls[k], ss[k + 1], limit)
  }

  lemma StepAt(ss: seq<State>, calls: seq<Call>, limit: int, k: nat)
    requires Run(ss, calls, limit) && k < |calls|
    ensures Step(ss[k], calls[k], ss[k + 1], limit) && Known(ss[k])
  {
  }

  // ------------------------------------------------------------------ the invariant

  ghost predicate Separate(s: State) {
    && (forall id | id in s.active :: id !in s.cached && id !in s.lost)
    && (forall id | id in s.cached :: id !in s.lost)
  }

  ghost predicate ActiveOpen(s: State) {
    forall id | id in s.active :: id in s.orders && s.orders[id].IsOpen()
  }

  ghost predicate RecordsBounded(s: State, limit: int) {
    forall id | id in s.records :: id in s.active && 1 <= s.records[id] <= limit
  }

  ghost predicate PendingFits(s: State) {
    forall p | p in s.pending ::
      p.id in s.orders && p.update.newState == Filled && Addressed(s.orders[p.id], p.id, p.update)
  }

  ghost predicate Invariant(s: State, limit: int) {
    && Known(s) && "" !in s.orders
    && Separate(s) && ActiveOpen(s) && RecordsBounded(s, limit) && PendingFits(s)
    && forall e | e in s.log :: e.id in s.orders
  }

  lemma StopKeeps(s: State, id: string, limit: int)
    requires Known(s) && Separate(s) && RecordsBounded(s, limit) && PendingFits(s)
    ensures var s' := StopTracking(s, id);
            Known(s') && Separate(s') && RecordsBounded(s', limit) && PendingFits(s')
  {
    hide Addressed;
  }

  /** An update that names the order leaves every active order open. */
  lemma ApplyKeeps(s: State, id: string, u: Update, limit: int)
    requires Invariant(s, limit) && id in s.orders && Addressed(s.orders[id], id, u)
    ensures Invariant(Apply(s, id, u), limit)
  {
    var o := s.orders[id];
    var o' := WithUpdate(o, id, u);
    if Changed(o, o') {
      var s1 := s.(orders := s.orders[id := o'], log := s.log + CreationEvents(id, o.state, u.newState));
      UpdatedOrderFits(s, id, u, s1);
      CompleteKeeps(s1, id, limit);
    }
  }

  lemma UpdatedOrderFits(s: State, id: string, u: Update, s': State)
    requires Known(s) && Separate(s) && ActiveOpen(s) && PendingFits(s)
    requires id in s.orders && Addressed(s.orders[id], id, u)
    requires s' == s.(orders := s.orders[id := WithUpdate(s.orders[id], id, u)], log := s'.log)
    ensures Known(s') && Separate(s') && PendingFits(s')
    ensures forall x | x in s.active && x != id :: s'.orders[x].IsOpen()
  {
  }

  lemma CompleteKeeps(s: State, id: string, limit: int)
    requires Known(s) && "" !in s.orders && Separate(s) && RecordsBounded(s, limit) && PendingFits(s)
    requires id in s.orders && forall x | x in s.active && x != id :: x in s.orders && s.orders[x].IsOpen()
    requires forall e | e in s.log :: e.id in s.orders
    ensures Invariant(Complete(s, id), limit)
  {
    hide Addressed, Order.IsOpen, Order.IsFilled;
    if !s.orders[id].IsOpen() {
      StopKeeps(s.(log := s.log + TerminalEvents(id, s.orders[id])), id, limit);
    }
  }

  lemma ProcessKeeps(s: State, u: Update, limit: int)
    requires Invariant(s, limit)
    ensures Invariant(Process(s, u), limit)
  {
    hide Apply, Addressed, Order.IsDone, Order.IsOpen;
    if !(Blank(u.clientId) && Blank(u.exchangeId)) {
      var found := Fetch(s.active + s.cached, s.orders, u);
      if found.Some? {
        ApplyKeeps(s, found.value, u, limit);
      }
    }
  }

  lemma ResumeKeeps(s: State, k: nat, limit: int)
    requires Invariant(s, limit) && k < |s.pending|
    ensures Invariant(Resume(s, k), limit)
  {
    hide Apply, Addressed, Order.IsOpen;
    var s1 := s.(pending := s.pending[..k] + s.pending[k + 1..]);
    assert s.pending[k] in s.pending;
    assert forall p | p in s1.pending :: p in s.pending;
    ApplyKeeps(s1, s.pending[k].id, s.pending[k].update, limit);
  }

  lemma TradeKeeps(s: State, t: Trade, limit: int)
    requires Invariant(s, limit)
    ensures Invariant(ProcessTrade(s, t), limit)
  {
    hide Accepts;
  }

  /** A failed update for an active order always takes it out of the active list and its counter with it. */
  lemma FailureCaches(s: State, id: string)
    requires Known(s) && id in s.active && id != "" && s.orders[id].IsOpen() && Separate(s)
    ensures var s' := Process(s, FailedUpdate(id));
      && s' == Apply(s, id, FailedUpdate(id))
      && s'.active == Remove(s.active, id) && s'.cached == Put(s.cached, id) && s'.lost == s.lost
      && s'.records == s.records - {id} && s'.pending == s.pending && s'.orders.Keys == s.orders.Keys
  {
    assert id in s.active + s.cached;
  }

  lemma NotFoundKeeps(s: State, id: string, limit: int)
    requires Invariant(s, limit)
    ensures Invariant(NotFound(s, id, limit), limit)
  {
    hide Invariant, Process, Known, Remove, Put;
    if id in s.active {
      ActiveFacts(s, id, limit);
      if Reports(s, id) + 1 > limit {
        OverLimitKeeps(s, id, limit);
      } else {
        WithinLimitKeeps(s, id, limit);
      }
    } else if id in s.lost {
      ProcessKeeps(s, FailedUpdate(id), limit);
    }
  }

  lemma ActiveFacts(s: State, id: string, limit: int)
    requires Invariant(s, limit) && id in s.active
    ensures id in s.orders && id != "" && s.orders[id].IsOpen()
    ensures s.orders[id].state !in {Canceled, Filled, Failed}
  {
  }

  lemma WithinLimitKeeps(s: State, id: string, limit: int)
    requires Invariant(s, limit) && id in s.active && Reports(s, id) + 1 <= limit
    ensures Invariant(s.(records := s.records[id := Reports(s, id) + 1]), limit)
  {
    hide Addressed, Order.IsOpen;
  }

  lemma UncountedKeeps(s: State, id: string, limit: int)
    requires Invariant(s, limit)
    ensures Invariant(s.(records := s.records - {id}), limit)
  {
    hide Addressed, Order.IsOpen;
  }

  /** Failing an order forgets its counter, so it does not matter what the counter was. */
  lemma FailureForgets(s: State, id: string, n: nat)
    requires Known(s) && id in s.active && id != "" && s.orders[id].IsOpen() && Separate(s)
    ensures var counted, loose := s.(records := s.records[id := n]), s.(records := s.records - {id});
            Known(counted)
            && Process(counted, FailedUpdate(id)) == Apply(loose, id, FailedUpdate(id))
            && id !in Process(counted, FailedUpdate(id)).active && id in Process(counted, FailedUpdate(id)).orders
  {
    hide Apply, Process, Order.IsOpen;
    var counted, loose := s.(records := s.records[id := n]), s.(records := s.records - {id});
    assert Known(counted) && Known(loose);
    FailureCaches(counted, id);
    FailureCaches(loose, id);
    SameButRecords(loose, counted, id, FailedUpdate(id));
    assert counted.records - {id} == loose.records - {id};
  }

  lemma OverLimitKeeps(s: State, id: string, limit: int)
    requires Invariant(s, limit) && id in s.active
    ensures var counted := s.(records := s.records[id := Reports(s, id) + 1]);
            Known(counted)
            && var failed := Process(counted, FailedUpdate(id));
               Invariant(failed.(cached := Remove(failed.cached, id), lost := Put(failed.lost, id)), limit)
  {
    ActiveFacts(s, id, limit);
    FailureForgets(s, id, Reports(s, id) + 1);
    hide Process, Apply, Invariant, Reports, Order.IsOpen;
    var loose := s.(records := s.records - {id});
    UncountedKeeps(s, id, limit);
    ApplyKeeps(loose, id, FailedUpdate(id), limit);
    LostKeeps(Apply(loose, id, FailedUpdate(id)), id, limit);
  }

  lemma LostKeeps(s: State, id: string, limit: int)
    requires Invariant(s, limit) && id !in s.active && id in s.orders
    ensures Invariant(s.(cached := Remove(s.cached, id), lost := Put(s.lost, id)), limit)
  {
    hide Addressed, Order.IsOpen;
  }

  /** Applying an update reads nothing of the counters. */
  lemma SameButRecords(s: State, t: State, id: string, u: Update)
    requires id in s.orders && t == s.(records := t.records)
    ensures var s', t' := Apply(s, id, u), Apply(t, id, u); t' == s'.(records := t'.records)
  {
    hide WithUpdate, Order.IsOpen, Order.IsFilled;
  }

  lemma StopCallKeeps(s: State, id: string, limit: int)
    requires Invariant(s, limit)
    ensures Invariant(StopTracking(s, id), limit)
  {
    hide Addressed, Order.IsOpen;
    StopKeeps(s, id, limit);
  }

  lemma StartKeeps(s: State, id: string, o: Order, limit: int)
    requires Invariant(s, limit) && id !in s.orders && id != "" && o.IsOpen()
    ensures Invariant(Start(s, id, o), limit)
  {
    hide Addressed, Order.IsOpen;
  }

  lemma RestoreKeeps(s: State, id: string, o: Order, limit: int)
    requires Invariant(s, limit) && id !in s.orders && id != ""
    ensures Invariant(Restore(s, id, o), limit)
  {
    hide Addressed, Order.IsOpen, Start;
    if o.IsOpen() {
      StartKeeps(s, id, o, limit);
    }
  }

  lemma ExpireKeeps(s: State, id: string, limit: int)
    requires Invariant(s, limit)
    ensures Invariant(s.(cached := Remove(s.cached, id)), limit)
  {
    hide Addressed, Order.IsOpen;
  }

  lemma StepKeepsInvariant(s: State, call: Call, s': State, limit: int)
    requires Invariant(s, limit) && Step(s, call, s', limit)
    ensures Invariant(s', limit)
  {
    hide Process, Resume, ProcessTrade, NotFound, Restore, Start, StopTracking, Invariant, Remove;
    match call
    case UpdateCall(u) => ProcessKeeps(s, u, limit);
    case ResumeCall(k) => ResumeKeeps(s, k, limit);
    case TradeCall(t) => TradeKeeps(s, t, limit);
    case NotFoundCall(id) => NotFoundKeeps(s, id, limit);
    case StopCall(id) => StopCallKeeps(s, id, limit);
    case StartCall(id, o) => StartKeeps(s, id, o, limit);
    case RestoreCall(id, o) => RestoreKeeps(s, id, o, limit);
    case ExpireCall(id) => ExpireKeeps(s, id, limit);
  }

  /** In every run the three lists share no order, every active order is open, and not-found
      counters belong to active orders and stay within the limit. */
  lemma {:induction false} RunKeepsInvariant(ss: seq<State>, calls: seq<Call>, limit: int, k: nat)
    requires Run(ss, calls, limit) && k < |ss|
    ensures Invariant(ss[k], limit)
  {
    hide Step;
    if k > 0 {
      RunKeepsInvariant(ss, calls, limit, k - 1);
      StepAt(ss, calls, limit, k - 1);
      hide Invariant, Run;
      StepKeepsInvariant(ss[k - 1], calls[k - 1], ss[k], limit);
    }
  }
}
