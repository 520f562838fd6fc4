/** What each call of the tracker does to the orders and the lists, in plain terms. */
module TrackerTerms {
  import opened Results
  import opened RealFacts
  import opened InFlightOrders
  import opened OrderTracker
  import opened TrackerLaws
  import opened TrackerEvents
  import opened TrackerCompletion
  import opened TrackerAnnouncements

  const OPEN_STATES: set<OrderState> := {PendingCreate, Open, PartiallyFilled, PendingCancel}
  const FINAL_STATES: set<OrderState> := {Canceled, Filled, Failed}

  // ------------------------------------------------------------------ finding an order

  /** The first listed order with this exchange id. */
  ghost predicate FirstWith(ids: seq<string>, orders: map<string, Order>, exchangeId: Option<string>, found: Option<string>)
    requires AllIn(ids, orders)
  {
    if found.None? then forall id | id in ids :: orders[id].exchangeId != exchangeId
    else
      exists i | 0 <= i < |ids| ::
        && ids[i] == found.value && orders[ids[i]].exchangeId == exchangeId
        && forall j | 0 <= j < i :: orders[ids[j]].exchangeId != exchangeId
  }

  lemma {:induction false} FirstByExchange(ids: seq<string>, orders: map<string, Order>, exchangeId: Option<string>)
    requires AllIn(ids, orders)
    ensures FirstWith(ids, orders, exchangeId, ByExchange(ids, orders, exchangeId))
  {
    if ids != [] {
      var rest, found := ids[1..], ByExchange(ids, orders, exchangeId);
      assert ids == [ids[0]] + rest;
      if orders[ids[0]].exchangeId != exchangeId {
        FirstByExchange(rest, orders, exchangeId);
        if found.Some? {
          var i :| 0 <= i < |rest| && rest[i] == found.value && orders[rest[i]].exchangeId == exchangeId
                   && forall j | 0 <= j < i :: orders[rest[j]].exchangeId != exchangeId;
          assert ids[i + 1] == rest[i];
          forall j | 0 <= j < i + 1 ensures orders[ids[j]].exchangeId != exchangeId {
            if j > 0 { assert ids[j] == rest[j - 1]; }
          }
        }
      }
    }
  }

  /** A listed client id decides; otherwise the first order with the exchange id, if one is given. */
  lemma FetchTerms(ids: seq<string>, orders: map<string, Order>, u: Update)
    requires AllIn(ids, orders)
    ensures var found := Fetch(ids, orders, u);
            if u.clientId.Some? && u.clientId.value in ids then found == u.clientId
            else if u.exchangeId.None? then found == None
            else FirstWith(ids, orders, u.exchangeId, found)
  {
    FirstByExchange(ids, orders, u.exchangeId);
  }

  // ------------------------------------------------------------------ updates

  /** The order after an update that reached it. */
  function Reached(o: Order, u: Update): Order {
    Order(u.newState, if o.exchangeId.Some? then o.exchangeId else u.exchangeId, o.amount, o.executed, o.fills)
  }

  /** The order left the active list for the cache, and its counter is gone. */
  ghost predicate Retired(s: State, s': State, id: string) {
    && (forall x :: x in s'.active <==> x in s.active && x != id)
    && (forall x :: x in s'.cached <==> x in s.cached || (x == id && id in s.active))
    && s'.records == (if id in s.active then s.records - {id} else s.records)
  }

  ghost predicate SameLists(s: State, s': State) {
    s'.active == s.active && s'.cached == s.cached && s'.records == s.records
  }

  /** An applied update changes one order, and retires it when that makes it final. */
  lemma ApplyTerms(s: State, id: string, u: Update)
    requires id in s.orders && Addressed(s.orders[id], id, u)
    ensures var s' := Apply(s, id, u);
      && s'.orders == s.orders[id := Reached(s.orders[id], u)] && s'.lost == s.lost && s'.pending == s.pending
      && if News(s.orders[id], u) && u.newState !in OPEN_STATES then Retired(s, s', id) else SameLists(s, s')
  {
    hide CreationEvents, TerminalEvents, News, Addressed, WithUpdate, Changed;
    var o := s.orders[id];
    ChangedIsNews(o, id, u);
    ReachedIs(o, id, u);
    UnchangedIsSame(o, id, u);
    AppliedParts(s, id, u);
  }

  lemma ReachedIs(o: Order, id: string, u: Update)
    requires Addressed(o, id, u)
    ensures WithUpdate(o, id, u) == Reached(o, u)
  {
  }

  lemma DoneIs(o: Order)
    ensures o.IsDone() <==> o.state in FINAL_STATES || FilledUp(o)
  {
    FilledUpIs(o);
  }

  /** What an update does: nothing without an id; otherwise it waits when it says FILLED before the fills are in, is
      applied to the order it names, or takes a lost order off its list when it is final. */
  lemma UpdateTerms(s: State, u: Update)
    requires Known(s)
    ensures AllIn(s.active + s.cached, s.orders)
    ensures var s' := Process(s, u);
            var target, gone := Fetch(s.active + s.cached, s.orders, u), Fetch(s.lost, s.orders, u);
            var named := (u.clientId.Some? && u.clientId.value != "") || (u.exchangeId.Some? && u.exchangeId.value != "");
            if !named then s' == s
            else if target.None? then
              && s' == s.(lost := s'.lost)
              && forall x :: x in s'.lost <==> x in s.lost && !(gone == Some(x) && u.newState in FINAL_STATES)
            else if u.newState == Filled && s.orders[target.value].state !in FINAL_STATES && !FilledUp(s.orders[target.value])
            then s' == s.(pending := s.pending + [Pending(target.value, u)])
            else s' == Apply(s, target.value, u)
  {
    hide Fetch, Apply, Order.IsDone, FilledUp;
    FetchedIsKnown(s, u);
    var target := Fetch(s.active + s.cached, s.orders, u);
    if target.Some? {
      DoneIs(s.orders[target.value]);
    }
  }

  /** A waiting update is taken off the waiting list and applied. */
  lemma ResumeTerms(s: State, k: nat)
    requires Known(s) && k < |s.pending|
    ensures var p := s.pending[k];
            p.id in s.orders
            && Resume(s, k) == Apply(s.(pending := s.pending[..k] + s.pending[k + 1..]), p.id, p.update)
  {
    assert s.pending[k] in s.pending;
  }

  /** What an order itself takes as its own: an update that names its client id or has the same exchange id, even when
      neither has one; a trade it has not seen that names its client id or its known exchange id. */
  lemma OwnTerms(o: Order, id: string, u: Update, t: Trade)
    ensures WithUpdate(o, id, u) == if u.clientId == Some(id) || u.exchangeId == o.exchangeId then Reached(o, u) else o
    ensures Accepts(o, id, t)
       <==> t.id !in o.fills && (t.clientId == id || (o.exchangeId.Some? && t.exchangeId == o.exchangeId.value))
  {
  }

  // ------------------------------------------------------------------ fills and reports

  /** A fill counts once per trade id, for any order still listed; only a positive one is announced. */
  lemma TradeTerms(s: State, t: Trade)
    requires Known(s)
    ensures var listed := t.clientId in s.active || t.clientId in s.cached || t.clientId in s.lost;
            var s' := ProcessTrade(s, t);
            if listed && t.id !in s.orders[t.clientId].fills then
              var o := s.orders[t.clientId];
              && s'.orders == s.orders[t.clientId := Order(o.state, o.exchangeId, o.amount, o.executed + t.amount,
                                                           o.fills[t.id := t.amount])]
              && s' == s.(orders := s'.orders, log := s'.log)
              && s'.log == s.log + if t.amount > 0.0 then [OrderFilled(t.clientId, t.amount)] else []
            else s' == s
  {
  }

  /** A not-found report counts against an active order; past the limit the order fails and is lost. A lost order
      that is not found again is forgotten; any other report changes nothing. */
  lemma NotFoundTerms(s: State, id: string, limit: int)
    requires Invariant(s, limit)
    ensures var s' := NotFound(s, id, limit);
            var reports := (if id in s.records then s.records[id] else 0) + 1;
            if id in s.active then
              if reports <= limit then s' == s.(records := s.records[id := reports])
              else
                && s'.orders == s.orders[id := s.orders[id].(state := Failed)] && s'.pending == s.pending
                && (forall x :: x in s'.active <==> x in s.active && x != id)
                && (forall x :: x in s'.cached <==> x in s.cached)
                && (forall x :: x in s'.lost <==> x in s.lost || x == id)
                && s'.records == s.records - {id}
            else if id in s.lost then s' == s.(lost := s'.lost) && forall x :: x in s'.lost <==> x in s.lost && x != id
            else s' == s
  {
    hide Process, Apply, Invariant;
    InvariantParts(s, limit);
    if id in s.active {
      ActiveFacts(s, id, limit);
      var reports := Reports(s, id) + 1;
      var counted := s.(records := s.records[id := reports]);
      if reports > limit {
        FailureCaches(counted, id);
        FailureReaches(counted, id);
      }
    } else if id in s.lost {
      NamedLost(s, id, limit);
      LostForgotten(s, id);
    }
  }

  lemma FailureReaches(s: State, id: string)
    requires Known(s) && Separate(s) && id in s.active && id in s.orders && s.orders[id].state in OPEN_STATES
    ensures var s' := Apply(s, id, FailedUpdate(id));
      && s'.orders == s.orders[id := s.orders[id].(state := Failed)] && s'.lost == s.lost && s'.pending == s.pending
      && Retired(s, s', id)
  {
    hide Apply;
    ApplyTerms(s, id, FailedUpdate(id));
  }

  lemma NamedLost(s: State, id: string, limit: int)
    requires Invariant(s, limit) && id in s.lost
    ensures id != ""
  {
  }

  lemma LostForgotten(s: State, id: string)
    requires Known(s) && Separate(s) && id in s.lost && id !in s.active && id != ""
    ensures var s' := Process(s, FailedUpdate(id));
            s' == s.(lost := s'.lost) && forall x :: x in s'.lost <==> x in s.lost && x != id
  {
    assert id !in s.active + s.cached;
    assert Fetch(s.lost, s.orders, FailedUpdate(id)) == Some(id);
  }

  // ------------------------------------------------------------------ starting, restoring, stopping

  /** A new order is listed last; a saved one comes back active when open, lost when failed, else not at all. */
  lemma IntroductionTerms(s: State, id: string, o: Order)
    ensures Start(s, id, o) == s.(orders := s.orders[id := o], active := if id in s.active then s.active else s.active + [id])
    ensures o.state in OPEN_STATES ==> Restore(s, id, o) == Start(s, id, o)
    ensures o.state == Failed ==>
              Restore(s, id, o) == s.(orders := s.orders[id := o], lost := if id in s.lost then s.lost else s.lost + [id])
    ensures o.state !in OPEN_STATES && o.state != Failed ==> Restore(s, id, o) == s
  {
  }

  /** Stopping retires an active order and nothing else. */
  lemma StopTerms(s: State, id: string)
    ensures var s' := StopTracking(s, id);
            if id in s.active
            then Retired(s, s', id) && s' == s.(active := s'.active, cached := s'.cached, records := s'.records)
            else s' == s
  {
  }
}
