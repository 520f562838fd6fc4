/** The client order tracker: orders move between the active, cached and lost lists as updates,
    fills and not-found reports arrive, and FILLED updates wait for the fills to catch up. */
module OrderTracker {
  import opened Results
  import opened InFlightOrders

  datatype Event =
    | OrderCreated(id: string)
    | OrderFilled(id: string, amount: real)
    | OrderCompleted(id: string, executed: real)
    | OrderCancelled(id: string)
    | OrderFailure(id: string)

  /** A FILLED update waiting for the missing fills; it holds on to its order. */
  datatype Pending = Pending(id: string, update: Update)

  /** `orders` holds every order object by client id; the lists hold ids in insertion order. */
  datatype State = State(
    orders: map<string, Order>, active: seq<string>, cached: seq<string>, lost: seq<string>,
    records: map<string, nat>, pending: seq<Pending>, log: seq<Event>)

  ghost predicate AllIn(ids: seq<string>, orders: map<string, Order>) { forall id | id in ids :: id in orders }

  ghost predicate Known(s: State) {
    && AllIn(s.active, s.orders) && AllIn(s.cached, s.orders) && AllIn(s.lost, s.orders)
    && forall p | p in s.pending :: p.id in s.orders
  }

  // ------------------------------------------------------------------ lookups

  function Remove(ids: seq<string>, id: string): (r: seq<string>)
    ensures forall x :: x in r <==> x in ids && x != id
  {
    if ids == [] then []
    else Remove(ids[..|ids| - 1], id) + if ids[|ids| - 1] == id then [] else [ids[|ids| - 1]]
  }

  function Put(ids: seq<string>, id: string): seq<string> { if id in ids then ids else ids + [id] }

  /** The first listed order with this exchange id. */
  function ByExchange(ids: seq<string>, orders: map<string, Order>, exchangeId: Option<string>): (r: Option<string>)
    requires AllIn(ids, orders)
    ensures r.Some? ==> r.value in ids && orders[r.value].exchangeId == exchangeId
  {
    if ids == [] then None
    else if orders[ids[0]].exchangeId == exchangeId then Some(ids[0])
    else ByExchange(ids[1..], orders, exchangeId)
  }

  /** The update names the order, by client id or by an exchange id that is known. */
  predicate Addressed(o: Order, id: string, u: Update) {
    u.clientId == Some(id) || (u.exchangeId.Some? && u.exchangeId == o.exchangeId)
  }

  /** By client id when it is listed, else by exchange id when one is given. */
  function Fetch(ids: seq<string>, orders: map<string, Order>, u: Update): (r: Option<string>)
    requires AllIn(ids, orders)
    ensures r.Some? ==> r.value in ids && Addressed(orders[r.value], r.value, u)
  {
    if u.clientId.Some? && u.clientId.value in ids then u.clientId
    else if u.exchangeId.Some? then ByExchange(ids, orders, u.exchangeId)
    else None
  }

  // ------------------------------------------------------------------ transitions

  function StopTracking(s: State, id: string): State {
    if id in s.active
    then s.(active := Remove(s.active, id), cached := Put(s.cached, id), records := s.records - {id})
    else s
  }

  function CreationEvents(id: string, before: OrderState, after: OrderState): seq<Event> {
    if before == PendingCreate && after !in {PendingCreate, Canceled, Failed, PendingCancel}
    then [OrderCreated(id)] else []
  }

  function TerminalEvents(id: string, o: Order): seq<Event> {
    if o.state == Canceled then [OrderCancelled(id)]
    else if o.IsFilled() then [OrderCompleted(id, o.executed)]
    else if o.state == Failed then [OrderFailure(id)]
    else []
  }

  function Complete(s: State, id: string): State
    requires id in s.orders
  {
    if s.orders[id].IsOpen() then s
    else StopTracking(s.(log := s.log + TerminalEvents(id, s.orders[id])), id)
  }

  /** The part of an order update after the wait: change the order and tell the world. */
  function Apply(s: State, id: string, u: Update): State
    requires id in s.orders
  {
    var o := s.orders[id];
    var o' := WithUpdate(o, id, u);
    if !Changed(o, o') then s
    else Complete(s.(orders := s.orders[id := o'], log := s.log + CreationEvents(id, o.state, u.newState)), id)
  }

  predicate Blank(id: Option<string>) { id.None? || id.value == "" }

  /** A lost order that reaches a final state after all is forgotten. */
  function RetireLost(s: State, u: Update): State
    requires Known(s)
  {
    var gone := Fetch(s.lost, s.orders, u);
    if gone.Some? && u.newState in {Canceled, Filled, Failed} then s.(lost := Remove(s.lost, gone.value)) else s
  }

  function Process(s: State, u: Update): State
    requires Known(s)
  {
    if Blank(u.clientId) && Blank(u.exchangeId) then s
    else
      var found := Fetch(s.active + s.cached, s.orders, u);
      if found.Some? then
        if u.newState == Filled && !s.orders[found.value].IsDone()
        then s.(pending := s.pending + [Pending(found.value, u)])
        else Apply(s, found.value, u)
      else RetireLost(s, u)
  }

  /** A waiting update goes on, because the fills arrived or because the wait timed out. */
  function Resume(s: State, k: nat): State
    requires Known(s) && k < |s.pending|
  {
    Apply(s.(pending := s.pending[..k] + s.pending[k + 1..]), s.pending[k].id, s.pending[k].update)
  }

  function ProcessTrade(s: State, t: Trade): State
    requires Known(s)
  {
    if t.clientId in s.active + s.cached + s.lost && Accepts(s.orders[t.clientId], t.clientId, t) then
      s.(orders := s.orders[t.clientId := WithTrade(s.orders[t.clientId], t)],
         log := s.log + if t.amount > 0.0 then [OrderFilled(t.clientId, t.amount)] else [])
    else s
  }

  function FailedUpdate(id: string): Update { Update(Some(id), None, Failed) }

  function Reports(s: State, id: string): nat { if id in s.records then s.records[id] else 0 }

  function NotFound(s: State, id: string, limit: int): State
    requires Known(s)
  {
    if id in s.active then
      var counted := s.(records := s.records[id := Reports(s, id) + 1]);
      if Reports(s, id) + 1 > limit && s.orders[id].state !in {Canceled, Filled, Failed} then
        var failed := Process(counted, FailedUpdate(id));
        failed.(cached := Remove(failed.cached, id), lost := Put(failed.lost, id))
      else counted
    else if id in s.lost then Process(s, FailedUpdate(id))
    else s
  }

  function Start(s: State, id: string, o: Order): State {
    s.(orders := s.orders[id := o], active := Put(s.active, id))
  }

  /** A saved order comes back as active when open, as lost when failed, and not at all otherwise. */
  function Restore(s: State, id: string, o: Order): State {
    if o.IsOpen() then Start(s, id, o)
    else if o.state == Failed then s.(orders := s.orders[id := o], lost := Put(s.lost, id))
    else s
  }

  lemma UnchangedIsSame(o: Order, id: string, u: Update)
    ensures !Changed(o, WithUpdate(o, id, u)) ==> WithUpdate(o, id, u) == o
  {
  }

  // ------------------------------------------------------------------ the tracker

  class ClientOrderTracker {
    const limit: int
    var orders: map<string, InFlightOrder>
    var active: seq<string>
    var cached: seq<string>
    var lost: seq<string>
    var records: map<string, nat>
    var pending: seq<Pending>
    var log: seq<Event>

    ghost predicate Valid()
      reads this, orders.Values
    {
      (forall id | id in orders :: orders[id].id == id) && Known(Now())
    }

    ghost function Values(): map<string, Order>
      reads this`orders, orders.Values
    {
      map id | id in orders :: orders[id].Value()
    }

    ghost function Now(): State
      reads this, orders.Values
    {
      State(Values(), active, cached, lost, records, pending, log)
    }

    constructor (limit: int)
      ensures Valid() && this.limit == limit
      ensures Now() == State(map[], [], [], [], map[], [], [])
    {
      this.limit := limit;
      orders, active, cached, lost, records, pending, log := map[], [], [], [], map[], [], [];
    }

    method Register(order: InFlightOrder)
      requires Valid() && order.id !in orders
      modifies this`orders
      ensures Valid() && orders == old(orders)[order.id := order]
      ensures Now() == old(Now()).(orders := old(Values())[order.id := order.Value()])
    {
      orders := orders[order.id := order];
    }

    method StartTrackingOrder(order: InFlightOrder)
      requires Valid() && order.id !in orders
      modifies this
      ensures Valid() && Now() == Start(old(Now()), order.id, order.Value())
    {
      hide Values;
      Register(order);
      active := if order.id in active then active else active + [order.id];
    }

    method RestoreOrder(order: InFlightOrder)
      requires Valid() && order.id !in orders
      modifies this
      ensures Valid() && Now() == Restore(old(Now()), order.id, order.Value())
    {
      hide Values, Start;
      if order.Value().IsOpen() {
        StartTrackingOrder(order);
      } else if order.state == Failed {
        Register(order);
        lost := if order.id in lost then lost else lost + [order.id];
      }
    }

    method StopTrackingOrder(id: string)
      requires Valid()
      modifies this
      ensures Valid() && Now() == StopTracking(old(Now()), id) && orders == old(orders)
    {
      if id in active {
        cached := if id in cached then cached else cached + [id];
        active := Remove(active, id);
        records := records - {id};
      }
    }

    method TriggerOrderCompletion(order: InFlightOrder)
      requires Valid() && order.id in orders && orders[order.id] == order
      modifies this
      ensures Valid() && Now() == Complete(old(Now()), order.id) && orders == old(orders)
    {
      hide Order.IsOpen, StopTracking, TerminalEvents, AllIn;
      ValueOf(order.id);
      if !order.Value().IsOpen() {
        AnnounceTermination(order);
        StopTrackingOrder(order.id);
      }
    }

    method AnnounceTermination(order: InFlightOrder)
      requires Valid()
      modifies this`log
      ensures Valid() && Now() == old(Now()).(log := old(log) + TerminalEvents(order.id, order.Value()))
    {
      hide Order.IsFilled, AllIn;
      if order.state == Canceled {
        log := log + [OrderCancelled(order.id)];
      } else if order.Value().IsFilled() {
        log := log + [OrderCompleted(order.id, order.executed)];
      } else if order.state == Failed {
        log := log + [OrderFailure(order.id)];
      }
    }

    /** What an update does once nothing is left to wait for. */
    method FinishOrderUpdate(id: string, u: Update)
      requires Valid() && id in orders
      modifies this, orders[id]
      ensures Valid() && Now() == Apply(old(Now()), id, u) && orders == old(orders)
    {
      hide WithUpdate, Complete, AllIn, CreationEvents;
      var order := orders[id];
      var before := order.state;
      ghost var s := Now();
      assert s.orders[id] == order.Value();
      UnchangedIsSame(order.Value(), id, u);
      var updated := order.UpdateWithOrderUpdate(u);
      OneOrderChanged(id);
      ghost var t := s.(orders := s.orders[id := WithUpdate(s.orders[id], id, u)]);
      assert Now() == t;
      if updated {
        AnnounceCreation(id, before, u.newState);
        assert Now() == t.(log := t.log + CreationEvents(id, before, u.newState));
        TriggerOrderCompletion(order);
      } else {
        assert s.orders[id := s.orders[id]] == s.orders;
      }
    }

    method AnnounceCreation(id: string, before: OrderState, after: OrderState)
      requires Valid()
      modifies this`log
      ensures Valid() && Now() == old(Now()).(log := old(log) + CreationEvents(id, before, after))
    {
      hide AllIn;
      if before == PendingCreate && after !in {PendingCreate, Canceled, Failed, PendingCancel} {
        log := log + [OrderCreated(id)];
      }
    }

    /** Writing to one order object changes its entry and no other. */
    twostate lemma OneOrderChanged(id: string)
      requires old(Valid()) && unchanged(this) && id in orders
      requires forall other | other in orders && other != id :: unchanged(orders[other])
      ensures Now() == old(Now()).(orders := old(Now()).orders[id := orders[id].Value()])
      ensures Valid()
    {
    }

    method FetchIn(ids: seq<string>, u: Update) returns (found: Option<string>)
      requires Valid() && AllIn(ids, Now().orders)
      ensures found == Fetch(ids, Now().orders, u)
    {
      if u.clientId.Some? && u.clientId.value in ids {
        return u.clientId;
      }
      if u.exchangeId.None? {
        return None;
      }
      ghost var values := Now().orders;
      for k := 0 to |ids|
        invariant ByExchange(ids, values, u.exchangeId) == ByExchange(ids[k..], values, u.exchangeId)
      {
        assert ids[k] in ids && ids[k] in values;
        if orders[ids[k]].exchangeId == u.exchangeId {
          return Some(ids[k]);
        }
        assert ids[k..][1..] == ids[k + 1..];
      }
      return None;
    }

    method FetchOrder(u: Update) returns (found: Option<string>)
      requires Valid()
      ensures AllIn(active + cached, Now().orders) && found == Fetch(active + cached, Now().orders, u)
      ensures found.Some? ==> found.value in orders
    {
      found := FetchIn(active + cached, u);
    }

    method RetireLostOrder(u: Update)
      requires Valid()
      modifies this
      ensures Valid() && Now() == RetireLost(old(Now()), u) && orders == old(orders)
    {
      var gone := FetchIn(lost, u);
      if gone.Some? && u.newState in {Canceled, Filled, Failed} {
        lost := Remove(lost, gone.value);
      }
    }

    method ProcessOrderUpdate(u: Update)
      requires Valid()
      modifies this, orders.Values
      ensures Valid() && Now() == Process(old(Now()), u) && orders == old(orders)
    {
      hide Fetch, Apply, Order.IsDone, RetireLost, Values, AllIn;
      if Blank(u.clientId) && Blank(u.exchangeId) {
        return;
      }
      var found := FetchOrder(u);
      if found.None? {
        RetireLostOrder(u);
        return;
      }
      var order := orders[found.value];
      ValueOf(found.value);
      if u.newState == Filled && !order.Value().IsDone() {
        pending := pending + [Pending(found.value, u)];
      } else {
        FinishOrderUpdate(found.value, u);
      }
    }

    lemma ValueOf(id: string)
      requires id in orders
      ensures id in Now().orders && Now().orders[id] == orders[id].Value()
    {
    }

    lemma KnownId(id: string)
      requires Valid() && id in active + cached + lost
      ensures id in orders
    {
      assert id in Now().active + Now().cached + Now().lost;
    }

    method ResumeOrderUpdate(k: nat)
      requires Valid() && k < |pending|
      modifies this, orders.Values
      ensures Valid() && Now() == Resume(old(Now()), k) && orders == old(orders)
    {
      var p := pending[k];
      pending := pending[..k] + pending[k + 1..];
      FinishOrderUpdate(p.id, p.update);
    }

    method ProcessTradeUpdate(t: Trade)
      requires Valid()
      modifies this, orders.Values
      ensures Valid() && Now() == ProcessTrade(old(Now()), t) && orders == old(orders)
    {
      hide AllIn;
      if t.clientId in active + cached + lost {
        KnownId(t.clientId);
        var order := orders[t.clientId];
        ValueOf(t.clientId);
        var before := order.executed;
        var updated := order.UpdateWithTradeUpdate(t);
        OneOrderChanged(t.clientId);
        if updated && before < order.executed {
          log := log + [OrderFilled(t.clientId, t.amount)];
        }
      }
    }

    method MoveToLost(id: string)
      requires Valid() && id in orders
      modifies this
      ensures Valid() && orders == old(orders)
      ensures var s := old(Now()); Now() == s.(cached := Remove(s.cached, id), lost := Put(s.lost, id))
    {
      cached := Remove(cached, id);
      lost := if id in lost then lost else lost + [id];
    }

    method ProcessOrderNotFound(id: string)
      requires Valid()
      modifies this, orders.Values
      ensures Valid() && Now() == NotFound(old(Now()), id, limit) && orders == old(orders)
    {
      hide Process, Remove, Put;
      if id in active {
        var reports := (if id in records then records[id] else 0) + 1;
        records := records[id := reports];
        if reports > limit && orders[id].state !in {Canceled, Filled, Failed} {
          ProcessOrderUpdate(FailedUpdate(id));
          MoveToLost(id);
        }
      } else if id in lost {
        ProcessOrderUpdate(FailedUpdate(id));
      }
    }
  }
}
