/** The in-flight order: a state, an optional exchange id and the fills received so far. */
module InFlightOrders {
  import opened Results
  import opened RealFacts

  datatype OrderState =
    | PendingCreate | Open | PendingCancel | Canceled | PartiallyFilled | Filled | Failed
    | PendingApproval | Approved | Created | Completed

  datatype Order = Order(state: OrderState, exchangeId: Option<string>, amount: real, executed: real,
                         fills: map<string, real>)
  {
    predicate IsOpen() { state in {PendingCreate, Open, PartiallyFilled, PendingCancel} }

    /** Executed up to the relative tolerance of Python's `math.isclose`, or beyond. */
    predicate FullyExecuted() { IsClose(executed, amount) || executed >= amount }

    predicate IsDone() { state in {Canceled, Filled, Failed} || FullyExecuted() }
    predicate IsFilled() { state == Filled || (amount != 0.0 && FullyExecuted()) }
  }

  predicate IsClose(x: real, y: real) {
    Abs(x - y) <= 0.000000001 * Max(Abs(x), Abs(y))
  }

  datatype Update = Update(clientId: Option<string>, exchangeId: Option<string>, newState: OrderState)
  datatype Trade = Trade(id: string, clientId: string, exchangeId: string, amount: real)

  predicate Matches(o: Order, id: string, u: Update) { u.clientId == Some(id) || u.exchangeId == o.exchangeId }

  /** A matching update sets the state, and the exchange id when none is known yet. */
  function WithUpdate(o: Order, id: string, u: Update): Order {
    if !Matches(o, id, u) then o
    else o.(state := u.newState, exchangeId := if o.exchangeId.None? then u.exchangeId else o.exchangeId)
  }

  /** What the update reports back: whether the exchange id or the state is new. */
  predicate Changed(o: Order, o': Order) { o.exchangeId != o'.exchangeId || o.state != o'.state }

  predicate Accepts(o: Order, id: string, t: Trade) {
    t.id !in o.fills && (t.clientId == id || o.exchangeId == Some(t.exchangeId))
  }

  function WithTrade(o: Order, t: Trade): Order {
    o.(fills := o.fills[t.id := t.amount], executed := o.executed + t.amount)
  }

  class InFlightOrder {
    const id: string
    const amount: real
    var state: OrderState
    var exchangeId: Option<string>
    var executed: real
    var fills: map<string, real>

    function Value(): Order reads this { Order(state, exchangeId, amount, executed, fills) }

    constructor (id: string, o: Order)
      ensures this.id == id && Value() == o
    {
      this.id, amount, state, exchangeId, executed, fills := id, o.amount, o.state, o.exchangeId, o.executed, o.fills;
    }

    method UpdateWithOrderUpdate(u: Update) returns (updated: bool)
      modifies this
      ensures Value() == WithUpdate(old(Value()), id, u)
      ensures updated == Changed(old(Value()), Value())
    {
      if u.clientId != Some(id) && u.exchangeId != exchangeId {
        return false;
      }
      var before := (exchangeId, state);
      if exchangeId.None? && u.exchangeId.Some? {
        exchangeId := u.exchangeId;
      }
      state := u.newState;
      updated := before != (exchangeId, state);
    }

    method UpdateWithTradeUpdate(t: Trade) returns (updated: bool)
      modifies this
      ensures updated == Accepts(old(Value()), id, t)
      ensures Value() == if updated then WithTrade(old(Value()), t) else old(Value())
    {
      if t.id in fills || (id != t.clientId && exchangeId != Some(t.exchangeId)) {
        return false;
      }
      fills := fills[t.id := t.amount];
      executed := executed + t.amount;
      return true;
    }
  }
}
