/** The event-sourced order store (statum-examples/src/showcases/sqlite_event_log_rebuild.rs). */
module OrderStore {
  import opened Common
  import opened Text
  import opened Projection
  import opened Rehydrate

  // ---- Typed states and transitions ----

  datatype OrderContext = OrderContext(orderId: int, customer: string, sku: string)

  datatype OrderState =
    | Created(order: OrderContext)
    | Paid(order: OrderContext, receipt: string)
    | Packed(order: OrderContext, receipt: string, ticket: string)
    | Shipped(order: OrderContext, receipt: string, ticket: string, tracking: string)
    | Delivered(order: OrderContext, receipt: string, ticket: string, tracking: string)

  function PayTransition(s: OrderState, receipt: string): OrderState
    requires s.Created?
  {
    Paid(s.order, receipt)
  }

  function PackTransition(s: OrderState, ticket: string): OrderState
    requires s.Paid?
  {
    Packed(s.order, s.receipt, ticket)
  }

  function ShipTransition(s: OrderState, tracking: string): OrderState
    requires s.Packed?
  {
    Shipped(s.order, s.receipt, s.ticket, tracking)
  }

  function DeliverTransition(s: OrderState): OrderState
    requires s.Shipped?
  {
    Delivered(s.order, s.receipt, s.ticket, s.tracking)
  }

  // ---- Events, projection rows and the reducer ----

  const CREATED := "created"
  const PAID := "paid"
  const PACKED := "packed"
  const SHIPPED := "shipped"
  const DELIVERED := "delivered"

  const PHASES := [CREATED, PAID, PACKED, SHIPPED, DELIVERED]

  datatype EventRow = EventRow(
    eventId: int, orderId: int, eventType: string, customer: Option<string>, sku: Option<string>, value: Option<string>)

  datatype OrderRow = OrderRow(
    orderId: int, customer: string, sku: string, status: string,
    receipt: Option<string>, ticket: Option<string>, tracking: Option<string>)

  datatype RebuildError =
    | InvalidInput(message: string)
    | InvalidTransition(message: string)
    | CorruptEventLog(message: string)
    | NotFound(orderId: int)

  function RequiredText(value: Option<string>, message: string): Result<string, RebuildError> {
    if value.Some? && !Blank(value.value) then Ok(value.value) else Err(CorruptEventLog(message))
  }

  function Seed(e: EventRow): Result<OrderRow, RebuildError> {
    if e.eventType != CREATED then Err(CorruptEventLog("order event stream must start with a created event"))
    else match RequiredText(e.customer, "created event was missing required data")
      case Err(x) => Err(x)
      case Ok(customer) => match RequiredText(e.sku, "created event was missing required data")
        case Err(x) => Err(x)
        case Ok(sku) => Ok(OrderRow(e.orderId, customer, sku, CREATED, None, None, None))
  }

  function Apply(row: OrderRow, e: EventRow): Result<OrderRow, RebuildError> {
    var payload := RequiredText(e.value, "order event was missing required payload data");
    if e.eventType == CREATED then Err(CorruptEventLog("order event stream contained multiple created events"))
    else if e.eventType == PAID then
      match payload case Err(x) => Err(x) case Ok(v) => Ok(row.(status := PAID, receipt := Some(v)))
    else if e.eventType == PACKED then
      match payload case Err(x) => Err(x) case Ok(v) => Ok(row.(status := PACKED, ticket := Some(v)))
    else if e.eventType == SHIPPED then
      match payload case Err(x) => Err(x) case Ok(v) => Ok(row.(status := SHIPPED, tracking := Some(v)))
    else if e.eventType == DELIVERED then Ok(row.(status := DELIVERED))
    else Err(CorruptEventLog("order event stream contained an unknown event type"))
  }

  const PROJECTOR: Reducer<EventRow, OrderRow, RebuildError> := Reducer((e: EventRow) => Seed(e), (p: OrderRow, e: EventRow) => Apply(p, e))

  // ---- The five validators ----

  function ContextOf(row: OrderRow): Option<OrderContext> {
    if row.orderId <= 0 || row.customer == "" || row.sku == "" then None
    else Some(OrderContext(row.orderId, row.customer, row.sku))
  }

  predicate Present(value: Option<string>) {
    value.Some? && !Blank(value.value)
  }

  function IsCreated(row: OrderRow): Result<OrderState, InvalidState> {
    if row.status != CREATED || row.receipt.Some? || row.ticket.Some? || row.tracking.Some? || ContextOf(row).None?
    then Err(InvalidState)
    else Ok(Created(ContextOf(row).value))
  }

  function IsPaid(row: OrderRow): Result<OrderState, InvalidState> {
    if row.status != PAID || row.ticket.Some? || row.tracking.Some? || ContextOf(row).None? || !Present(row.receipt)
    then Err(InvalidState)
    else Ok(Paid(ContextOf(row).value, row.receipt.value))
  }

  function IsPacked(row: OrderRow): Result<OrderState, InvalidState> {
    if row.status != PACKED || row.tracking.Some? || ContextOf(row).None? || !Present(row.receipt) || !Present(row.ticket)
    then Err(InvalidState)
    else Ok(Packed(ContextOf(row).value, row.receipt.value, row.ticket.value))
  }

  predicate HasShipment(row: OrderRow) {
    ContextOf(row).Some? && Present(row.receipt) && Present(row.ticket) && Present(row.tracking)
  }

  function IsShipped(row: OrderRow): Result<OrderState, InvalidState> {
    if row.status != SHIPPED || !HasShipment(row) then Err(InvalidState)
    else Ok(Shipped(ContextOf(row).value, row.receipt.value, row.ticket.value, row.tracking.value))
  }

  function IsDelivered(row: OrderRow): Result<OrderState, InvalidState> {
    if row.status != DELIVERED || !HasShipment(row) then Err(InvalidState)
    else Ok(Delivered(ContextOf(row).value, row.receipt.value, row.ticket.value, row.tracking.value))
  }

  const VALIDATORS: seq<Validator<OrderRow, OrderState, InvalidState>> := [
    Validator("is_created", "Created", false, (row: OrderRow) => IsCreated(row)),
    Validator("is_paid", "Paid", false, (row: OrderRow) => IsPaid(row)),
    Validator("is_packed", "Packed", false, (row: OrderRow) => IsPacked(row)),
    Validator("is_shipped", "Shipped", false, (row: OrderRow) => IsShipped(row)),
    Validator("is_delivered", "Delivered", false, (row: OrderRow) => IsDelivered(row))]

  // ---- Reading the log ----

  function OrderOf(e: EventRow): int {
    e.orderId
  }

  const ORDER_KEY: EventRow -> int := (e: EventRow) => OrderOf(e)

  function EventsFor(log: seq<EventRow>, orderId: int): seq<EventRow> {
    Group(ORDER_KEY, log, orderId)
  }

  const MISMATCH := "projected order row did not match any validator"

  function LoadState(log: seq<EventRow>, orderId: int): Result<OrderState, RebuildError> {
    match Reduced(PROJECTOR, EventsFor(log, orderId))
    case Err(EmptyInput) => Err(NotFound(orderId))
    case Err(Rejected(error)) => Err(error)
    case Ok(row) => match Rebuilt(VALIDATORS, row)
      case Ok(state) => Ok(state)
      case Err(_) => Err(CorruptEventLog(MISMATCH))
  }

  /** MAX(order_id) of the log, or 0, plus 1. */
  function NextOrderId(log: seq<EventRow>): int {
    if log == [] then 1
    else
      var before, last := NextOrderId(log[..|log| - 1]), log[|log| - 1].orderId + 1;
      if |log| == 1 || last > before then last else before
  }

  // ---- Store operations as functions of the log ----

  datatype Command =
    | CreateOrder(customer: string, sku: string)
    | Pay(orderId: int, receipt: string)
    | Pack(orderId: int, ticket: string)
    | Ship(orderId: int, tracking: string)
    | Deliver(orderId: int)

  /** A new order's id, or Done for the other commands. */
  datatype Reply = NewOrder(orderId: int) | Done

  function Appended(
    log: seq<EventRow>, orderId: int, eventType: string, customer: Option<string>, sku: Option<string>, value: Option<string>)
    : seq<EventRow>
  {
    log + [EventRow(|log| + 1, orderId, eventType, customer, sku, value)]
  }

  /** One command on the log: input checks, then the rebuilt state, then the appended event. */
  function StoreStep(log: seq<EventRow>, command: Command): (seq<EventRow>, Result<Reply, RebuildError>) {
    if command.CreateOrder? then
      if Blank(command.customer) then (log, Err(InvalidInput("customer is required")))
      else if Blank(command.sku) then (log, Err(InvalidInput("sku is required")))
      else (Appended(log, NextOrderId(log), CREATED, Some(command.customer), Some(command.sku), None),
            Ok(NewOrder(NextOrderId(log))))
    else AdvanceStep(log, LoadState(log, command.orderId), command)
  }

  /** A command on an existing order, given what loading that order returned. */
  function AdvanceStep(log: seq<EventRow>, loaded: Result<OrderState, RebuildError>, command: Command)
    : (seq<EventRow>, Result<Reply, RebuildError>)
    requires !command.CreateOrder?
  {
    if command.Pay? && Blank(command.receipt) then (log, Err(InvalidInput("payment_receipt is required")))
    else if command.Pack? && Blank(command.ticket) then (log, Err(InvalidInput("pick_ticket is required")))
    else if command.Ship? && Blank(command.tracking) then (log, Err(InvalidInput("tracking_number is required")))
    else match loaded
      case Err(x) => (log, Err(x))
      case Ok(s) =>
        match command
        case Pay(_, receipt) =>
          if !s.Created? then (log, Err(InvalidTransition("pay requires a created order")))
          else (Appended(log, s.order.orderId, PAID, None, None, Some(receipt)), Ok(Done))
        case Pack(_, ticket) =>
          if !s.Paid? then (log, Err(InvalidTransition("pack requires a paid order")))
          else (Appended(log, s.order.orderId, PACKED, None, None, Some(ticket)), Ok(Done))
        case Ship(_, tracking) =>
          if !s.Packed? then (log, Err(InvalidTransition("ship requires a packed order")))
          else (Appended(log, s.order.orderId, SHIPPED, None, None, Some(tracking)), Ok(Done))
        case Deliver(_) =>
          if !s.Shipped? then (log, Err(InvalidTransition("deliver requires a shipped order")))
          else (Appended(log, s.order.orderId, DELIVERED, None, None, None), Ok(Done))
  }

  /** What loading every order returns, in terms of the grouped fold and the validators. */
  ghost predicate IsLoadAllResult(log: seq<EventRow>, result: Result<seq<OrderState>, RebuildError>) {
    exists rows ::
      IsGroupedResult(PROJECTOR, ORDER_KEY, log, rows) &&
      match rows
      case Err(EmptyInput) => result == Err(CorruptEventLog("order event stream was empty"))
      case Err(Rejected(error)) => result == Err(error)
      case Ok(projected) =>
        IsRebuiltRows(projected, result)
  }

  /** Every row's rebuilt state, or the mismatch error when some row has none. */
  ghost predicate IsRebuiltRows(projected: seq<OrderRow>, result: Result<seq<OrderState>, RebuildError>) {
    match result
    case Ok(states) =>
      |states| == |projected| && forall j :: 0 <= j < |states| ==> Rebuilt(VALIDATORS, projected[j]) == Ok(states[j])
    case Err(error) =>
      error == CorruptEventLog(MISMATCH) && exists j :: 0 <= j < |projected| && Rebuilt(VALIDATORS, projected[j]).Err?
  }

  method RebuildRows(projected: seq<OrderRow>) returns (result: Result<seq<OrderState>, RebuildError>)
    ensures IsRebuiltRows(projected, result)
  {
    var states: seq<OrderState> := [];
    for i := 0 to |projected|
      invariant |states| == i
      invariant forall j :: 0 <= j < i ==> Rebuilt(VALIDATORS, projected[j]) == Ok(states[j])
    {
      var built := Build(VALIDATORS, projected[i]);
      if built.Err? {
        return Err(CorruptEventLog(MISMATCH));
      }
      states := states + [built.value];
    }
    return Ok(states);
  }

  // ---- The store ----

  class OrderEventStore {
    var log: seq<EventRow>

    constructor ()
      ensures log == []
    {
      log := [];
    }

    method AppendEvent(orderId: int, eventType: string, customer: Option<string>, sku: Option<string>, value: Option<string>)
      modifies this
      ensures log == Appended(old(log), orderId, eventType, customer, sku, value)
    {
      log := log + [EventRow(|log| + 1, orderId, eventType, customer, sku, value)];
    }

    method Load(orderId: int) returns (result: Result<OrderState, RebuildError>)
      ensures result == LoadState(log, orderId)
    {
      var row := ReduceOne(EventsFor(log, orderId), PROJECTOR);
      match row {
        case Err(EmptyInput) => return Err(NotFound(orderId));
        case Err(Rejected(error)) => return Err(error);
        case Ok(projected) =>
          var built := Build(VALIDATORS, projected);
          if built.Ok? {
            return Ok(built.value);
          }
          return Err(CorruptEventLog(MISMATCH));
      }
    }

    method Create(customer: string, sku: string) returns (result: Result<Reply, RebuildError>)
      modifies this
      ensures (log, result) == StoreStep(old(log), CreateOrder(customer, sku))
    {
      if Blank(customer) {
        return Err(InvalidInput("customer is required"));
      }
      if Blank(sku) {
        return Err(InvalidInput("sku is required"));
      }
      var orderId := NextOrderId(log);
      AppendEvent(orderId, CREATED, Some(customer), Some(sku), None);
      return Ok(NewOrder(orderId));
    }

    method PayOrder(orderId: int, receipt: string) returns (result: Result<Reply, RebuildError>)
      modifies this
      ensures (log, result) == StoreStep(old(log), Pay(orderId, receipt))
    {
      if Blank(receipt) {
        return Err(InvalidInput("payment_receipt is required"));
      }
      var loaded := Load(orderId);
      if loaded.Err? {
        return Err(loaded.error);
      }
      if !loaded.value.Created? {
        return Err(InvalidTransition("pay requires a created order"));
      }
      var next := PayTransition(loaded.value, receipt);
      AppendEvent(next.order.orderId, PAID, None, None, Some(next.receipt));
      return Ok(Done);
    }

    method PackOrder(orderId: int, ticket: string) returns (result: Result<Reply, RebuildError>)
      modifies this
      ensures (log, result) == StoreStep(old(log), Pack(orderId, ticket))
    {
      if Blank(ticket) {
        return Err(InvalidInput("pick_ticket is required"));
      }
      var loaded := Load(orderId);
      if loaded.Err? {
        return Err(loaded.error);
      }
      if !loaded.value.Paid? {
        return Err(InvalidTransition("pack requires a paid order"));
      }
      var next := PackTransition(loaded.value, ticket);
      AppendEvent(next.order.orderId, PACKED, None, None, Some(next.ticket));
      return Ok(Done);
    }

    method ShipOrder(orderId: int, tracking: string) returns (result: Result<Reply, RebuildError>)
      modifies this
      ensures (log, result) == StoreStep(old(log), Ship(orderId, tracking))
    {
      if Blank(tracking) {
        return Err(InvalidInput("tracking_number is required"));
      }
      var loaded := Load(orderId);
      if loaded.Err? {
        return Err(loaded.error);
      }
      if !loaded.value.Packed? {
        return Err(InvalidTransition("ship requires a packed order"));
      }
      var next := ShipTransition(loaded.value, tracking);
      AppendEvent(next.order.orderId, SHIPPED, None, None, Some(next.tracking));
      return Ok(Done);
    }

    method DeliverOrder(orderId: int) returns (result: Result<Reply, RebuildError>)
      modifies this
      ensures (log, result) == StoreStep(old(log), Deliver(orderId))
    {
      var loaded := Load(orderId);
      if loaded.Err? {
        return Err(loaded.error);
      }
      if !loaded.value.Shipped? {
        return Err(InvalidTransition("deliver requires a shipped order"));
      }
      var next := DeliverTransition(loaded.value);
      AppendEvent(next.order.orderId, DELIVERED, None, None, None);
      return Ok(Done);
    }

    /** Projects all orders in one grouped fold and rebuilds each row. */
    method LoadAll() returns (result: Result<seq<OrderState>, RebuildError>)
      ensures IsLoadAllResult(log, result)
    {
      var rows := ReduceGrouped(log, ORDER_KEY, PROJECTOR);
      match rows {
        case Err(EmptyInput) =>
          return Err(CorruptEventLog("order event stream was empty"));
        case Err(Rejected(error)) => return Err(error);
        case Ok(projected) => result := RebuildRows(projected);
      }
    }
  }

  // ---- The reference: typed transitions applied directly, no log ----

  /** Order `id` lives at position `id - 1`. */
  function DirectStep(orders: seq<OrderState>, command: Command): (seq<OrderState>, Result<Reply, RebuildError>) {
    match command
    case CreateOrder(customer, sku) =>
      if Blank(customer) then (orders, Err(InvalidInput("customer is required")))
      else if Blank(sku) then (orders, Err(InvalidInput("sku is required")))
      else (orders + [Created(OrderContext(|orders| + 1, customer, sku))], Ok(NewOrder(|orders| + 1)))
    case Pay(id, receipt) =>
      if Blank(receipt) then (orders, Err(InvalidInput("payment_receipt is required")))
      else if !(1 <= id <= |orders|) then (orders, Err(NotFound(id)))
      else if !orders[id - 1].Created? then (orders, Err(InvalidTransition("pay requires a created order")))
      else (orders[id - 1 := PayTransition(orders[id - 1], receipt)], Ok(Done))
    case Pack(id, ticket) =>
      if Blank(ticket) then (orders, Err(InvalidInput("pick_ticket is required")))
      else if !(1 <= id <= |orders|) then (orders, Err(NotFound(id)))
      else if !orders[id - 1].Paid? then (orders, Err(InvalidTransition("pack requires a paid order")))
      else (orders[id - 1 := PackTransition(orders[id - 1], ticket)], Ok(Done))
    case Ship(id, tracking) =>
      if Blank(tracking) then (orders, Err(InvalidInput("tracking_number is required")))
      else if !(1 <= id <= |orders|) then (orders, Err(NotFound(id)))
      else if !orders[id - 1].Packed? then (orders, Err(InvalidTransition("ship requires a packed order")))
      else (orders[id - 1 := ShipTransition(orders[id - 1], tracking)], Ok(Done))
    case Deliver(id) =>
      if !(1 <= id <= |orders|) then (orders, Err(NotFound(id)))
      else if !orders[id - 1].Shipped? then (orders, Err(InvalidTransition("deliver requires a shipped order")))
      else (orders[id - 1 := DeliverTransition(orders[id - 1])], Ok(Done))
  }

  // ---- The log of one order ----

  /** Number of events an order in this state has. */
  function Phase(s: OrderState): (n: nat)
    ensures 1 <= n <= 5
  {
    match s
    case Created(_) => 1
    case Paid(_, _) => 2
    case Packed(_, _, _) => 3
    case Shipped(_, _, _, _) => 4
    case Delivered(_, _, _, _) => 5
  }

  function TypesOf(events: seq<EventRow>): (r: seq<string>)
    ensures |r| == |events| && forall i :: 0 <= i < |r| ==> r[i] == events[i].eventType
  {
    Map((e: EventRow) => e.eventType, events)
  }

  /** The events are those the transitions to `s` wrote. */
  ghost predicate Records(events: seq<EventRow>, s: OrderState) {
    && |events| == Phase(s)
    && (forall i :: 0 <= i < |events| ==> events[i].orderId == s.order.orderId)
    && events[0].eventType == CREATED && events[0].customer == Some(s.order.customer) && events[0].sku == Some(s.order.sku)
    && (Phase(s) >= 2 ==> events[1].eventType == PAID && events[1].value == Some(s.receipt))
    && (Phase(s) >= 3 ==> events[2].eventType == PACKED && events[2].value == Some(s.ticket))
    && (Phase(s) >= 4 ==> events[3].eventType == SHIPPED && events[3].value == Some(s.tracking))
    && (Phase(s) >= 5 ==> events[4].eventType == DELIVERED)
  }

  /** Every text the state carries is non-blank and its order id is positive. */
  ghost predicate Sane(s: OrderState) {
    && s.order.orderId > 0 && !Blank(s.order.customer) && !Blank(s.order.sku)
    && (Phase(s) >= 2 ==> !Blank(s.receipt))
    && (Phase(s) >= 3 ==> !Blank(s.ticket))
    && (Phase(s) >= 4 ==> !Blank(s.tracking))
  }

  function RowOf(s: OrderState): OrderRow {
    OrderRow(s.order.orderId, s.order.customer, s.order.sku, PHASES[Phase(s) - 1],
             if Phase(s) >= 2 then Some(s.receipt) else None,
             if Phase(s) >= 3 then Some(s.ticket) else None,
             if Phase(s) >= 4 then Some(s.tracking) else None)
  }

  /** The state before the last event. */
  ghost function Before(s: OrderState): OrderState
    requires Phase(s) > 1
  {
    match s
    case Paid(order, _) => Created(order)
    case Packed(order, receipt, _) => Paid(order, receipt)
    case Shipped(order, receipt, ticket, _) => Packed(order, receipt, ticket)
    case Delivered(order, receipt, ticket, tracking) => Shipped(order, receipt, ticket, tracking)
  }

  lemma {:induction false} ReplayGivesRow(events: seq<EventRow>, s: OrderState)
    requires Records(events, s) && Sane(s)
    ensures Reduced(PROJECTOR, events) == Ok(RowOf(s))
    decreases Phase(s)
  {
    if Phase(s) == 1 {
    } else {
      var front := events[..|events| - 1];
      assert Records(front, Before(s)) && Sane(Before(s));
      ReplayGivesRow(front, Before(s));
      assert Apply(RowOf(Before(s)), events[|events| - 1]) == Ok(RowOf(s));
    }
  }

  /** Exactly the validator of the state accepts the state's own row. */
  lemma RowRebuildsState(s: OrderState)
    requires Sane(s)
    ensures Rebuilt(VALIDATORS, RowOf(s)) == Ok(s)
  {
    var row, k := RowOf(s), Phase(s) - 1;
    assert ContextOf(row) == Some(s.order) by {
      NonBlankIsNotEmpty(s.order.customer);
      NonBlankIsNotEmpty(s.order.sku);
    }
    PhasesDiffer();
    assert VALIDATORS[k].check(row) == Ok(s);
    forall j | 0 <= j < k ensures !Accepts(VALIDATORS[j], row) { }
    var first := FirstAccepting(VALIDATORS, row);
    assert first == Some(k);
  }

  lemma NonBlankIsNotEmpty(s: string)
    requires !Blank(s)
    ensures s != ""
  {
  }

  lemma PhasesDiffer()
    ensures Distinct(PHASES)
  {
    assert |CREATED| == 7 && |PAID| == 4 && |PACKED| == 6 && |SHIPPED| == 7 && |DELIVERED| == 9;
    assert CREATED[0] == 'c' && SHIPPED[0] == 's';
  }

  // ---- Any log and any row ----

  /** What the validators ask of a state: names that are not empty, and texts that are not blank. */
  ghost predicate Acceptable(s: OrderState) {
    && s.order.orderId > 0 && s.order.customer != "" && s.order.sku != ""
    && (Phase(s) >= 2 ==> !Blank(s.receipt))
    && (Phase(s) >= 3 ==> !Blank(s.ticket))
    && (Phase(s) >= 4 ==> !Blank(s.tracking))
  }

  lemma RowChecks(row: OrderRow)
    ensures Rebuilt(VALIDATORS, row)
         == if row.status == CREATED then IsCreated(row) else if row.status == PAID then IsPaid(row)
            else if row.status == PACKED then IsPacked(row) else if row.status == SHIPPED then IsShipped(row)
            else if row.status == DELIVERED then IsDelivered(row) else Err(InvalidState)
  {
    PhasesDiffer();
    assert PHASES[0] == CREATED && PHASES[1] == PAID && PHASES[2] == PACKED && PHASES[3] == SHIPPED && PHASES[4] == DELIVERED;
    assert VALIDATORS[0].check(row) == IsCreated(row) && VALIDATORS[1].check(row) == IsPaid(row);
    assert VALIDATORS[2].check(row) == IsPacked(row) && VALIDATORS[3].check(row) == IsShipped(row);
    assert VALIDATORS[4].check(row) == IsDelivered(row);
    var first := FirstAccepting(VALIDATORS, row);
  }

  /** Whatever a row holds: it rebuilds to a state exactly when it is the row of that state and the state is acceptable. */
  lemma RowsRebuildExactly(row: OrderRow, s: OrderState)
    ensures Rebuilt(VALIDATORS, row) == Ok(s) <==> Acceptable(s) && row == RowOf(s)
  {
    RowChecks(row);
    PhasesDiffer();
    assert PHASES[0] == CREATED && PHASES[1] == PAID && PHASES[2] == PACKED && PHASES[3] == SHIPPED && PHASES[4] == DELIVERED;
  }

  /** A created event with its two names, then events of the later types, each but a delivery with its payload. */
  ghost predicate WellFormed(events: seq<EventRow>) {
    && events != [] && events[0].eventType == CREATED && Present(events[0].customer) && Present(events[0].sku)
    && forall k :: 0 < k < |events| ==> Continues(events[k])
  }

  ghost predicate Continues(e: EventRow) {
    e.eventType == DELIVERED || (e.eventType in [PAID, PACKED, SHIPPED] && Present(e.value))
  }

  /** The payload of the last event of the type. */
  ghost function LastValue(events: seq<EventRow>, eventType: string): Option<string> {
    if events == [] then None
    else if events[|events| - 1].eventType == eventType then events[|events| - 1].value
    else LastValue(events[..|events| - 1], eventType)
  }

  /** The row of a well-formed stream: the names of its first event, the type of its last, and the last payload of each type. */
  ghost function RowFrom(events: seq<EventRow>): OrderRow
    requires WellFormed(events)
  {
    OrderRow(events[0].orderId, events[0].customer.value, events[0].sku.value, events[|events| - 1].eventType,
             LastValue(events, PAID), LastValue(events, PACKED), LastValue(events, SHIPPED))
  }

  lemma ApplyMeans(row: OrderRow, e: EventRow)
    ensures Apply(row, e).Ok? <==> Continues(e)
    ensures Apply(row, e).Ok? ==>
              Apply(row, e).value == row.(status := e.eventType,
                                          receipt := if e.eventType == PAID then e.value else row.receipt,
                                          ticket := if e.eventType == PACKED then e.value else row.ticket,
                                          tracking := if e.eventType == SHIPPED then e.value else row.tracking)
    ensures Apply(row, e).Err? ==> Apply(row, e).error.CorruptEventLog?
  {
    TypesDiffer(e);
  }

  lemma TypesDiffer(e: EventRow)
    ensures e.eventType == CREATED ==> e.eventType !in [PAID, PACKED, SHIPPED, DELIVERED]
    ensures e.eventType == PAID ==> e.eventType !in [PACKED, SHIPPED, DELIVERED]
    ensures e.eventType == PACKED ==> e.eventType !in [SHIPPED, DELIVERED]
    ensures e.eventType == SHIPPED ==> e.eventType != DELIVERED
  {
    PhasesDiffer();
    assert PHASES[0] == CREATED && PHASES[1] == PAID && PHASES[2] == PACKED && PHASES[3] == SHIPPED && PHASES[4] == DELIVERED;
  }

  lemma SeedMeans(e: EventRow)
    ensures Seed(e).Ok? <==> WellFormed([e])
    ensures Seed(e).Ok? ==> Seed(e).value == RowFrom([e])
    ensures Seed(e).Err? ==> Seed(e).error.CorruptEventLog?
  {
    TypesDiffer(e);
    var none: seq<EventRow> := [];
    assert [e][..0] == none;
    assert LastValue(none, PAID).None? && LastValue(none, PACKED).None? && LastValue(none, SHIPPED).None?;
  }

  lemma OneEventMore(front: seq<EventRow>, last: EventRow)
    requires front != []
    ensures WellFormed(front + [last]) <==> WellFormed(front) && Continues(last)
    ensures WellFormed(front) && Continues(last) ==> Apply(RowFrom(front), last) == Ok(RowFrom(front + [last]))
    ensures WellFormed(front) && !Continues(last) ==>
              Apply(RowFrom(front), last).Err? && Apply(RowFrom(front), last).error.CorruptEventLog?
  {
    var events := front + [last];
    assert events[..|front|] == front;
    assert forall k :: 0 <= k < |front| ==> events[k] == front[k];
    assert events[|front|] == last;
    if WellFormed(front) {
      ApplyMeans(RowFrom(front), last);
    }
  }

  /** Any stream at all: it replays exactly when it is well formed, to the row it tells; everything else is a corrupt log. */
  lemma {:induction false} ReplayMeans(events: seq<EventRow>)
    requires events != []
    ensures Reduced(PROJECTOR, events).Ok? <==> WellFormed(events)
    ensures WellFormed(events) ==> Reduced(PROJECTOR, events) == Ok(RowFrom(events))
    ensures !WellFormed(events) ==>
              Reduced(PROJECTOR, events).error.Rejected? && Reduced(PROJECTOR, events).error.error.CorruptEventLog?
  {
    var front, last := events[..|events| - 1], events[|events| - 1];
    assert events == front + [last];
    if front == [] {
      assert events == [last];
      SeedMeans(last);
    } else {
      ReplayMeans(front);
      OneEventMore(front, last);
    }
  }

  /** Loading an order from any log: the state whose row its events tell, when they are well formed and it is acceptable. */
  lemma LoadMeans(log: seq<EventRow>, orderId: int, s: OrderState)
    ensures LoadState(log, orderId) == Ok(s) <==>
            WellFormed(EventsFor(log, orderId)) && RowFrom(EventsFor(log, orderId)) == RowOf(s) && Acceptable(s)
    ensures LoadState(log, orderId) == Err(NotFound(orderId)) <==> EventsFor(log, orderId) == []
  {
    var events := EventsFor(log, orderId);
    if events != [] {
      ReplayMeans(events);
      if WellFormed(events) {
        RowsRebuildExactly(RowFrom(events), s);
      }
    }
  }

  // ---- The log of the whole store ----

  /** Order `i + 1` is sane and its events are those its state records. */
  ghost predicate Tracks(log: seq<EventRow>, orders: seq<OrderState>, i: nat)
    requires i < |orders|
  {
    Sane(orders[i]) && orders[i].order.orderId == i + 1 && Records(EventsFor(log, i + 1), orders[i])
  }

  /** The orders are first seen in the log in id order, with no gap. */
  ghost predicate SeenInOrder(log: seq<EventRow>, n: nat) {
    |FirstSeen(ORDER_KEY, log)| == n && forall i :: 0 <= i < n ==> FirstSeen(ORDER_KEY, log)[i] == i + 1
  }

  /** The log is what the direct orders would have written. */
  ghost predicate Mirrors(log: seq<EventRow>, orders: seq<OrderState>) {
    (forall i :: 0 <= i < |orders| ==> Tracks(log, orders, i)) && SeenInOrder(log, |orders|)
  }

  lemma UnknownOrderHasNoEvents(log: seq<EventRow>, orders: seq<OrderState>, id: int)
    requires Mirrors(log, orders) && !(1 <= id <= |orders|)
    ensures EventsFor(log, id) == []
  {
    GroupedKeyIsSeen(ORDER_KEY, log, id);
  }

  /** Replaying an order's events gives the state the typed transitions reached. */
  lemma ReplayCommutes(log: seq<EventRow>, orders: seq<OrderState>, id: int)
    requires Mirrors(log, orders)
    ensures LoadState(log, id) == if 1 <= id <= |orders| then Ok(orders[id - 1]) else Err(NotFound(id))
  {
    if 1 <= id <= |orders| {
      assert Tracks(log, orders, id - 1);
      ReplayGivesRow(EventsFor(log, id), orders[id - 1]);
      RowRebuildsState(orders[id - 1]);
    } else {
      UnknownOrderHasNoEvents(log, orders, id);
    }
  }

  lemma {:induction false} NextIdIsAbove(log: seq<EventRow>, e: EventRow)
    requires e in log
    ensures e.orderId < NextOrderId(log)
  {
    var front, last := log[..|log| - 1], log[|log| - 1];
    if e == last {
    } else {
      NextIdIsAbove(front, e);
    }
  }

  lemma {:induction false} NextIdIsAttained(log: seq<EventRow>) returns (top: EventRow)
    requires log != []
    ensures top in log && top.orderId + 1 == NextOrderId(log)
  {
    top := log[|log| - 1];
    if top.orderId + 1 != NextOrderId(log) {
      top := NextIdIsAttained(log[..|log| - 1]);
    }
  }

  lemma NextIdIsFresh(log: seq<EventRow>, orders: seq<OrderState>)
    requires Mirrors(log, orders)
    ensures NextOrderId(log) == |orders| + 1
  {
    var seen := FirstSeen(ORDER_KEY, log);
    FirstSeenKeys(ORDER_KEY, log);
    if log != [] {
      var top := NextIdIsAttained(log);
      assert ORDER_KEY(top) in seen;
      var k :| 0 <= k < |seen| && seen[k] == top.orderId;
      assert seen[|orders| - 1] in seen;
      var e :| e in log && ORDER_KEY(e) == seen[|orders| - 1];
      NextIdIsAbove(log, e);
    } else {
      assert seen == [];
    }
  }

  /** An appended event joins its own order's group and no other. */
  lemma AppendedGroup(log: seq<EventRow>, e: EventRow, id: int)
    ensures EventsFor(log + [e], id) == EventsFor(log, id) + if e.orderId == id then [e] else []
  {
    GroupAppend(ORDER_KEY, log, e, id);
  }

  lemma AppendedKeys(log: seq<EventRow>, e: EventRow)
    ensures var seen := FirstSeen(ORDER_KEY, log);
            FirstSeen(ORDER_KEY, log + [e]) == if e.orderId in seen then seen else seen + [e.orderId]
  {
    assert (log + [e])[..|log|] == log;
  }

  /** An event of another order leaves an order's record alone. */
  lemma OtherOrderTracked(log: seq<EventRow>, orders: seq<OrderState>, e: EventRow, changed: seq<OrderState>, i: nat)
    requires i < |orders| <= |changed| && Tracks(log, orders, i) && changed[i] == orders[i] && e.orderId != i + 1
    ensures Tracks(log + [e], changed, i)
  {
    AppendedGroup(log, e, i + 1);
    assert EventsFor(log, i + 1) + [] == EventsFor(log, i + 1);
  }

  lemma NewOrderSeen(log: seq<EventRow>, e: EventRow, n: nat)
    requires SeenInOrder(log, n) && e.orderId == n + 1
    ensures SeenInOrder(log + [e], n + 1)
  {
    AppendedKeys(log, e);
    var seen := FirstSeen(ORDER_KEY, log);
    assert forall k :: 0 <= k < |seen| ==> seen[k] != e.orderId;
  }

  lemma KnownOrderSeen(log: seq<EventRow>, e: EventRow, n: nat)
    requires SeenInOrder(log, n) && 1 <= e.orderId <= n
    ensures SeenInOrder(log + [e], n)
  {
    AppendedKeys(log, e);
    assert FirstSeen(ORDER_KEY, log)[e.orderId - 1] == e.orderId;
  }

  lemma CreateKeepsMirror(log: seq<EventRow>, orders: seq<OrderState>, e: EventRow, s: OrderState)
    requires Mirrors(log, orders) && Sane(s) && s.Created?
    requires s.order.orderId == e.orderId == |orders| + 1
    requires e.eventType == CREATED && e.customer == Some(s.order.customer) && e.sku == Some(s.order.sku)
    ensures Mirrors(log + [e], orders + [s])
  {
    NewOrderSeen(log, e, |orders|);
    forall i | 0 <= i < |orders + [s]| ensures Tracks(log + [e], orders + [s], i) {
      if i < |orders| {
        OtherOrderTracked(log, orders, e, orders + [s], i);
      } else {
        UnknownOrderHasNoEvents(log, orders, e.orderId);
        AppendedGroup(log, e, e.orderId);
      }
    }
  }

  /** The event the transition to `s` writes. */
  ghost predicate Writes(e: EventRow, s: OrderState) {
    && Phase(s) > 1 && e.orderId == s.order.orderId && e.eventType == PHASES[Phase(s) - 1]
    && (Phase(s) == 2 ==> e.value == Some(s.receipt))
    && (Phase(s) == 3 ==> e.value == Some(s.ticket))
    && (Phase(s) == 4 ==> e.value == Some(s.tracking))
  }

  lemma RecordsGrow(events: seq<EventRow>, e: EventRow, s: OrderState)
    requires Writes(e, s) && Records(events, Before(s))
    ensures Records(events + [e], s)
  {
  }

  lemma AdvanceKeepsMirror(log: seq<EventRow>, orders: seq<OrderState>, e: EventRow, s: OrderState)
    requires Mirrors(log, orders) && Sane(s) && Writes(e, s)
    requires 1 <= e.orderId <= |orders| && Before(s) == orders[e.orderId - 1]
    ensures Mirrors(log + [e], orders[e.orderId - 1 := s])
  {
    KnownOrderSeen(log, e, |orders|);
    var changed := orders[e.orderId - 1 := s];
    forall i | 0 <= i < |changed| ensures Tracks(log + [e], changed, i) {
      assert Tracks(log, orders, i);
      if i != e.orderId - 1 {
        OtherOrderTracked(log, orders, e, changed, i);
      } else {
        AppendedGroup(log, e, e.orderId);
        RecordsGrow(EventsFor(log, e.orderId), e, s);
      }
    }
  }

  /** Store and direct model reply alike to the command and stay in step. */
  ghost predicate Commutes(log: seq<EventRow>, orders: seq<OrderState>, command: Command) {
    && StoreStep(log, command).1 == DirectStep(orders, command).1
    && Mirrors(StoreStep(log, command).0, DirectStep(orders, command).0)
  }

  lemma CreateCommutes(log: seq<EventRow>, orders: seq<OrderState>, customer: string, sku: string)
    requires Mirrors(log, orders)
    ensures Commutes(log, orders, CreateOrder(customer, sku))
  {
    NextIdIsFresh(log, orders);
    if !Blank(customer) && !Blank(sku) {
      var n := |orders| + 1;
      CreateKeepsMirror(log, orders, EventRow(|log| + 1, n, CREATED, Some(customer), Some(sku), None),
                        Created(OrderContext(n, customer, sku)));
    }
  }

  /** Replies and states agree for a command on an existing order that loads as `loaded`. */
  ghost predicate AdvanceCommutes(
    log: seq<EventRow>, orders: seq<OrderState>, loaded: Result<OrderState, RebuildError>, command: Command)
    requires !command.CreateOrder?
  {
    && AdvanceStep(log, loaded, command).1 == DirectStep(orders, command).1
    && Mirrors(AdvanceStep(log, loaded, command).0, DirectStep(orders, command).0)
  }

  ghost function Direct(orders: seq<OrderState>, id: int): Result<OrderState, RebuildError> {
    if 1 <= id <= |orders| then Ok(orders[id - 1]) else Err(NotFound(id))
  }

  lemma PayWrites(s: OrderState, receipt: string, e: EventRow)
    requires s.Created? && Sane(s) && !Blank(receipt)
    requires e.orderId == s.order.orderId && e.eventType == PAID && e.value == Some(receipt)
    ensures var next := PayTransition(s, receipt); Sane(next) && Writes(e, next) && Before(next) == s
  {
  }

  lemma PayCommutes(log: seq<EventRow>, orders: seq<OrderState>, id: int, receipt: string)
    requires Mirrors(log, orders)
    ensures AdvanceCommutes(log, orders, Direct(orders, id), Pay(id, receipt))
  {
    if !Blank(receipt) && 1 <= id <= |orders| && orders[id - 1].Created? {
      var e := EventRow(|log| + 1, id, PAID, None, None, Some(receipt));
      assert Tracks(log, orders, id - 1);
      PayWrites(orders[id - 1], receipt, e);
      AdvanceKeepsMirror(log, orders, e, PayTransition(orders[id - 1], receipt));
    }
  }

  lemma PackWrites(s: OrderState, ticket: string, e: EventRow)
    requires s.Paid? && Sane(s) && !Blank(ticket)
    requires e.orderId == s.order.orderId && e.eventType == PACKED && e.value == Some(ticket)
    ensures var next := PackTransition(s, ticket); Sane(next) && Writes(e, next) && Before(next) == s
  {
  }

  lemma PackCommutes(log: seq<EventRow>, orders: seq<OrderState>, id: int, ticket: string)
    requires Mirrors(log, orders)
    ensures AdvanceCommutes(log, orders, Direct(orders, id), Pack(id, ticket))
  {
    if !Blank(ticket) && 1 <= id <= |orders| && orders[id - 1].Paid? {
      var e := EventRow(|log| + 1, id, PACKED, None, None, Some(ticket));
      assert Tracks(log, orders, id - 1);
      PackWrites(orders[id - 1], ticket, e);
      AdvanceKeepsMirror(log, orders, e, PackTransition(orders[id - 1], ticket));
    }
  }

  lemma ShipWrites(s: OrderState, tracking: string, e: EventRow)
    requires s.Packed? && Sane(s) && !Blank(tracking)
    requires e.orderId == s.order.orderId && e.eventType == SHIPPED && e.value == Some(tracking)
    ensures var next := ShipTransition(s, tracking); Sane(next) && Writes(e, next) && Before(next) == s
  {
  }

  lemma ShipCommutes(log: seq<EventRow>, orders: seq<OrderState>, id: int, tracking: string)
    requires Mirrors(log, orders)
    ensures AdvanceCommutes(log, orders, Direct(orders, id), Ship(id, tracking))
  {
    if !Blank(tracking) && 1 <= id <= |orders| && orders[id - 1].Packed? {
      var e := EventRow(|log| + 1, id, SHIPPED, None, None, Some(tracking));
      assert Tracks(log, orders, id - 1);
      ShipWrites(orders[id - 1], tracking, e);
      AdvanceKeepsMirror(log, orders, e, ShipTransition(orders[id - 1], tracking));
    }
  }

  lemma DeliverWrites(s: OrderState, e: EventRow)
    requires s.Shipped? && Sane(s)
    requires e.orderId == s.order.orderId && e.eventType == DELIVERED
    ensures var next := DeliverTransition(s); Sane(next) && Writes(e, next) && Before(next) == s
  {
  }

  lemma DeliverCommutes(log: seq<EventRow>, orders: seq<OrderState>, id: int)
    requires Mirrors(log, orders)
    ensures AdvanceCommutes(log, orders, Direct(orders, id), Deliver(id))
  {
    if 1 <= id <= |orders| && orders[id - 1].Shipped? {
      var e := EventRow(|log| + 1, id, DELIVERED, None, None, None);
      assert Tracks(log, orders, id - 1);
      DeliverWrites(orders[id - 1], e);
      AdvanceKeepsMirror(log, orders, e, DeliverTransition(orders[id - 1]));
    }
  }

  lemma AnyAdvanceCommutes(log: seq<EventRow>, orders: seq<OrderState>, command: Command)
    requires Mirrors(log, orders) && !command.CreateOrder?
    ensures AdvanceCommutes(log, orders, Direct(orders, command.orderId), command)
  {
    match command
    case Pay(id, receipt) => PayCommutes(log, orders, id, receipt);
    case Pack(id, ticket) => PackCommutes(log, orders, id, ticket);
    case Ship(id, tracking) => ShipCommutes(log, orders, id, tracking);
    case Deliver(id) => DeliverCommutes(log, orders, id);
  }

  lemma StepIsAdvance(log: seq<EventRow>, orders: seq<OrderState>, command: Command, loaded: Result<OrderState, RebuildError>)
    requires !command.CreateOrder? && LoadState(log, command.orderId) == loaded
    requires AdvanceCommutes(log, orders, loaded, command)
    ensures Commutes(log, orders, command)
  {
  }

  lemma StepCommutes(log: seq<EventRow>, orders: seq<OrderState>, command: Command)
    requires Mirrors(log, orders)
    ensures Commutes(log, orders, command)
  {
    if command.CreateOrder? {
      CreateCommutes(log, orders, command.customer, command.sku);
    } else {
      LaterStepCommutes(log, orders, command);
    }
  }

  lemma LaterStepCommutes(log: seq<EventRow>, orders: seq<OrderState>, command: Command)
    requires Mirrors(log, orders) && !command.CreateOrder?
    ensures Commutes(log, orders, command)
  {
    ReplayCommutes(log, orders, command.orderId);
    AnyAdvanceCommutes(log, orders, command);
    StepIsAdvance(log, orders, command, Direct(orders, command.orderId));
  }

  // ---- Runs ----

  function RunStore(log: seq<EventRow>, commands: seq<Command>): (seq<EventRow>, seq<Result<Reply, RebuildError>>)
    decreases |commands|
  {
    if commands == [] then (log, [])
    else
      var (next, reply) := StoreStep(log, commands[0]);
      var (final, replies) := RunStore(next, commands[1..]);
      (final, [reply] + replies)
  }

  function RunDirect(orders: seq<OrderState>, commands: seq<Command>): (seq<OrderState>, seq<Result<Reply, RebuildError>>)
    decreases |commands|
  {
    if commands == [] then (orders, [])
    else
      var (next, reply) := DirectStep(orders, commands[0]);
      var (final, replies) := RunDirect(next, commands[1..]);
      (final, [reply] + replies)
  }

  lemma {:induction false} RunsCommute(log: seq<EventRow>, orders: seq<OrderState>, commands: seq<Command>)
    requires Mirrors(log, orders)
    ensures RunStore(log, commands).1 == RunDirect(orders, commands).1
    ensures Mirrors(RunStore(log, commands).0, RunDirect(orders, commands).0)
    decreases |commands|
  {
    if commands == [] {
    } else {
      StepCommutes(log, orders, commands[0]);
      RunsCommute(StoreStep(log, commands[0]).0, DirectStep(orders, commands[0]).0, commands[1..]);
    }
  }

  /** Over every sequence of calls on a new store, replies are those of the typed transitions applied directly. */
  lemma StoreRepliesLikeDirect(commands: seq<Command>)
    ensures RunStore([], commands).1 == RunDirect([], commands).1
    ensures Mirrors(RunStore([], commands).0, RunDirect([], commands).0)
  {
    RunsCommute([], [], commands);
  }

  /** Every order's log is a prefix of created, paid, packed, shipped, delivered. */
  lemma LogsArePhasePrefixes(commands: seq<Command>, id: int)
    ensures TypesOf(EventsFor(RunStore([], commands).0, id)) <= PHASES
  {
    var log, orders := RunStore([], commands).0, RunDirect([], commands).0;
    StoreRepliesLikeDirect(commands);
    if 1 <= id <= |orders| {
      assert Tracks(log, orders, id - 1);
    } else {
      UnknownOrderHasNoEvents(log, orders, id);
    }
  }

  /** Replay after any run is the directly reached state, or NotFound; it never reports corruption. */
  lemma LoadIsDirectState(commands: seq<Command>, id: int)
    ensures var log, orders := RunStore([], commands).0, RunDirect([], commands).0;
            LoadState(log, id) == if 1 <= id <= |orders| then Ok(orders[id - 1]) else Err(NotFound(id))
  {
    StoreRepliesLikeDirect(commands);
    ReplayCommutes(RunStore([], commands).0, RunDirect([], commands).0, id);
  }

  lemma {:induction false} DirectNeverCorrupt(orders: seq<OrderState>, commands: seq<Command>, i: nat)
    requires i < |RunDirect(orders, commands).1|
    ensures var reply := RunDirect(orders, commands).1[i]; reply.Ok? || !reply.error.CorruptEventLog?
    decreases |commands|
  {
    if i == 0 {
    } else {
      var next := DirectStep(orders, commands[0]).0;
      DirectNeverCorrupt(next, commands[1..], i - 1);
      assert RunDirect(orders, commands).1[i] == RunDirect(next, commands[1..]).1[i - 1];
    }
  }

  /** No call on a store that started empty ever reports a corrupt log. */
  lemma StoreNeverCorrupt(commands: seq<Command>, i: nat)
    requires i < |RunStore([], commands).1|
    ensures var reply := RunStore([], commands).1[i]; reply.Ok? || !reply.error.CorruptEventLog?
  {
    StoreRepliesLikeDirect(commands);
    DirectNeverCorrupt([], commands, i);
  }

  function RowsOf(orders: seq<OrderState>): (r: seq<OrderRow>)
    ensures |r| == |orders| && forall i :: 0 <= i < |r| ==> r[i] == RowOf(orders[i])
  {
    Map((s: OrderState) => RowOf(s), orders)
  }

  lemma OrderGivesRow(log: seq<EventRow>, orders: seq<OrderState>, i: nat)
    requires Mirrors(log, orders) && i < |orders|
    ensures Reduced(PROJECTOR, Group(ORDER_KEY, log, FirstSeen(ORDER_KEY, log)[i])) == Ok(RowOf(orders[i]))
  {
    assert Tracks(log, orders, i);
    ReplayGivesRow(EventsFor(log, i + 1), orders[i]);
  }

  /** The grouped fold of a mirrored log has only one possible result: one row per order, in id order. */
  lemma GroupedRowsOfMirror(log: seq<EventRow>, orders: seq<OrderState>, rows: Result<seq<OrderRow>, ProjectionError<RebuildError>>)
    requires Mirrors(log, orders) && IsGroupedResult(PROJECTOR, ORDER_KEY, log, rows)
    ensures rows == Ok(RowsOf(orders))
  {
    var keys := FirstSeen(ORDER_KEY, log);
    forall i | 0 <= i < |keys| ensures Reduced(PROJECTOR, Group(ORDER_KEY, log, keys[i])) == Ok(RowsOf(orders)[i]) {
      OrderGivesRow(log, orders, i);
    }
    GroupedResultIsUnique(PROJECTOR, ORDER_KEY, log, rows, Ok(RowsOf(orders)));
  }

  lemma LoadAllOfMirror(log: seq<EventRow>, orders: seq<OrderState>, result: Result<seq<OrderState>, RebuildError>)
    requires Mirrors(log, orders) && IsLoadAllResult(log, result)
    ensures result == Ok(orders)
  {
    forall rows | IsGroupedResult(PROJECTOR, ORDER_KEY, log, rows) ensures rows == Ok(RowsOf(orders)) {
      GroupedRowsOfMirror(log, orders, rows);
    }
    forall i | 0 <= i < |orders| ensures Rebuilt(VALIDATORS, RowsOf(orders)[i]) == Ok(orders[i]) {
      assert Tracks(log, orders, i);
      RowRebuildsState(orders[i]);
    }
    assert result.Ok? && result.value == orders;
  }

  /** Loading all orders gives each order's loaded state, in creation order. */
  lemma LoadAllIsLoadEach(commands: seq<Command>, result: Result<seq<OrderState>, RebuildError>, id: int)
    requires IsLoadAllResult(RunStore([], commands).0, result)
    ensures result == Ok(RunDirect([], commands).0)
    ensures 1 <= id <= |result.value| ==> LoadState(RunStore([], commands).0, id) == Ok(result.value[id - 1])
  {
    StoreRepliesLikeDirect(commands);
    LoadAllOfMirror(RunStore([], commands).0, RunDirect([], commands).0, result);
    LoadIsDirectState(commands, id);
  }
}
