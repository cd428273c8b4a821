/** From what couriers and platforms report to one outcome per order, and from the outcome to ledger and stock. */
module CarrierOutcome {
  import opened Basics
  import opened OrderStock
  import opened StockSettlement
  import opened StockRuns
  import opened StockAccounts
  import opened Catalogue
  import Stock = OrderStock
  import Ledger = OrderLedger

  // ---- Platform timelines ----

  datatype EventType =
    | ORDER_CREATED | ORDER_CONFIRMED | ORDER_CANCELLED | ORDER_CLOSED
    | PAYMENT_PENDING | PAYMENT_AUTHORIZED | PAYMENT_PAID | PAYMENT_PARTIALLY_PAID | PAYMENT_REFUNDED | PAYMENT_VOIDED
    | FULFILLMENT_PENDING | FULFILLMENT_CREATED | LABEL_CREATED | PICKED_UP | IN_TRANSIT | OUT_FOR_DELIVERY
    | DELIVERED | DELIVERY_FAILED | FULFILLMENT_CANCELLED
    | RETURN_REQUESTED | RETURN_IN_TRANSIT | RETURNED
    | CUSTOMER_BLACKLISTED_WARNING | DUPLICATE_ORDER_CANCELLED | OTHER

  datatype TimelineEvent = TimelineEvent(kind: EventType, occurredAt: int)

  const STATUS_PRIORITY: seq<EventType> := [
    DELIVERED, RETURN_IN_TRANSIT, RETURNED, RETURN_REQUESTED, OUT_FOR_DELIVERY, DELIVERY_FAILED, IN_TRANSIT, PICKED_UP,
    LABEL_CREATED, FULFILLMENT_CANCELLED, FULFILLMENT_CREATED, FULFILLMENT_PENDING, ORDER_CANCELLED, PAYMENT_REFUNDED,
    PAYMENT_VOIDED, PAYMENT_PAID, PAYMENT_PARTIALLY_PAID, PAYMENT_AUTHORIZED, PAYMENT_PENDING, ORDER_CLOSED,
    ORDER_CONFIRMED, ORDER_CREATED, OTHER
  ]

  predicate IsFailure(k: EventType) {
    k == ORDER_CANCELLED || k == FULFILLMENT_CANCELLED || k == DELIVERY_FAILED || k == RETURNED
  }

  predicate IsShippedFailure(k: EventType) { k == DELIVERY_FAILED || k == RETURNED }

  predicate IsTerminal(k: EventType) { k == DELIVERED || IsFailure(k) }

  function FirstPresent(priority: seq<EventType>, present: set<EventType>): Option<EventType> {
    if priority == [] then None
    else if priority[0] in present then Some(priority[0])
    else FirstPresent(priority[1..], present)
  }

  /** The display status: the most advanced type present, whenever it happened. */
  function CurrentStatus(events: seq<TimelineEvent>): Option<EventType> {
    if events == [] then None
    else
      var best := FirstPresent(STATUS_PRIORITY, set e | e in events :: e.kind);
      if best.Some? then best else Some(events[0].kind)
  }

  /** The last terminal event; of simultaneous ones the first listed. */
  function Latest(events: seq<TimelineEvent>): Option<TimelineEvent> {
    if events == [] then None
    else
      var e, earlier := events[|events| - 1], Latest(events[..|events| - 1]);
      if IsTerminal(e.kind) && (earlier == None || e.occurredAt > earlier.value.occurredAt) then Some(e) else earlier
  }

  function TerminalOutcome(events: seq<TimelineEvent>): Option<EventType> {
    match Latest(events)
    case None => None
    case Some(e) => Some(e.kind)
  }

  lemma {:induction false} LatestIsLast(events: seq<TimelineEvent>)
    ensures Latest(events) == None <==> forall e :: e in events ==> !IsTerminal(e.kind)
    ensures Latest(events).Some? ==>
              && Latest(events).value in events && IsTerminal(Latest(events).value.kind)
              && forall e :: e in events && IsTerminal(e.kind) ==> e.occurredAt <= Latest(events).value.occurredAt
  {
    if events != [] {
      LatestIsLast(events[..|events| - 1]);
      assert events == events[..|events| - 1] + [events[|events| - 1]];
    }
  }

  /** No two terminal events at the same instant. */
  ghost predicate DistinctTimes(stored: multiset<TimelineEvent>) {
    forall e, f :: e in stored && f in stored && IsTerminal(e.kind) && IsTerminal(f.kind) &&
                   e.occurredAt == f.occurredAt ==>
                     e == f
  }

  lemma SameMembers(events: seq<TimelineEvent>, stored: multiset<TimelineEvent>)
    requires multiset(events) == stored
    ensures forall e :: e in events <==> e in stored
  {
    assert forall e :: e in events <==> e in multiset(events);
  }

  /** With distinct times the outcome does not depend on the order in which events are read: it is the type of the
      chronologically last terminal event. */
  lemma OutcomeIsChronological(events: seq<TimelineEvent>, stored: multiset<TimelineEvent>, last: TimelineEvent)
    requires multiset(events) == stored && DistinctTimes(stored)
    requires last in stored && IsTerminal(last.kind)
    requires forall e :: e in stored && IsTerminal(e.kind) ==> e.occurredAt <= last.occurredAt
    ensures TerminalOutcome(events) == Some(last.kind)
  {
    SameMembers(events, stored);
    LatestIsLast(events);
  }

  function Terminals(events: seq<TimelineEvent>): seq<TimelineEvent> {
    if events == [] then []
    else
      Terminals(events[..|events| - 1]) +
      (if IsTerminal(events[|events| - 1].kind) then [events[|events| - 1]] else [])
  }

  /** Non-terminal events never matter, wherever they are. */
  lemma {:induction false} OnlyTerminalsMatter(events: seq<TimelineEvent>)
    ensures Latest(events) == Latest(Terminals(events))
  {
    if events != [] {
      OnlyTerminalsMatter(events[..|events| - 1]);
      if IsTerminal(events[|events| - 1].kind) {
        assert Terminals(events)[..|Terminals(events)| - 1] == Terminals(events[..|events| - 1]);
      } else {
        assert Terminals(events) == Terminals(events[..|events| - 1]);
      }
    }
  }

  /** The display status never leaves DELIVERED, even where the outcome is a later return. */
  lemma DisplayIsNotOutcome(events: seq<TimelineEvent>, delivered: TimelineEvent, returned: TimelineEvent)
    requires delivered in events && delivered.kind == DELIVERED
    requires returned in events && returned.kind == RETURNED
    requires forall e :: e in events && IsTerminal(e.kind) && e != returned ==> e.occurredAt < returned.occurredAt
    ensures CurrentStatus(events) == Some(DELIVERED) && TerminalOutcome(events) == Some(RETURNED)
  {
    var present := set e | e in events :: e.kind;
    assert DELIVERED in present;
    LatestIsLast(events);
  }

  // ---- Syncing the ledger ----

  /** The latest delivery on the timeline, from the epoch on. */
  function DeliveredAt(events: seq<TimelineEvent>): int {
    if events == [] then 0
    else
      var e, earlier := events[|events| - 1], DeliveredAt(events[..|events| - 1]);
      if e.kind == DELIVERED && e.occurredAt > earlier then e.occurredAt else earlier
  }

  function TimelineReport(events: seq<TimelineEvent>, t: Ledger.Terms, c: Ledger.Charge): Option<Ledger.Report> {
    match TerminalOutcome(events)
    case None => None
    case Some(k) => if k == DELIVERED then Some(Ledger.Delivered(t, c)) else Some(Ledger.Failed(IsShippedFailure(k), c))
  }

  lemma {:induction false} FirstPresentIs(priority: seq<EventType>, present: set<EventType>) returns (j: nat)
    ensures j <= |priority| && forall i :: 0 <= i < j ==> priority[i] !in present
    ensures FirstPresent(priority, present) == if j < |priority| then Some(priority[j]) else None
    ensures j < |priority| ==> priority[j] in present
  {
    if priority == [] || priority[0] in present {
      return 0;
    }
    j := FirstPresentIs(priority[1..], present);
    j := j + 1;
  }

  /** The display status is the first type of the list that is present, whenever it happened. */
  lemma DisplayIsMostAdvanced(events: seq<TimelineEvent>) returns (j: nat)
    requires events != []
    ensures j <= |STATUS_PRIORITY| && forall i, e :: 0 <= i < j && e in events ==> e.kind != STATUS_PRIORITY[i]
    ensures j < |STATUS_PRIORITY| ==>
              && CurrentStatus(events) == Some(STATUS_PRIORITY[j])
              && exists e :: e in events && e.kind == STATUS_PRIORITY[j]
  {
    hide STATUS_PRIORITY;
    var present := set e | e in events :: e.kind;
    j := FirstPresentIs(STATUS_PRIORITY, present);
    assert forall e :: e in events ==> e.kind in present;
  }

  datatype ShipmentStatus =
    | Pending | Confirmed | PickupPending | PickedUp | AtWarehouse | InTransit | OutForDelivery | Postponed
    | Unreachable | ShipmentDelivered | Cancelled | Refused
    | ReturnPending | ReturnInTransit | ReturnedToWarehouse | ReturnInspection
    | ReturnedToStock | ReturnedToSeller | Unknown

  predicate IsShippedFailureStatus(s: ShipmentStatus) {
    s.Refused? || s.ReturnedToSeller? || s.ReturnedToWarehouse? || s.ReturnInspection? || s.ReturnedToStock?
  }

  predicate IsFailureStatus(s: ShipmentStatus) { s.Cancelled? || IsShippedFailureStatus(s) }

  function ShipmentReport(s: ShipmentStatus, t: Ledger.Terms, c: Ledger.Charge): Option<Ledger.Report> {
    if s.ShipmentDelivered? then Some(Ledger.Delivered(t, c))
    else if IsFailureStatus(s) then Some(Ledger.Failed(IsShippedFailureStatus(s), c))
    else None
  }

  // ---- Stock follows the same outcome ----

  /** An order's ledger and the store its stock is in change together. */
  datatype OrderState = OrderState(ledger: Ledger.Events, stock: Store)

  function FlowFor(report: Ledger.Report, deliveredAt: Option<int>): Flow {
    if report.Delivered? then DeliverFlow(deliveredAt) else ReleaseFlow
  }

  function SyncOrder(o: OrderState, ids: seq<LineId>, r: Option<Ledger.Report>, deliveredAt: Option<int>): OrderState {
    match r
    case None => o
    case Some(report) =>
      OrderState(Ledger.Book(o.ledger, report), ApplyAll(o.stock, ids, FlowFor(report, deliveredAt)))
  }

  /** After a sync with an outcome, the ledger stands as reported and each line was delivered or released as far as it
      can be. It ends without reservations exactly when it held nothing, was marked reserved or, delivered unmarked,
      held only items of its product. */
  lemma StockFollowsLedger(o: OrderState, ids: seq<LineId>, report: Ledger.Report, deliveredAt: Option<int>)
    requires Ledger.WellBooked(o.ledger) && BookLegal(o.stock.accounts) && !report.Loss?
    ensures var after := SyncOrder(o, ids, Some(report), deliveredAt);
            && Ledger.WellBooked(after.ledger)
            && (Ledger.IsDelivered(after.ledger) <==> report.Delivered?)
            && BookLegal(after.stock.accounts)
            && forall l :: l in ids && l in o.stock.lines ==>
                 && l in after.stock.lines && Followed(after.stock, l, FlowFor(report, deliveredAt))
                 && (HoldsNothing(after.stock, l) <==> Clears(o.stock, l, FlowFor(report, deliveredAt)))
  {
    hide Ledger.WellBooked, Ledger.LastOutcome, Ledger.Book, ApplyAll, BookLegal, HoldsNothing, Clears, Followed;
    var flow := FlowFor(report, deliveredAt);
    Ledger.BookKeepsBooks(o.ledger, report);
    EachLineItsOwnFlow(o.stock, ids, flow, 0);
    forall l | l in ids && l in o.stock.lines
      ensures l in ApplyAll(o.stock, ids, flow).lines && Followed(ApplyAll(o.stock, ids, flow), l, flow)
      ensures HoldsNothing(ApplyAll(o.stock, ids, flow), l) <==> Clears(o.stock, l, flow)
    {
      OrderSettlesExactly(o.stock, ids, flow, l);
    }
  }

  /** What each courier status does to an order's ledger. A delivery makes it stand as delivered, a cancelled, refused
      or returned parcel makes it not; before any outcome the parcels that travelled and came back are charged their
      shipping, and no other status touches the ledger. */
  lemma CourierStatusBooks(s: Ledger.Events, status: ShipmentStatus, t: Ledger.Terms, c: Ledger.Charge)
    requires Ledger.WellBooked(s)
    ensures var r := ShipmentReport(status, t, c);
            var after := if r.Some? then Ledger.Book(s, r.value) else s;
            var back := {Refused, ReturnedToSeller, ReturnedToWarehouse, ReturnInspection, ReturnedToStock};
            && (Ledger.IsDelivered(after) <==>
                status == ShipmentDelivered || (Ledger.IsDelivered(s) && status != Cancelled && status !in back))
            && (Ledger.LastOutcome(s) == None && Ledger.ShippingCharges(s) == 0 ==>
                  (if status in back then ShippingTaken(s, after, c) else status == ShipmentDelivered || after == s))
            && (status != ShipmentDelivered && status != Cancelled && status !in back ==> after == s)
  {
    hide Ledger.LastOutcome, Ledger.WellBooked, Ledger.Recognize, Ledger.Reverse, Ledger.ChargeShipping,
         Ledger.ShippingCharges;
    var r := ShipmentReport(status, t, c);
    if r.Some? {
      Ledger.BookKeepsBooks(s, r.value);
      FailureBooks(s, c);
    }
  }

  /** Profit pays the courier's fee when known, otherwise what the customer was charged, if positive. */
  ghost predicate ShippingTaken(s: Ledger.Events, after: Ledger.Events, c: Ledger.Charge) {
    var b, amount := Ledger.SummaryOf(s), Max(if c.fee.Some? then c.fee.value else c.shipping, 0);
    Ledger.SummaryOf(after) == b.(shippingCost := b.shippingCost + amount, netProfit := b.netProfit - amount)
  }

  lemma FailureBooks(s: Ledger.Events, c: Ledger.Charge)
    requires Ledger.WellBooked(s)
    ensures Ledger.LastOutcome(s) == None ==> Ledger.Reverse(s) == s
    ensures Ledger.LastOutcome(s) == None && Ledger.ShippingCharges(s) == 0 ==>
              ShippingTaken(s, Ledger.ChargeShipping(Ledger.Reverse(s), c), c)
  {
    hide Ledger.LastOutcome, Ledger.WellBooked, Ledger.Reverse, Ledger.ChargeShipping, Ledger.ShippingCharges,
         Ledger.SummaryOf;
    Ledger.ReverseSwitches(s);
    if Ledger.LastOutcome(s) == None {
      Ledger.ShippingIsCharged(s, c);
    }
  }

  /** The same for the timeline of an undispatched order: failed deliveries and returns are charged,
      cancellations not. */
  lemma TimelineBooks(s: Ledger.Events, events: seq<TimelineEvent>, t: Ledger.Terms, c: Ledger.Charge)
    requires Ledger.WellBooked(s)
    ensures var r := TimelineReport(events, t, c);
            var after := if r.Some? then Ledger.Book(s, r.value) else s;
            var kind := TerminalOutcome(events);
            && (kind == None ==> after == s)
            && (kind.Some? ==> (Ledger.IsDelivered(after) <==> kind == Some(DELIVERED)))
            && (Ledger.LastOutcome(s) == None && Ledger.ShippingCharges(s) == 0 && kind.Some? ==>
                  (if kind.value in {DELIVERY_FAILED, RETURNED} then ShippingTaken(s, after, c)
                   else kind == Some(DELIVERED) || after == s))
  {
    hide Ledger.LastOutcome, Ledger.WellBooked, Ledger.Recognize, Ledger.Reverse, Ledger.ChargeShipping,
         Ledger.ShippingCharges, TerminalOutcome;
    var r := TimelineReport(events, t, c);
    if r.Some? {
      Ledger.BookKeepsBooks(s, r.value);
      FailureBooks(s, c);
    }
  }

  /** Where it falls short: a dispatch whose reservation stopped after one movement leaves the line unmarked, and no
      failure the courier reports gives that stock back. */
  lemma FailureLeavesInterrupted(o: OrderState, ids: seq<LineId>, l: LineId, u: Unit, report: Ledger.Report,
                                 deliveredAt: Option<int>)
    requires BookLegal(o.stock.accounts) && FirstMovement(o.stock, l, u) && l in ids && report.Failed?
    ensures var interrupted := Stock.Next(o.stock, Stock.ReserveMovement(l, u.item, u.quantity));
            var after := SyncOrder(o.(stock := interrupted), ids, Some(report), deliveredAt);
            NetReserved(AccountOf(after.stock.accounts, u.item).log, l) ==
            Min(u.quantity, AccountOf(o.stock.accounts, u.item).balance.Available()) > 0
  {
    hide FirstMovement, ApplyAll, BookLegal, NetReserved, Stock.Next;
    CancellationLeavesInterrupted(o.stock, l, u, ids, map[]);
  }

  // ---- Runs of one order ----

  /** An order with the timeline events stored for it and the lines it may have; ids not in the store are passed by. */
  datatype Tracked = Tracked(stored: multiset<TimelineEvent>, ids: seq<LineId>, order: OrderState)

  /** While the order is not dispatched timeline events arrive, or none, and it is synced from the events in whatever
      order they are read; a courier status that is not terminal reserves its stock first, in the same transaction.
      Once dispatched it is synced from courier statuses. The warehouse sets losses, and any stock step may fall in
      between. */
  datatype Step =
    | Arrival(events: multiset<TimelineEvent>, read: seq<TimelineEvent>, reserves: bool, terms: Ledger.Terms,
              charge: Ledger.Charge)
    | CourierSync(status: ShipmentStatus, terms: Ledger.Terms, charge: Ledger.Charge)
    | LossSet(line: LineId, target: int, uuid: nat)
    | StockStep(step: Stock.Step)

  function ReportOf(step: Step): Option<Ledger.Report> {
    match step
    case Arrival(_, read, _, t, c) => TimelineReport(read, t, c)
    case CourierSync(status, t, c) => ShipmentReport(status, t, c)
    case _ => None
  }

  function FlowOf(step: Step): Flow
    requires ReportOf(step).Some?
  {
    FlowFor(ReportOf(step).value, if step.Arrival? then Some(DeliveredAt(step.read)) else None)
  }

  /** The order as a sync finds it. */
  function Found(o: Tracked, step: Step): OrderState {
    if step.Arrival? && step.reserves then o.order.(stock := ApplyAll(o.order.stock, o.ids, ReserveFlow)) else o.order
  }

  ghost predicate CanStep(o: Tracked, step: Step) {
    match step
    case Arrival(events, read, _, _, _) => multiset(read) == o.stored + events
    case StockStep(s) => Stock.Enabled(o.order.stock, s)
    case _ => true
  }

  function Next(o: Tracked, step: Step): Tracked {
    match step
    case Arrival(events, read, _, _, _) =>
      o.(stored := o.stored + events,
         order := SyncOrder(Found(o, step), o.ids, ReportOf(step), Some(DeliveredAt(read))))
    case CourierSync(_, _, _) => o.(order := SyncOrder(o.order, o.ids, ReportOf(step), None))
    case LossSet(line, target, uuid) =>
      o.(order := o.order.(ledger := Ledger.Book(o.order.ledger, Ledger.Loss(line, target, uuid))))
    case StockStep(s) => o.(order := o.order.(stock := Stock.Next(o.order.stock, s)))
  }

  ghost predicate Runs(o: Tracked, steps: seq<Step>, end: Tracked)
    decreases |steps|
  {
    if steps == [] then end == o else CanStep(o, steps[0]) && Runs(Next(o, steps[0]), steps[1..], end)
  }

  predicate NoReport(steps: seq<Step>) { forall k :: 0 <= k < |steps| ==> ReportOf(steps[k]) == None }

  // ---- The ledger, whatever the stock ----

  lemma StepBooks(o: Tracked, step: Step)
    requires Ledger.WellBooked(o.order.ledger)
    ensures var after := Next(o, step);
            && after.ids == o.ids && Ledger.WellBooked(after.order.ledger)
            && (Ledger.IsDelivered(after.order.ledger) <==>
                match ReportOf(step)
                case None => Ledger.IsDelivered(o.order.ledger)
                case Some(report) => report.Delivered?)
  {
    hide Ledger.WellBooked, Ledger.LastOutcome, Ledger.Book, ApplyAll, Stock.Next, TerminalOutcome, DeliveredAt;
    if step.LossSet? {
      Ledger.BookKeepsBooks(o.order.ledger, Ledger.Loss(step.line, step.target, step.uuid));
    } else if ReportOf(step).Some? {
      Ledger.BookKeepsBooks(o.order.ledger, ReportOf(step).value);
    }
  }

  /** Between reports the ledger keeps its outcome. */
  lemma {:induction false} RunsBook(o: Tracked, steps: seq<Step>, end: Tracked)
    requires Ledger.WellBooked(o.order.ledger) && Runs(o, steps, end)
    ensures Ledger.WellBooked(end.order.ledger) && end.ids == o.ids
    ensures NoReport(steps) ==> (Ledger.IsDelivered(end.order.ledger) <==> Ledger.IsDelivered(o.order.ledger))
    decreases |steps|
  {
    hide Ledger.WellBooked, Ledger.LastOutcome, Next, CanStep, ReportOf;
    if steps != [] {
      StepBooks(o, steps[0]);
      RunsBook(Next(o, steps[0]), steps[1..], end);
    }
  }

  // ---- The stock of its lines ----

  lemma StepStaysLegal(o: Tracked, step: Step)
    requires BookLegal(o.order.stock.accounts) && CanStep(o, step)
    ensures BookLegal(Found(o, step).stock.accounts) && BookLegal(Next(o, step).order.stock.accounts)
  {
    hide BookLegal, ApplyAll, Stock.Next, Stock.Enabled, Ledger.Book, TerminalOutcome, DeliveredAt, Continues;
    BookStaysLegalAll(o.order.stock, o.ids, ReserveFlow);
    if step.StockStep? {
      StepKeepsBook(o.order.stock, step.step);
    } else if ReportOf(step).Some? {
      BookStaysLegalAll(Found(o, step).stock, o.ids, FlowOf(step));
    }
  }

  /** Steps that may be about a line: syncs that report or reserve, and its own stock steps. */
  predicate Disturbs(step: Step, l: LineId) {
    match step
    case Arrival(_, _, reserves, _, _) => reserves || ReportOf(step).Some?
    case CourierSync(_, _, _) => ReportOf(step).Some?
    case LossSet(_, _, _) => false
    case StockStep(s) => Subject(s) == Some(l)
  }

  lemma {:induction false} UndisturbedLine(o: Tracked, steps: seq<Step>, end: Tracked, l: LineId)
    requires BookLegal(o.order.stock.accounts) && Runs(o, steps, end)
    requires forall k :: 0 <= k < |steps| ==> !Disturbs(steps[k], l)
    ensures BookLegal(end.order.stock.accounts) && SameLineState(o.order.stock, end.order.stock, l)
    decreases |steps|
  {
    hide BookLegal, AccountOf, NetReserved, Stock.Next, Stock.Enabled, Ledger.Book, TerminalOutcome, DeliveredAt;
    if steps != [] {
      StepStaysLegal(o, steps[0]);
      assert !Disturbs(steps[0], l);
      if steps[0].StockStep? {
        StepLeavesOthers(o.order.stock, steps[0].step, l);
      }
      UndisturbedLine(Next(o, steps[0]), steps[1..], end, l);
    }
  }

  lemma SameLineFollows(s: Store, s': Store, l: LineId, flow: Flow)
    requires SameLineState(s, s', l)
    ensures Followed(s, l, flow) ==> Followed(s', l, flow)
    ensures HoldsNothing(s', l) <==> HoldsNothing(s, l)
  {
    hide AccountOf, NetReserved, Deliverable;
    if HoldsNothing(s', l) {
      forall i ensures NetReserved(AccountOf(s.accounts, i).log, l) == 0 {
        assert NetReserved(AccountOf(s'.accounts, i).log, l) == 0;
      }
    }
  }

  lemma OwnRow(s: Store, after: Store, ids: seq<LineId>, flow: Flow, l: LineId)
    requires OwnFlow(s, after, ids, flow, l) && l in ids
    ensures l in after.lines <==> l in s.lines
    ensures l in s.lines ==> l in Apply(s, l, flow).lines && after.lines[l] == Apply(s, l, flow).lines[l]
  {
    hide AccountOf, NetReserved, Followed, Left;
    ApplyFollows(s, l, flow);
  }

  /** How a line stands after a sync that found the stock as s, until another step is about it. */
  ghost predicate LineFollows(s: Store, end: Store, l: LineId, flow: Flow) {
    && (l in end.lines <==> l in s.lines)
    && (l in s.lines ==>
          && l in Apply(s, l, flow).lines && end.lines[l] == Apply(s, l, flow).lines[l] && Followed(end, l, flow)
          && (HoldsNothing(end, l) <==> Clears(s, l, flow)))
  }

  lemma LineAfterSync(o: Tracked, sync: Step, after: seq<Step>, end: Tracked, l: LineId)
    requires BookLegal(o.order.stock.accounts) && CanStep(o, sync) && ReportOf(sync).Some? && l in o.ids
    requires Runs(Next(o, sync), after, end) && forall k :: 0 <= k < |after| ==> !Disturbs(after[k], l)
    ensures BookLegal(end.order.stock.accounts) && LineFollows(Found(o, sync).stock, end.order.stock, l, FlowOf(sync))
  {
    hide BookLegal, ApplyAll, Runs, Disturbs, Followed, HoldsNothing, Clears, ReportOf, SameLineState, Ledger.Book;
    var s, flow := Found(o, sync).stock, FlowOf(sync);
    StepStaysLegal(o, sync);
    UndisturbedLine(Next(o, sync), after, end, l);
    SyncedStock(o, sync);
    EachLineItsOwnFlow(s, o.ids, flow, l);
    OwnRow(s, ApplyAll(s, o.ids, flow), o.ids, flow, l);
    SameRow(Next(o, sync).order.stock, end.order.stock, l);
    if l in s.lines {
      OrderSettlesExactly(s, o.ids, flow, l);
      SameLineFollows(Next(o, sync).order.stock, end.order.stock, l, flow);
    }
  }

  lemma SyncedStock(o: Tracked, sync: Step)
    requires ReportOf(sync).Some?
    ensures Next(o, sync).order.stock == ApplyAll(Found(o, sync).stock, o.ids, FlowOf(sync))
    ensures !FlowOf(sync).ReserveFlow?
  {
  }

  lemma SameRow(s: Store, s': Store, l: LineId)
    requires SameLineState(s, s', l)
    ensures l in s.lines <==> l in s'.lines
    ensures l in s.lines ==> s'.lines[l] == s.lines[l]
  {
  }

  /** Whatever came before and between: after the last report, of courier or timeline, an order's ledger stands as
      reported, and each line that no step was about since was delivered or released as far as it can be and holds
      nothing exactly when the report could clear it. */
  lemma OrderFollowsLastReport(o: Tracked, before: seq<Step>, mid: Tracked, sync: Step, after: seq<Step>, end: Tracked)
    requires Ledger.WellBooked(o.order.ledger) && BookLegal(o.order.stock.accounts)
    requires Runs(o, before, mid) && CanStep(mid, sync) && Runs(Next(mid, sync), after, end)
    requires ReportOf(sync).Some? && NoReport(after)
    ensures Ledger.WellBooked(end.order.ledger)
    ensures Ledger.IsDelivered(end.order.ledger) <==> ReportOf(sync).value.Delivered?
    ensures forall l :: l in o.ids && (forall k :: 0 <= k < |after| ==> !Disturbs(after[k], l)) ==>
              LineFollows(Found(mid, sync).stock, end.order.stock, l, FlowOf(sync))
  {
    hide BookLegal, Runs, CanStep, Next, Disturbs, LineFollows, ReportOf, NoReport, Found, FlowOf, Ledger.WellBooked,
         Ledger.LastOutcome;
    RunsBook(o, before, mid);
    StepBooks(mid, sync);
    RunsBook(Next(mid, sync), after, end);
    RunsStayLegal(o, before, mid);
    forall l | l in o.ids && (forall k :: 0 <= k < |after| ==> !Disturbs(after[k], l))
      ensures LineFollows(Found(mid, sync).stock, end.order.stock, l, FlowOf(sync))
    {
      LineAfterSync(mid, sync, after, end, l);
    }
  }

  lemma {:induction false} RunsStayLegal(o: Tracked, steps: seq<Step>, end: Tracked)
    requires BookLegal(o.order.stock.accounts) && Runs(o, steps, end)
    ensures BookLegal(end.order.stock.accounts)
    decreases |steps|
  {
    hide BookLegal, CanStep, Next, Found;
    if steps != [] {
      StepStaysLegal(o, steps[0]);
      RunsStayLegal(Next(o, steps[0]), steps[1..], end);
    }
  }

  /** A dispatched order follows its courier's last terminal status. */
  lemma ShipmentFollowsLastStatus(o: Tracked, before: seq<Step>, mid: Tracked, sync: Step, after: seq<Step>,
                                  end: Tracked)
    requires Ledger.WellBooked(o.order.ledger) && BookLegal(o.order.stock.accounts)
    requires Runs(o, before, mid) && sync.CourierSync? && Runs(Next(mid, sync), after, end)
    requires (sync.status == ShipmentDelivered || IsFailureStatus(sync.status)) && NoReport(after)
    ensures Ledger.IsDelivered(end.order.ledger) <==> sync.status == ShipmentDelivered
    ensures forall l :: l in o.ids && (forall k :: 0 <= k < |after| ==> !Disturbs(after[k], l)) ==>
              LineFollows(mid.order.stock, end.order.stock, l,
                          if sync.status == ShipmentDelivered then DeliverFlow(None) else ReleaseFlow)
  {
    hide BookLegal, Runs, Next, Disturbs, LineFollows, NoReport, Ledger.WellBooked, Ledger.LastOutcome;
    OrderFollowsLastReport(o, before, mid, sync, after, end);
  }

  // ---- Lines whose reservations are made whole ----

  lemma {:induction false} FlowsStaySettled(s: Store, ids: seq<LineId>, flow: Flow, l: LineId)
    requires BookLegal(s.accounts) && Settled(s, l)
    ensures BookLegal(ApplyAll(s, ids, flow).accounts) && Settled(ApplyAll(s, ids, flow), l)
  {
    hide BookLegal, Settled, Apply, Stock.Next, Continues;
    if ids != [] {
      var rest, last := ApplyAll(s, ids[..|ids| - 1], flow), ids[|ids| - 1];
      FlowsStaySettled(s, ids[..|ids| - 1], flow, l);
      FlowAsStep(rest, last, flow);
      StepStaysSettled(rest, FlowStep(last, flow), l);
      BookStaysLegal(rest, last, flow);
    }
  }

  lemma FlowAsStep(s: Store, l: LineId, flow: Flow)
    ensures Stock.Enabled(s, FlowStep(l, flow)) && Stock.Next(s, FlowStep(l, flow)) == Apply(s, l, flow)
  {
  }

  lemma OrderStepStaysSettled(o: Tracked, step: Step, l: LineId)
    requires BookLegal(o.order.stock.accounts) && Settled(o.order.stock, l) && CanStep(o, step)
    requires !(step.StockStep? && MovesReservation(step.step, l))
    ensures Settled(Found(o, step).stock, l) && Settled(Next(o, step).order.stock, l)
  {
    hide BookLegal, Settled, ApplyAll, Stock.Next, Stock.Enabled, Ledger.Book, TerminalOutcome, DeliveredAt;
    FlowsStaySettled(o.order.stock, o.ids, ReserveFlow, l);
    if step.StockStep? {
      StepStaysSettled(o.order.stock, step.step, l);
    } else if ReportOf(step).Some? {
      FlowsStaySettled(Found(o, step).stock, o.ids, FlowOf(step), l);
    }
  }

  /** The line's own reservations are made whole. */
  predicate WholeReservations(steps: seq<Step>, l: LineId) {
    forall k :: 0 <= k < |steps| ==> !(steps[k].StockStep? && MovesReservation(steps[k].step, l))
  }

  lemma {:induction false} OrderStaysSettled(o: Tracked, steps: seq<Step>, end: Tracked, l: LineId)
    requires BookLegal(o.order.stock.accounts) && Settled(o.order.stock, l) && Runs(o, steps, end)
    requires WholeReservations(steps, l)
    ensures BookLegal(end.order.stock.accounts) && Settled(end.order.stock, l)
    decreases |steps|
  {
    hide BookLegal, Settled, CanStep, Next, Found, MovesReservation;
    if steps != [] {
      StepStaysLegal(o, steps[0]);
      OrderStepStaysSettled(o, steps[0], l);
      OrderStaysSettled(Next(o, steps[0]), steps[1..], end, l);
    }
  }

  /** What a delivery or release clears of a line that holds stock only while marked: everything, unless it is to be
      delivered without a product. */
  lemma SettledClears(s: Store, l: LineId, flow: Flow)
    requires Settled(s, l) && l in s.lines && !flow.ReserveFlow?
    ensures Clears(s, l, flow) || (flow.DeliverFlow? && s.lines[l].variant == None)
  {
  }

  // ---- Out-of-order timelines ----

  lemma NothingTerminal(read: seq<TimelineEvent>, fewer: seq<TimelineEvent>)
    requires multiset(fewer) <= multiset(read)
    ensures TerminalOutcome(read) == None ==> TerminalOutcome(fewer) == None
  {
    LatestIsLast(read);
    LatestIsLast(fewer);
    SameMembers(read, multiset(read));
    SameMembers(fewer, multiset(fewer));
  }

  predicate Undispatched(steps: seq<Step>) { forall k :: 0 <= k < |steps| ==> !steps[k].CourierSync? }

  /** The ledger stands as the outcome of some reading of the stored events. */
  ghost predicate Synced(o: Tracked, read: seq<TimelineEvent>) {
    && Ledger.WellBooked(o.order.ledger) && multiset(read) == o.stored
    && (Ledger.IsDelivered(o.order.ledger) <==> TerminalOutcome(read) == Some(DELIVERED))
  }

  lemma StepSyncs(o: Tracked, read: seq<TimelineEvent>, step: Step) returns (read': seq<TimelineEvent>)
    requires Synced(o, read) && CanStep(o, step) && !step.CourierSync?
    ensures Synced(Next(o, step), read')
    ensures read' == if step.Arrival? then step.read else read
  {
    hide Ledger.WellBooked, Ledger.LastOutcome, Ledger.Book, ApplyAll, Stock.Next, Stock.Enabled;
    StepBooks(o, step);
    match step {
      case Arrival(_, again, _, _, _) =>
        read' := again;
        NothingTerminal(again, read);
        LatestIsLast(again);
      case _ => read' := read;
    }
  }

  lemma {:induction false} RunsSync(o: Tracked, read: seq<TimelineEvent>, steps: seq<Step>, end: Tracked)
      returns (read': seq<TimelineEvent>)
    requires Synced(o, read) && Runs(o, steps, end) && Undispatched(steps)
    ensures Synced(end, read')
    decreases |steps|
  {
    hide Synced, CanStep, Next;
    if steps == [] {
      return read;
    }
    var next := StepSyncs(o, read, steps[0]);
    read' := RunsSync(Next(o, steps[0]), next, steps[1..], end);
  }

  lemma {:induction false} DeliveredAtIsLatest(events: seq<TimelineEvent>)
    ensures DeliveredAt(events) >= 0
    ensures forall e :: e in events && e.kind == DELIVERED ==> e.occurredAt <= DeliveredAt(events)
    ensures DeliveredAt(events) == 0 ||
            exists e :: e in events && e.kind == DELIVERED && e.occurredAt == DeliveredAt(events)
  {
    if events != [] {
      DeliveredAtIsLatest(events[..|events| - 1]);
      assert events == events[..|events| - 1] + [events[|events| - 1]];
    }
  }

  /** The chronologically last delivery, cancellation, failed delivery or return. */
  ghost predicate IsLast(stored: multiset<TimelineEvent>, last: TimelineEvent) {
    var deciding := {DELIVERED, ORDER_CANCELLED, FULFILLMENT_CANCELLED, DELIVERY_FAILED, RETURNED};
    && DistinctTimes(stored) && last in stored && last.kind in deciding
    && forall e :: e in stored && e.kind in deciding ==> e.occurredAt <= last.occurredAt
  }

  /** Any arrival order, any repetition of syncs, any losses and anything that happens to stock in between: an
      undispatched order ends with its revenue recognized exactly when the chronologically last terminal event is a
      delivery. */
  lemma TimelineConverges(ids: seq<LineId>, stock: Store, steps: seq<Step>, end: Tracked, last: TimelineEvent)
    requires Runs(Tracked(multiset{}, ids, OrderState([], stock)), steps, end) && Undispatched(steps)
    requires IsLast(end.stored, last)
    ensures Ledger.IsDelivered(end.order.ledger) <==> last.kind == DELIVERED
    ensures var revenue := Ledger.SummaryOf(end.order.ledger).revenue;
            if last.kind == DELIVERED
            then Ledger.Find(end.order.ledger, Ledger.RecognizedKey).Some? &&
                 revenue == Ledger.Recognized(end.order.ledger).revenue
            else revenue == 0
  {
    hide Ledger.Find, Ledger.SummaryOf, TerminalOutcome, Runs, Undispatched;
    var start := Tracked(multiset{}, ids, OrderState([], stock));
    NothingStored(start);
    var read := RunsSync(start, [], steps, end);
    Ledger.OutcomeKind(end.order.ledger);
    OutcomeIsChronological(read, end.stored, last);
    Ledger.LedgerBalances(end.order.ledger);
  }

  lemma NothingStored(o: Tracked)
    requires o.stored == multiset{} && o.order.ledger == []
    ensures Synced(o, [])
  {
  }

  /** Its stock converges with it: from the last sync on, which may have reserved its lines first, each line that no
      other step was about since stands as the last terminal event says. After a delivery the matched ones are
      delivered, but for those without stock status first synced after that delivery; after a failure the reserved ones
      are released. The line holds nothing exactly when that sync could clear it; if its own reservations were made
      whole, always, unless it was to be delivered without a product. */
  lemma TimelineSettlesStock(ids: seq<LineId>, stock: Store, before: seq<Step>, mid: Tracked, sync: Step,
                             after: seq<Step>, end: Tracked, last: TimelineEvent, l: LineId)
    requires BookLegal(stock.accounts) && l in ids && sync.Arrival?
    requires Runs(Tracked(multiset{}, ids, OrderState([], stock)), before, mid) && CanStep(mid, sync)
    requires Runs(Next(mid, sync), after, end) && forall k :: 0 <= k < |after| ==> !Disturbs(after[k], l)
    requires IsLast(Next(mid, sync).stored, last)
    ensures var s := if sync.reserves then ApplyAll(mid.order.stock, ids, ReserveFlow) else mid.order.stock;
            && RowFollows(s, end.order.stock, l, last)
            && (l in s.lines ==> (HoldsNothing(end.order.stock, l) <==> Clears(s, l, FlowAfter(last))))
            && (l in end.order.stock.lines && Settled(stock, l) && WholeReservations(before, l) ==>
                  || HoldsNothing(end.order.stock, l)
                  || (last.kind == DELIVERED && end.order.stock.lines[l].variant == None))
  {
    hide BookLegal, Runs, Disturbs, Settled, HoldsNothing, LineFollows, Found, FlowOf, ReportOf, Next, CanStep,
         WholeReservations, IsLast, ApplyAll, RowFollows, Clears;
    var start := Tracked(multiset{}, ids, OrderState([], stock));
    RunsStayLegal(start, before, mid);
    KeepsIds(start, before, mid);
    TimelineFlow(mid, sync, last);
    LineAfterSync(mid, sync, after, end, l);
    FoundReserved(mid, sync);
    TimelineRow(Found(mid, sync).stock, end.order.stock, l, last);
    WhatItHolds(Found(mid, sync).stock, end.order.stock, l, FlowAfter(last));
    if Settled(stock, l) && WholeReservations(before, l) {
      OrderStaysSettled(start, before, mid, l);
      SettledSync(mid, sync, end.order.stock, l, last);
    }
  }

  lemma SettledSync(mid: Tracked, sync: Step, end: Store, l: LineId, last: TimelineEvent)
    requires BookLegal(mid.order.stock.accounts) && Settled(mid.order.stock, l) && CanStep(mid, sync) && sync.Arrival?
    requires LineFollows(Found(mid, sync).stock, end, l, FlowAfter(last))
    ensures l in end.lines ==> HoldsNothing(end, l) || (last.kind == DELIVERED && end.lines[l].variant == None)
  {
    hide BookLegal, Settled, LineFollows, HoldsNothing, Found, CanStep, Next;
    OrderStepStaysSettled(mid, sync, l);
    SettledFollows(Found(mid, sync).stock, end, l, FlowAfter(last));
  }

  lemma WhatItHolds(s: Store, end: Store, l: LineId, flow: Flow)
    requires LineFollows(s, end, l, flow)
    ensures l in s.lines ==> (HoldsNothing(end, l) <==> Clears(s, l, flow))
  {
  }

  function FlowAfter(last: TimelineEvent): Flow {
    if last.kind == DELIVERED then DeliverFlow(Some(Max(0, last.occurredAt))) else ReleaseFlow
  }

  /** How a line's row stands once the last terminal event was synced. */
  ghost predicate RowFollows(s: Store, end: Store, l: LineId, last: TimelineEvent) {
    && (l in end.lines <==> l in s.lines)
    && (l in s.lines ==>
          var line := s.lines[l];
          end.lines[l] ==
          if last.kind == DELIVERED
          then if line.variant.Some? && line.status != Some(LineDelivered) &&
                  (line.status.Some? || line.createdAt <= last.occurredAt || line.createdAt <= 0)
               then line.(status := Some(LineDelivered)) else line
          else if line.status == Some(LineReserved) then line.(status := Some(LineReleased)) else line)
  }

  lemma TimelineRow(s: Store, end: Store, l: LineId, last: TimelineEvent)
    requires LineFollows(s, end, l, FlowAfter(last))
    ensures RowFollows(s, end, l, last)
  {
    hide HoldsNothing, Followed, Clears, Apply;
    if l in s.lines {
      SyncedRow(s, end, l, FlowAfter(last));
    }
  }

  lemma FoundReserved(o: Tracked, sync: Step)
    requires sync.Arrival?
    ensures Found(o, sync).stock == if sync.reserves then ApplyAll(o.order.stock, o.ids, ReserveFlow) else o.order.stock
  {
  }

  lemma SyncedRow(s: Store, end: Store, l: LineId, flow: Flow)
    requires LineFollows(s, end, l, flow) && l in s.lines && !flow.ReserveFlow?
    ensures var line := s.lines[l];
            end.lines[l] ==
            match flow
            case DeliverFlow(at) =>
              if line.variant.Some? && line.status != Some(LineDelivered) &&
                 (at == None || line.status.Some? || line.createdAt <= at.value)
              then line.(status := Some(LineDelivered)) else line
            case _ => if line.status == Some(LineReserved) then line.(status := Some(LineReleased)) else line
  {
    hide HoldsNothing, Followed, Clears, DeliverUnits, DeliverOrphans, ReleaseEverywhere, Expand;
  }

  /** What a sync does once the last terminal event is stored. */
  lemma TimelineFlow(mid: Tracked, sync: Step, last: TimelineEvent)
    requires sync.Arrival? && CanStep(mid, sync) && IsLast(Next(mid, sync).stored, last)
    ensures ReportOf(sync).Some?
    ensures FlowOf(sync) == FlowAfter(last)
  {
    hide ApplyAll, Ledger.Book, TerminalOutcome, DeliveredAt;
    OutcomeIsChronological(sync.read, Next(mid, sync).stored, last);
    LastDelivery(sync.read, Next(mid, sync).stored, last);
  }

  lemma SettledFollows(s: Store, end: Store, l: LineId, flow: Flow)
    requires LineFollows(s, end, l, flow) && Settled(s, l) && !flow.ReserveFlow?
    ensures l in end.lines ==> HoldsNothing(end, l) || (flow.DeliverFlow? && end.lines[l].variant == None)
  {
    hide HoldsNothing, Followed, Clears, Settled, DeliverUnits, DeliverOrphans, ReleaseEverywhere, Expand;
    if l in s.lines {
      SettledClears(s, l, flow);
    }
  }

  lemma {:induction false} KeepsIds(o: Tracked, steps: seq<Step>, end: Tracked)
    requires Runs(o, steps, end)
    ensures end.ids == o.ids
    decreases |steps|
  {
    if steps != [] {
      KeepsIds(Next(o, steps[0]), steps[1..], end);
    }
  }

  lemma LastDelivery(read: seq<TimelineEvent>, stored: multiset<TimelineEvent>, last: TimelineEvent)
    requires multiset(read) == stored && IsLast(stored, last)
    ensures last.kind == DELIVERED ==> DeliveredAt(read) == Max(0, last.occurredAt)
  {
    SameMembers(read, stored);
    DeliveredAtIsLatest(read);
  }
}
