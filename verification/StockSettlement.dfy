/** What each flow of a line settles, exactly; settlement over whole runs; and what interrupted and late reservations
    leave behind. */
module StockSettlement {
  import opened Basics
  import opened StockAccounts
  import opened StockFlows
  import opened Catalogue
  import opened OrderStock
  import opened StockRuns

  ghost predicate HoldsNothing(s: Store, l: LineId) {
    forall i :: NetReserved(AccountOf(s.accounts, i).log, l) == 0
  }

  /** The line holds stock only while it is marked reserved. */
  ghost predicate Settled(s: Store, l: LineId) {
    l in s.lines && s.lines[l].status != Some(LineReserved) ==> HoldsNothing(s, l)
  }

  /** Movements of line l leave every other line's reservations alone. */
  lemma WorksElsewhere(bk: Book, bk': Book, l: LineId, used: set<MoveKey>, i: ItemId, other: LineId)
    requires Works(bk, bk', l, used) && other != l
    ensures NetReserved(AccountOf(bk', i).log, other) == NetReserved(AccountOf(bk, i).log, other)
  {
    if i in bk' {
      assert Touches(AccountOf(bk, i), bk'[i], l);
    }
  }

  /** A line as one flow sees it: its row and what it holds. */
  ghost predicate SameLineState(s: Store, s': Store, l: LineId) {
    && (l in s.lines <==> l in s'.lines)
    && (l in s.lines ==> s'.lines[l] == s.lines[l])
    && forall i :: NetReserved(AccountOf(s'.accounts, i).log, l) == NetReserved(AccountOf(s.accounts, i).log, l)
  }

  /** A step about another line, or from outside, changes nothing a line's flows depend on. */
  lemma StepLeavesOthers(s: Store, step: Step, l: LineId)
    requires BookLegal(s.accounts) && Enabled(s, step) && Subject(step) != Some(l)
    ensures SameLineState(s, Next(s, step), l)
  {
    hide BookLegal, Works, AccountOf, Next, Enabled, StepKeys;
    RowsElsewhere(s, step, l);
    forall i
      ensures NetReserved(AccountOf(Next(s, step).accounts, i).log, l) == NetReserved(AccountOf(s.accounts, i).log, l)
    {
      if step.OutsideStep? {
        OutsideHoldsNothing(s, step, l, i);
      } else {
        StepWorks(s, step);
        WorksElsewhere(s.accounts, Next(s, step).accounts, step.l, StepKeys(s, step), i, l);
      }
    }
  }

  lemma OutsideHoldsNothing(s: Store, step: Step, l: LineId, i: ItemId)
    requires step.OutsideStep?
    ensures NetReserved(AccountOf(Next(s, step).accounts, i).log, l) == NetReserved(AccountOf(s.accounts, i).log, l)
  {
    var a := AccountOf(s.accounts, step.i);
    OutsideIs(a, step.bucket, step.delta, step.id);
    assert Total(ExternalMove(a, step.bucket, step.delta, ExternalKey(step.id)).log, LineIn(l, Reserved)) ==
           Total(a.log, LineIn(l, Reserved));
  }

  // ---- Exactly what a flow settles ----

  /** What a line still holds of an item after a delivery or release of it. */
  function Left(s: Store, l: LineId, flow: Flow, i: ItemId): int
    requires l in s.lines
  {
    var line, held := s.lines[l], NetReserved(AccountOf(s.accounts, i).log, l);
    match flow
    case ReserveFlow => held
    case ReleaseFlow => if line.status == Some(LineReserved) then 0 else held
    case DeliverFlow(at) =>
      if Deliverable(line, at) &&
         (line.status == Some(LineReserved) || i in PhysicalItems(Expand(line.quantity, line.variant)))
      then 0 else held
  }

  lemma FlowLeaves(s: Store, l: LineId, flow: Flow, i: ItemId)
    requires BookLegal(s.accounts) && l in s.lines && !flow.ReserveFlow?
    ensures NetReserved(AccountOf(Apply(s, l, flow).accounts, i).log, l) == Left(s, l, flow, i)
  {
    hide DeliverUnits, DeliverOrphans, ReleaseEverywhere, Expand, Works;
    match flow {
      case DeliverFlow(at) =>
        if Deliverable(s.lines[l], at) {
          DeliveryWorks(s, l, at);
        }
      case ReleaseFlow => ReleaseWorks(s.accounts, l);
    }
  }

  /** Releasing a line leaves it without reservations exactly when it was marked reserved or held nothing. */
  lemma ReleaseSettlesExactly(s: Store, l: LineId)
    requires BookLegal(s.accounts) && l in s.lines
    ensures HoldsNothing(ReleaseLine(s, l), l) <==> s.lines[l].status == Some(LineReserved) || HoldsNothing(s, l)
  {
    forall i
      ensures NetReserved(AccountOf(ReleaseLine(s, l).accounts, i).log, l) ==
              if s.lines[l].status == Some(LineReserved) then 0 else NetReserved(AccountOf(s.accounts, i).log, l)
    {
      FlowLeaves(s, l, ReleaseFlow, i);
    }
  }

  /** What a flow leaves of the line it was applied to: nothing more for it to do. */
  predicate Followed(s: Store, l: LineId, flow: Flow) {
    l in s.lines ==>
      match flow
      case ReserveFlow => s.lines[l].variant == None || s.lines[l].status.Some?
      case DeliverFlow(at) => !Deliverable(s.lines[l], at)
      case ReleaseFlow => s.lines[l].status != Some(LineReserved)
  }

  lemma ApplyFollows(s: Store, l: LineId, flow: Flow)
    ensures Apply(s, l, flow).lines.Keys == s.lines.Keys
    ensures Followed(Apply(s, l, flow), l, flow)
    ensures Followed(s, l, flow) ==> Apply(s, l, flow) == s
    ensures forall other :: other in s.lines && other != l ==> Apply(s, l, flow).lines[other] == s.lines[other]
  {
  }

  lemma FlowLeavesOthers(s: Store, l: LineId, flow: Flow, other: LineId)
    requires BookLegal(s.accounts) && other != l
    ensures forall i :: NetReserved(AccountOf(Apply(s, l, flow).accounts, i).log, other) ==
                        NetReserved(AccountOf(s.accounts, i).log, other)
  {
    hide Apply, Works, AccountOf;
    FlowWorks(s, l, flow);
    forall i ensures NetReserved(AccountOf(Apply(s, l, flow).accounts, i).log, other) ==
                     NetReserved(AccountOf(s.accounts, i).log, other) {
      WorksElsewhere(s.accounts, Apply(s, l, flow).accounts, l, FlowKeys(l, flow), i, other);
    }
  }

  /** What delivering or releasing a whole order does to one line is what it does to that line alone. */
  ghost predicate OwnFlow(s: Store, after: Store, ids: seq<LineId>, flow: Flow, l: LineId) {
    if l in ids && l in s.lines then
      && l in after.lines && after.lines[l] == Apply(s, l, flow).lines[l] && Followed(after, l, flow)
      && forall i :: NetReserved(AccountOf(after.accounts, i).log, l) == Left(s, l, flow, i)
    else SameLineState(s, after, l)
  }

  lemma OwnFlowNext(s: Store, before: Store, rest: seq<LineId>, last: LineId, flow: Flow, l: LineId)
    requires BookLegal(before.accounts) && !flow.ReserveFlow? && OwnFlow(s, before, rest, flow, l)
    ensures OwnFlow(s, Apply(before, last, flow), rest + [last], flow, l)
  {
    hide AccountOf, NetReserved, Expand, ReserveLine, BookLegal, PhysicalItems;
    ApplyFollows(before, last, flow);
    if l != last {
      FlowLeavesOthers(before, last, flow, l);
    } else if l in s.lines && l !in rest {
      forall i
        ensures NetReserved(AccountOf(Apply(before, l, flow).accounts, i).log, l) == Left(s, l, flow, i)
      {
        FlowLeaves(before, l, flow, i);
      }
    }
  }

  lemma {:induction false} EachLineItsOwnFlow(s: Store, ids: seq<LineId>, flow: Flow, l: LineId)
    requires BookLegal(s.accounts) && !flow.ReserveFlow?
    ensures BookLegal(ApplyAll(s, ids, flow).accounts)
    ensures OwnFlow(s, ApplyAll(s, ids, flow), ids, flow, l)
  {
    hide Apply, BookLegal, Left, Followed;
    if ids != [] {
      var rest, last := ids[..|ids| - 1], ids[|ids| - 1];
      EachLineItsOwnFlow(s, rest, flow, l);
      BookStaysLegal(ApplyAll(s, rest, flow), last, flow);
      OwnFlowNext(s, ApplyAll(s, rest, flow), rest, last, flow, l);
      assert rest + [last] == ids;
    }
  }

  /** When a delivery or release leaves a line without reservations. */
  ghost predicate Clears(s: Store, l: LineId, flow: Flow)
    requires l in s.lines
  {
    var line := s.lines[l];
    || HoldsNothing(s, l)
    || match flow
       case ReserveFlow => false
       case ReleaseFlow => line.status == Some(LineReserved)
       case DeliverFlow(at) =>
         && Deliverable(line, at)
         && (line.status == Some(LineReserved) ||
             forall i :: NetReserved(AccountOf(s.accounts, i).log, l) != 0 ==>
                           i in PhysicalItems(Expand(line.quantity, line.variant)))
  }

  lemma LeavesNothing(s: Store, l: LineId, flow: Flow)
    requires l in s.lines && !flow.ReserveFlow?
    ensures (forall i :: Left(s, l, flow, i) == 0) <==> Clears(s, l, flow)
  {
    hide AccountOf, NetReserved, Expand, PhysicalItems;
    var units := PhysicalItems(Expand(s.lines[l].quantity, s.lines[l].variant));
    if forall i :: Left(s, l, flow, i) == 0 {
      forall i ensures NetReserved(AccountOf(s.accounts, i).log, l) == 0 ||
                       (flow.ReleaseFlow? && s.lines[l].status == Some(LineReserved)) ||
                       (flow.DeliverFlow? && Deliverable(s.lines[l], flow.deliveredAt) &&
                        (s.lines[l].status == Some(LineReserved) || i in units)) {
        assert Left(s, l, flow, i) == 0;
      }
    }
  }

  /** Delivering or releasing an order leaves a line of it without reservations exactly when the line held nothing, was
      marked reserved or, delivered unmarked, held only items of its product. */
  lemma OrderSettlesExactly(s: Store, ids: seq<LineId>, flow: Flow, l: LineId)
    requires BookLegal(s.accounts) && !flow.ReserveFlow? && l in ids && l in s.lines
    ensures l in ApplyAll(s, ids, flow).lines && Followed(ApplyAll(s, ids, flow), l, flow)
    ensures HoldsNothing(ApplyAll(s, ids, flow), l) <==> Clears(s, l, flow)
  {
    hide Apply, ApplyAll, Followed, AccountOf, NetReserved, Left, Clears;
    EachLineItsOwnFlow(s, ids, flow, l);
    LeavesNothing(s, l, flow);
  }

  // ---- Settlement over runs ----

  lemma FlowStaysSettled(s: Store, l: LineId, flow: Flow)
    requires BookLegal(s.accounts) && Settled(s, l) && l in s.lines
    ensures Settled(Apply(s, l, flow), l)
  {
    hide Apply, BookLegal, AccountOf, NetReserved, Expand, PhysicalItems;
    var after := Apply(s, l, flow);
    ApplyFollows(s, l, flow);
    if flow.ReserveFlow? {
      ReserveMarks(s, l);
    } else if after.lines[l].status != Some(LineReserved) {
      forall i ensures NetReserved(AccountOf(after.accounts, i).log, l) == 0 {
        FlowLeaves(s, l, flow, i);
        if s.lines[l].status == Some(LineReserved) {
          MarkedIsFollowed(s, l, flow);
        }
      }
    }
  }

  lemma ReserveMarks(s: Store, l: LineId)
    requires l in s.lines
    ensures Apply(s, l, ReserveFlow) == s ||
            (l in Apply(s, l, ReserveFlow).lines && Apply(s, l, ReserveFlow).lines[l].status == Some(LineReserved))
  {
  }

  /** A line marked reserved before a delivery or release and not after was delivered or released. */
  lemma MarkedIsFollowed(s: Store, l: LineId, flow: Flow)
    requires l in s.lines && s.lines[l].status == Some(LineReserved) && !flow.ReserveFlow?
    ensures l in Apply(s, l, flow).lines
    ensures Apply(s, l, flow).lines[l].status != Some(LineReserved) ==>
              flow.ReleaseFlow? || Deliverable(s.lines[l], flow.deliveredAt)
  {
  }

  lemma ReturnHolds(s: Store, l: LineId, targets: map<ItemId, Target>, i: ItemId)
    requires BookLegal(s.accounts) && l in s.lines && forall j :: j in targets ==> targets[j].damaged >= 0
    ensures NetReserved(AccountOf(ReconcileLine(s, l, targets).accounts, i).log, l) == Left(s, l, ReleaseFlow, i)
    ensures l in ReconcileLine(s, l, targets).lines
    ensures ReconcileLine(s, l, targets).lines[l].status ==
            if s.lines[l].status == Some(LineReserved) then Some(LineReleased) else s.lines[l].status
  {
    hide BookLegal, AccountOf, NetReserved, ReconcileTargets, AllTargets, ReconcileLine, ReleaseEverywhere, Works;
    ReturnWorks(s, l, targets);
    ReturnIs(s, l, targets);
    FlowLeaves(s, l, ReleaseFlow, i);
  }

  lemma NewLineHoldsNothing(s: Store, l: LineId, i: ItemId)
    requires BookLegal(s.accounts) && Unused(s.accounts, l)
    ensures NetReserved(AccountOf(s.accounts, i).log, l) == 0
  {
    if i in s.accounts {
      ReservationShape(s.accounts[i].opening, s.accounts[i].log, l);
      assert KeyOwner(ReserveKey(l)) == Some(l);
    }
  }

  lemma SameStaysSettled(s: Store, s': Store, l: LineId)
    requires SameLineState(s, s', l) && Settled(s, l)
    ensures Settled(s', l)
  {
    hide AccountOf, NetReserved;
  }

  lemma StepStaysSettled(s: Store, step: Step, l: LineId)
    requires BookLegal(s.accounts) && Settled(s, l) && Enabled(s, step) && !(step.ReserveMovement? && step.l == l)
    ensures Settled(Next(s, step), l)
  {
    hide BookLegal, AccountOf, NetReserved, Apply, ReconcileLine, ReserveUnit, ExternalMove, Unused;
    if Subject(step) != Some(l) {
      StepLeavesOthers(s, step, l);
      SameStaysSettled(s, Next(s, step), l);
    } else {
      match step {
        case FlowStep(_, flow) =>
          if l in s.lines {
            FlowStaysSettled(s, l, flow);
          } else {
            Absent(s, l, flow);
          }
        case ReturnStep(_, targets) =>
          if l in s.lines {
            forall i ensures NetReserved(AccountOf(ReconcileLine(s, l, targets).accounts, i).log, l) ==
                             Left(s, l, ReleaseFlow, i) {
              ReturnHolds(s, l, targets, i);
            }
          } else {
            NoReturn(s, l, targets);
          }
        case NewLine(_, _) =>
          forall i ensures NetReserved(AccountOf(s.accounts, i).log, l) == 0 {
            NewLineHoldsNothing(s, l, i);
          }
        case ChangeLine(_, _, _) =>
        case DropLine(_) =>
        case MarkReserved(_) =>
      }
    }
  }

  lemma Absent(s: Store, l: LineId, flow: Flow)
    requires l !in s.lines
    ensures Apply(s, l, flow) == s
  {
  }

  predicate MovesReservation(step: Step, l: LineId) { step.ReserveMovement? && step.l == l }

  /** Over every run in which the line's own reservations are made whole, whatever happens to other lines, products and
      quantities in between: delivered, released or not yet reserved, the line holds nothing on any item. */
  lemma {:induction false} RunsStaySettled(s: Store, steps: seq<Step>, end: Store, l: LineId)
    requires BookLegal(s.accounts) && Settled(s, l) && Runs(s, steps, end)
    requires forall k :: 0 <= k < |steps| ==> !MovesReservation(steps[k], l)
    ensures BookLegal(end.accounts) && Settled(end, l)
    decreases |steps|
  {
    hide BookLegal, Settled, Enabled, Next;
    if steps != [] {
      assert !MovesReservation(steps[0], l);
      StepKeepsBook(s, steps[0]);
      StepStaysSettled(s, steps[0], l);
      RunsStaySettled(Next(s, steps[0]), steps[1..], end, l);
    }
  }

  // ---- What an interrupted reservation leaves behind ----

  lemma Interruption(s: Store, l: LineId, i: ItemId, quantity: int)
    requires BookLegal(s.accounts) && quantity > 0 && !HasKey(AccountOf(s.accounts, i).log, ReserveKey(l))
    ensures NetReserved(ReserveUnit(AccountOf(s.accounts, i), l, quantity).log, l) ==
            Min(quantity, AccountOf(s.accounts, i).balance.Available())
  {
    hide AccountOf;
    var a, m := AccountOf(s.accounts, i), Request(OrderReserved, Reserved, quantity, l, ReserveKey(l));
    AccountLegal(s.accounts, i);
    LegalIsValid(a);
    ReservationShape(a.opening, a.log, l);
    MoveEffect(a, m);
    assert ViewOf(Move(a, m), l).reserved == ViewOf(a, l).reserved + Clamp(a.balance, Reserved, quantity);
  }

  /** A reservation movement the code can make: a unit of the line's product, with stock free, never reserved before. */
  ghost predicate FirstMovement(s: Store, l: LineId, u: Unit) {
    && l in s.lines && s.lines[l].status == None
    && u in Expand(s.lines[l].quantity, s.lines[l].variant) && !u.role.Packaging?
    && !HasKey(AccountOf(s.accounts, u.item).log, ReserveKey(l))
    && AccountOf(s.accounts, u.item).balance.Available() > 0
  }

  lemma MovementHolds(s: Store, l: LineId, u: Unit)
    requires BookLegal(s.accounts) && FirstMovement(s, l, u)
    ensures var after := Next(s, ReserveMovement(l, u.item, u.quantity));
            && Enabled(s, ReserveMovement(l, u.item, u.quantity))
            && after.lines == s.lines && BookLegal(after.accounts)
            && NetReserved(AccountOf(after.accounts, u.item).log, l) ==
               Min(u.quantity, AccountOf(s.accounts, u.item).balance.Available()) > 0
  {
    hide Expand, ReserveUnit, HasKey, NetReserved, BookLegal, EmptyAccount;
    ExpansionTidy(s.lines[l].quantity, s.lines[l].variant);
    Interruption(s, l, u.item, u.quantity);
    StepKeepsBook(s, ReserveMovement(l, u.item, u.quantity));
  }

  /** A cancellation does not settle an interrupted reservation: the line is not marked, so its release passes it by,
      and so does recording what came back of it. No product change is needed. */
  lemma CancellationLeavesInterrupted(s: Store, l: LineId, u: Unit, ids: seq<LineId>, targets: map<ItemId, Target>)
    requires BookLegal(s.accounts) && FirstMovement(s, l, u) && l in ids
    requires forall i :: i in targets ==> targets[i].damaged >= 0
    ensures var interrupted := Next(s, ReserveMovement(l, u.item, u.quantity));
            var held := Min(u.quantity, AccountOf(s.accounts, u.item).balance.Available());
            && held > 0
            && NetReserved(AccountOf(ApplyAll(interrupted, ids, ReleaseFlow).accounts, u.item).log, l) == held
            && NetReserved(AccountOf(ReconcileLine(interrupted, l, targets).accounts, u.item).log, l) == held
  {
    hide Expand, ReserveUnit, HasKey, NetReserved, BookLegal, EmptyAccount, ApplyAll, Apply, ReconcileTargets,
         AllTargets, FirstMovement;
    var interrupted := Next(s, ReserveMovement(l, u.item, u.quantity));
    UnmarkedLine(s, l, u);
    MovementHolds(s, l, u);
    EachLineItsOwnFlow(interrupted, ids, ReleaseFlow, l);
    AllTargetsAllowed(interrupted.accounts, l, targets);
    ReconcileWorks(interrupted.accounts, l, interrupted.lines[l].revision + 1,
                   AllTargets(interrupted.accounts, l, targets));
  }

  lemma UnmarkedLine(s: Store, l: LineId, u: Unit)
    requires FirstMovement(s, l, u)
    ensures l in s.lines && s.lines[l].status == None
  {
  }

  /** After an interruption, a product change that drops the item and a delivery, the delivered line still holds it. */
  lemma InterruptionLeaks(s: Store, l: LineId, u: Unit, quantity: int, variant: Variant)
    requires BookLegal(s.accounts) && FirstMovement(s, l, u)
    requires u.item !in PhysicalItems(Expand(quantity, Some(variant)))
    ensures var steps := [ReserveMovement(l, u.item, u.quantity), ChangeLine(l, quantity, Some(variant)),
                          FlowStep(l, DeliverFlow(None))];
            var end := Next(Next(Next(s, steps[0]), steps[1]), steps[2]);
            && Runs(s, steps, end)
            && l in end.lines && end.lines[l].status == Some(LineDelivered)
            && NetReserved(AccountOf(end.accounts, u.item).log, l) ==
               Min(u.quantity, AccountOf(s.accounts, u.item).balance.Available()) > 0
  {
    hide Expand, ReserveUnit, HasKey, NetReserved, BookLegal, EmptyAccount, DeliverUnits, DeliverOrphans, FirstMovement,
         PhysicalItems;
    var steps := [ReserveMovement(l, u.item, u.quantity), ChangeLine(l, quantity, Some(variant)),
                  FlowStep(l, DeliverFlow(None))];
    assert steps[1..] == [steps[1], steps[2]] && steps[1..][1..] == [steps[2]] && steps[1..][1..][1..] == [];
    UnmarkedLine(s, l, u);
    MovementHolds(s, l, u);
    var interrupted := Next(s, steps[0]);
    var changed := Next(interrupted, steps[1]);
    var end := Next(changed, steps[2]);
    FlowLeaves(changed, l, DeliverFlow(None), u.item);
    assert Runs(changed, steps[1..][1..], end);
    assert Runs(interrupted, steps[1..], end);
  }

  // ---- What a line that is not marked reserved holds over a run ----

  /** Steps that are no flow of the line: neither a delivery, release or reservation that would change it, nor a mark,
      nor its removal. For a delivered line that is everything but a late mark. */
  predicate Quiet(status: Option<StockStatus>, step: Step, l: LineId) {
    match step
    case FlowStep(m, flow) =>
      m == l ==> flow.ReleaseFlow? || status == Some(LineDelivered) || (flow.ReserveFlow? && status.Some?)
    case MarkReserved(m) => m != l
    case DropLine(m) => m == l ==> status.Some?
    case _ => true
  }

  /** What a step adds to the line's reservation of an item: a first movement takes what is free. */
  function Taken(s: Store, step: Step, l: LineId, i: ItemId): int {
    if step.ReserveMovement? && step.l == l && step.i == i && !HasKey(AccountOf(s.accounts, i).log, ReserveKey(l))
    then Min(step.quantity, AccountOf(s.accounts, i).balance.Available())
    else 0
  }

  ghost function TakenOver(s: Store, steps: seq<Step>, l: LineId, i: ItemId): int
    decreases |steps|
  {
    if steps == [] then 0 else Taken(s, steps[0], l, i) + TakenOver(Next(s, steps[0]), steps[1..], l, i)
  }

  ghost predicate TakesNothing(s: Store, steps: seq<Step>, l: LineId) { forall i :: TakenOver(s, steps, l, i) == 0 }

  lemma MovementTakes(s: Store, l: LineId, j: ItemId, q: int, i: ItemId)
    requires BookLegal(s.accounts) && q > 0
    ensures var after := s.accounts[j := ReserveUnit(AccountOf(s.accounts, j), l, q)];
            NetReserved(AccountOf(after, i).log, l) ==
            NetReserved(AccountOf(s.accounts, i).log, l) + Taken(s, ReserveMovement(l, j, q), l, i)
    ensures Taken(s, ReserveMovement(l, j, q), l, i) >= 0
  {
    hide AccountOf, ReserveUnit, HasKey, NetReserved, BookLegal;
    AccountLegal(s.accounts, j);
    LegalIsValid(AccountOf(s.accounts, j));
    if HasKey(AccountOf(s.accounts, j).log, ReserveKey(l)) {
      Dropped(AccountOf(s.accounts, j), l, q);
    } else {
      NeverReserved(AccountOf(s.accounts, j), l);
      Interruption(s, l, j, q);
    }
    AccountPut(s.accounts, j, ReserveUnit(AccountOf(s.accounts, j), l, q), i);
  }

  lemma AccountPut(bk: Book, j: ItemId, a: Account, i: ItemId)
    ensures AccountOf(bk[j := a], i) == if i == j then a else AccountOf(bk, i)
  {
  }

  lemma Dropped(a: Account, l: LineId, quantity: int)
    requires HasKey(a.log, ReserveKey(l))
    ensures ReserveUnit(a, l, quantity) == a
  {
  }

  lemma QuietStepHolds(s: Store, step: Step, l: LineId, i: ItemId)
    requires BookLegal(s.accounts) && Enabled(s, step) && l in s.lines && Quiet(s.lines[l].status, step, l)
    requires s.lines[l].status != Some(LineReserved)
    ensures l in Next(s, step).lines && Next(s, step).lines[l].status == s.lines[l].status
    ensures NetReserved(AccountOf(Next(s, step).accounts, i).log, l) ==
            NetReserved(AccountOf(s.accounts, i).log, l) + Taken(s, step, l, i)
    ensures Taken(s, step, l, i) >= 0
  {
    hide BookLegal, AccountOf, Apply, ReserveUnit, ReconcileLine, ExternalMove, NetReserved, HasKey;
    if Subject(step) != Some(l) {
      StepLeavesOthers(s, step, l);
    } else {
      match step {
        case FlowStep(_, flow) => QuietFlow(s, l, flow);
        case ReserveMovement(_, j, q) => MovementTakes(s, l, j, q, i);
        case ReturnStep(_, targets) => ReturnHolds(s, l, targets, i);
        case ChangeLine(_, _, _) =>
        case NewLine(_, _) =>
      }
    }
  }

  lemma QuietFlow(s: Store, l: LineId, flow: Flow)
    requires l in s.lines && Quiet(s.lines[l].status, FlowStep(l, flow), l) && s.lines[l].status != Some(LineReserved)
    ensures Apply(s, l, flow) == s
  {
  }

  /** Over every quiet run an unmarked line keeps its status and every item's reservation, plus exactly what first
      movements of its own reservation take. */
  lemma {:induction false} QuietRunHolds(s: Store, steps: seq<Step>, end: Store, l: LineId, i: ItemId)
    requires BookLegal(s.accounts) && Runs(s, steps, end) && l in s.lines && s.lines[l].status != Some(LineReserved)
    requires forall k :: 0 <= k < |steps| ==> Quiet(s.lines[l].status, steps[k], l)
    ensures l in end.lines && end.lines[l].status == s.lines[l].status
    ensures NetReserved(AccountOf(end.accounts, i).log, l) ==
            NetReserved(AccountOf(s.accounts, i).log, l) + TakenOver(s, steps, l, i)
    ensures TakenOver(s, steps, l, i) >= 0
    decreases |steps|
  {
    hide BookLegal, AccountOf, NetReserved, Enabled, Next, Quiet, Taken;
    if steps != [] {
      StepKeepsBook(s, steps[0]);
      QuietStepHolds(s, steps[0], l, i);
      QuietRunHolds(Next(s, steps[0]), steps[1..], end, l, i);
    }
  }

  lemma {:induction false} ReservedOnce(s: Store, steps: seq<Step>, end: Store, l: LineId, i: ItemId)
    requires BookLegal(s.accounts) && Runs(s, steps, end) && HasKey(AccountOf(s.accounts, i).log, ReserveKey(l))
    ensures TakenOver(s, steps, l, i) == 0
    decreases |steps|
  {
    hide BookLegal, AccountOf, Enabled, Next, HasKey, Extends;
    if steps != [] {
      StepKeepsBook(s, steps[0]);
      assert Extends(AccountOf(s.accounts, i).log, AccountOf(Next(s, steps[0]).accounts, i).log);
      KeysStay(AccountOf(s.accounts, i).log, AccountOf(Next(s, steps[0]).accounts, i).log, ReserveKey(l));
      ReservedOnce(Next(s, steps[0]), steps[1..], end, l, i);
    }
  }

  lemma {:induction false} KeysStay(log: Log, log': Log, key: MoveKey)
    requires Extends(log, log') && HasKey(log, key)
    ensures HasKey(log', key)
  {
    if log != log' {
      KeysStay(log, log'.prior, key);
    }
  }

  /** What leaked stays for ever: over every quiet run the line keeps its status and what it holds of the item. */
  lemma LeakPersists(s: Store, steps: seq<Step>, end: Store, l: LineId, i: ItemId)
    requires BookLegal(s.accounts) && Runs(s, steps, end) && l in s.lines && s.lines[l].status != Some(LineReserved)
    requires NetReserved(AccountOf(s.accounts, i).log, l) > 0
    requires forall k :: 0 <= k < |steps| ==> Quiet(s.lines[l].status, steps[k], l)
    ensures l in end.lines && end.lines[l].status == s.lines[l].status
    ensures NetReserved(AccountOf(end.accounts, i).log, l) == NetReserved(AccountOf(s.accounts, i).log, l)
  {
    hide BookLegal, Runs, Quiet, AccountOf, NetReserved;
    QuietRunHolds(s, steps, end, l, i);
    HoldingIsReserved(s.accounts, l, i);
    ReservedOnce(s, steps, end, l, i);
  }

  lemma HoldingIsReserved(bk: Book, l: LineId, i: ItemId)
    requires BookLegal(bk) && NetReserved(AccountOf(bk, i).log, l) > 0
    ensures HasKey(AccountOf(bk, i).log, ReserveKey(l))
  {
    AccountLegal(bk, i);
    ReservationShape(AccountOf(bk, i).opening, AccountOf(bk, i).log, l);
  }

  /** What a delivered line holds it keeps over every run without a late mark of it. */
  lemma DeliveredLeakPersists(s: Store, steps: seq<Step>, end: Store, l: LineId, i: ItemId)
    requires BookLegal(s.accounts) && Runs(s, steps, end) && l in s.lines && s.lines[l].status == Some(LineDelivered)
    requires NetReserved(AccountOf(s.accounts, i).log, l) > 0 && MarkReserved(l) !in steps
    ensures l in end.lines && end.lines[l].status == Some(LineDelivered)
    ensures NetReserved(AccountOf(end.accounts, i).log, l) == NetReserved(AccountOf(s.accounts, i).log, l)
  {
    hide BookLegal, Runs, AccountOf, NetReserved;
    LeakPersists(s, steps, end, l, i);
  }

  /** When a delivered or released line holds nothing, over all runs: exactly when its last delivery or release cleared
      it and no first movement of its reservation took anything since. */
  lemma FinishedHoldsExactly(s: Store, ids: seq<LineId>, flow: Flow, steps: seq<Step>, end: Store, l: LineId)
    requires BookLegal(s.accounts) && !flow.ReserveFlow? && l in ids && l in s.lines
    requires Runs(ApplyAll(s, ids, flow), steps, end)
    requires l in ApplyAll(s, ids, flow).lines && ApplyAll(s, ids, flow).lines[l].status != Some(LineReserved)
    requires forall k :: 0 <= k < |steps| ==> Quiet(ApplyAll(s, ids, flow).lines[l].status, steps[k], l)
    ensures l in end.lines && end.lines[l].status == ApplyAll(s, ids, flow).lines[l].status
    ensures HoldsNothing(end, l) <==>
            Clears(s, l, flow) && TakesNothing(ApplyAll(s, ids, flow), steps, l)
  {
    hide ApplyAll, BookLegal, Runs, Quiet, AccountOf, NetReserved, TakenOver, Clears, Followed;
    var mid := ApplyAll(s, ids, flow);
    OrderSettlesExactly(s, ids, flow, l);
    BookStaysLegalAll(s, ids, flow);
    QuietRunHolds(mid, steps, end, l, 0);
    forall i
      ensures NetReserved(AccountOf(end.accounts, i).log, l) ==
              NetReserved(AccountOf(mid.accounts, i).log, l) + TakenOver(mid, steps, l, i)
      ensures TakenOver(mid, steps, l, i) >= 0 && NetReserved(AccountOf(mid.accounts, i).log, l) >= 0
    {
      QuietRunHolds(mid, steps, end, l, i);
      NoReservationElsewhere(mid.accounts, l, i);
    }
    if HoldsNothing(end, l) {
      forall i ensures NetReserved(AccountOf(mid.accounts, i).log, l) == 0 && TakenOver(mid, steps, l, i) == 0 {
        assert NetReserved(AccountOf(end.accounts, i).log, l) == 0;
      }
      assert HoldsNothing(mid, l);
    } else {
      var i :| NetReserved(AccountOf(end.accounts, i).log, l) != 0;
      if TakenOver(mid, steps, l, i) == 0 {
        assert NetReserved(AccountOf(mid.accounts, i).log, l) != 0;
        assert !HoldsNothing(mid, l);
      }
    }
  }

  // ---- Movements and marks that come after a delivery or release ----

  /** A delivery or release between two movements of one reservation, without any product change: the second movement
      leaves stock reserved for a line that is already delivered or released. */
  lemma LateMovementHolds(s: Store, l: LineId, flow: Flow, u: Unit)
    requires BookLegal(s.accounts) && l in s.lines && !flow.ReserveFlow? && !Followed(s, l, flow)
    requires u in Expand(s.lines[l].quantity, s.lines[l].variant) && !u.role.Packaging?
    requires var a := AccountOf(Apply(s, l, flow).accounts, u.item);
             !HasKey(a.log, ReserveKey(l)) && a.balance.Available() > 0
    ensures var steps := [FlowStep(l, flow), ReserveMovement(l, u.item, u.quantity)];
            var end := Next(Next(s, steps[0]), steps[1]);
            && Runs(s, steps, end)
            && l in end.lines
            && end.lines[l].status == Some(if flow.DeliverFlow? then LineDelivered else LineReleased)
            && NetReserved(AccountOf(end.accounts, u.item).log, l) ==
               Min(u.quantity, AccountOf(Apply(s, l, flow).accounts, u.item).balance.Available()) > 0
  {
    hide Expand, ReserveUnit, HasKey, NetReserved, BookLegal, EmptyAccount, DeliverUnits, DeliverOrphans,
         ReleaseEverywhere, PhysicalItems;
    var steps := [FlowStep(l, flow), ReserveMovement(l, u.item, u.quantity)];
    assert steps[1..] == [steps[1]] && steps[1..][1..] == [];
    var after := Apply(s, l, flow);
    BookStaysLegal(s, l, flow);
    ExpansionTidy(s.lines[l].quantity, s.lines[l].variant);
    Interruption(after, l, u.item, u.quantity);
    assert Runs(after, steps[1..], Next(after, steps[1]));
  }

  /** An input of this kind: a line never reserved nor delivered, with more of its item free than it asks for. */
  lemma DeliveryBetweenMovements(s: Store, l: LineId, units: seq<Unit>, k: nat)
    requires BookLegal(s.accounts) && InStep(s, l) && l in s.lines && Deliverable(s.lines[l], None)
    requires units == Expand(s.lines[l].quantity, s.lines[l].variant) && k < |units| && !units[k].role.Packaging?
    requires forall j :: 0 <= j < |units| && j != k ==> units[j].item != units[k].item
    requires var a := AccountOf(s.accounts, units[k].item);
             !HasKey(a.log, ReserveKey(l)) && a.balance.Available() > units[k].quantity
    ensures var u, free := units[k], AccountOf(s.accounts, units[k].item).balance.Available();
            var steps := [FlowStep(l, DeliverFlow(None)), ReserveMovement(l, u.item, u.quantity)];
            var end := Next(Next(s, steps[0]), steps[1]);
            && Runs(s, steps, end) && l in end.lines && end.lines[l].status == Some(LineDelivered)
            && NetReserved(AccountOf(end.accounts, u.item).log, l) == Min(u.quantity, free - u.quantity) > 0
  {
    hide Expand, ReserveUnit, HasKey, NetReserved, BookLegal, EmptyAccount, DeliverUnits, DeliverOrphans, PhysicalItems,
         InStep, DeliverLine, Works;
    var u, a := units[k], AccountOf(s.accounts, units[k].item);
    var b := AccountOf(DeliverLine(s, l, None).accounts, u.item);
    AccountLegal(s.accounts, u.item);
    NeverReserved(a, l);
    DeliveryIsGuaranteed(s, l, None, units, k);
    FlowWorks(s, l, DeliverFlow(None));
    WorksUse(s.accounts, DeliverLine(s, l, None).accounts, l, DeliveryKeys(l), u.item);
    assert HasKey(b.log, ReserveKey(l)) == HasKey(a.log, ReserveKey(l));
    LateMovementHolds(s, l, DeliverFlow(None), u);
  }

  lemma NeverReserved(a: Account, l: LineId)
    requires Legal(a) && !HasKey(a.log, ReserveKey(l))
    ensures NetReserved(a.log, l) == 0
  {
    ReservationShape(a.opening, a.log, l);
  }

  /** What a late mark changes: until then every flow passes a delivered line by. After it the next failure releases
      whatever the line holds and calls it released, with on hand and damaged stock as the delivery left them, and the
      next delivery settles it again and deducts no item twice. */
  lemma NextFlowAfterLateMark(s: Store, l: LineId, deliveredAt: Option<int>, units: seq<Unit>, k: nat)
    requires BookLegal(s.accounts) && l in s.lines && s.lines[l].status == Some(LineDelivered) &&
             s.lines[l].variant.Some?
    requires units == Expand(s.lines[l].quantity, s.lines[l].variant) && k < |units| && !units[k].role.Packaging?
    requires forall j :: 0 <= j < |units| && j != k ==> units[j].item != units[k].item
    requires HasKey(AccountOf(s.accounts, units[k].item).log, DeliverKey(l))
    ensures Apply(s, l, ReleaseFlow) == Apply(s, l, DeliverFlow(deliveredAt)) == s
    ensures var marked := Next(s, MarkReserved(l));
            var released, again := Apply(marked, l, ReleaseFlow), Apply(marked, l, DeliverFlow(deliveredAt));
            && l in released.lines && released.lines[l].status == Some(LineReleased) && HoldsNothing(released, l)
            && (forall i :: var a := AccountOf(s.accounts, i);
                  AccountOf(released.accounts, i).balance == a.balance.Plus(Reserved, -NetReserved(a.log, l)))
            && l in again.lines && again.lines[l].status == Some(LineDelivered) && HoldsNothing(again, l)
            && var before, after := AccountOf(s.accounts, units[k].item), AccountOf(again.accounts, units[k].item);
            after.balance == before.balance.Plus(Reserved, -NetReserved(before.log, l))
  {
    hide Expand, HasKey, NetReserved, BookLegal, EmptyAccount, DeliverUnits, DeliverOrphans, ReleaseEverywhere,
         PhysicalItems, ReleaseLine, DeliverLine, Legal;
    var marked := Next(s, MarkReserved(l));
    AlreadyDelivered(s, l, deliveredAt);
    ApplyFollows(marked, l, ReleaseFlow);
    MarkedFlows(marked, l, deliveredAt);
    forall i
      ensures NetReserved(AccountOf(ReleaseLine(marked, l).accounts, i).log, l) == 0
      ensures NetReserved(AccountOf(DeliverLine(marked, l, deliveredAt).accounts, i).log, l) == 0
      ensures var a := AccountOf(s.accounts, i);
              AccountOf(ReleaseLine(marked, l).accounts, i).balance == a.balance.Plus(Reserved, -NetReserved(a.log, l))
    {
      ReleaseSettles(marked, l, i);
      FlowLeaves(marked, l, DeliverFlow(deliveredAt), i);
    }
    DeliveryOfUnit(marked, l, deliveredAt, units, k);
    AccountLegal(s.accounts, units[k].item);
    SecondDelivery(AccountOf(s.accounts, units[k].item), l, units[k].quantity, units[k].role);
  }

  lemma AlreadyDelivered(s: Store, l: LineId, deliveredAt: Option<int>)
    requires l in s.lines && s.lines[l].status == Some(LineDelivered)
    ensures ReleaseLine(s, l) == s && DeliverLine(s, l, deliveredAt) == s
  {
  }

  lemma MarkedFlows(s: Store, l: LineId, deliveredAt: Option<int>)
    requires l in s.lines && s.lines[l].status == Some(LineReserved) && s.lines[l].variant.Some?
    ensures l in ReleaseLine(s, l).lines && ReleaseLine(s, l).lines[l].status == Some(LineReleased)
    ensures l in DeliverLine(s, l, deliveredAt).lines
    ensures DeliverLine(s, l, deliveredAt).lines[l].status == Some(LineDelivered)
  {
  }

  lemma SecondDelivery(a: Account, l: LineId, quantity: int, role: Role)
    requires Legal(a) && HasKey(a.log, DeliverKey(l)) && !role.Packaging?
    ensures DeliverUnit(a, l, quantity, role).balance == a.balance.Plus(Reserved, -NetReserved(a.log, l))
  {
    SettleClears(a, l);
    var b := Settle(a, l);
    assert ViewOf(b, l).balance == b.balance;
    assert DeliverUnit(a, l, quantity, role) == b;
  }
}
