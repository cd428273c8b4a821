/** What one step writes; the global stock invariant over every run, also those in which reservations are interleaved
    with other flows of their own line; and what ties one line to the logs, whatever happens to the others. */
module StockRuns {
  import opened Basics
  import opened StockAccounts
  import opened StockFlows
  import opened Catalogue
  import opened OrderStock

  // ---- What one step writes ----

  function FlowKeys(l: LineId, flow: Flow): set<MoveKey> {
    match flow
    case ReserveFlow => {ReserveKey(l)}
    case DeliverFlow(_) => DeliveryKeys(l)
    case ReleaseFlow => {ReleaseKey(l)}
  }

  /** Each flow only continues the accounts with movements of its line. */
  lemma FlowWorks(s: Store, l: LineId, flow: Flow)
    requires BookLegal(s.accounts)
    ensures Works(s.accounts, Apply(s, l, flow).accounts, l, FlowKeys(l, flow))
  {
    hide Works;
    if l !in s.lines || Apply(s, l, flow) == s {
      WorksRefl(s.accounts, l, FlowKeys(l, flow));
    } else {
      var line := s.lines[l];
      match flow {
        case ReserveFlow =>
          ExpansionTidy(line.quantity, line.variant);
          ReserveUnitsWork(s.accounts, l, Expand(line.quantity, line.variant));
        case DeliverFlow(at) => DeliveryWorks(s, l, at);
        case ReleaseFlow => ReleaseWorks(s.accounts, l);
      }
    }
  }

  lemma WorksTrans(x: Book, y: Book, z: Book, l: LineId, used: set<MoveKey>, more: set<MoveKey>)
    requires Works(x, y, l, used) && Works(y, z, l, more)
    ensures Works(x, z, l, used + more)
  {
    forall i | i in z ensures Touches(AccountOf(x, i), z[i], l) && OnlyKeys(AccountOf(x, i), z[i], used + more) {
      var a, b := AccountOf(x, i), AccountOf(y, i);
      if i in y {
        TouchesTrans(a, b, z[i], l);
      }
    }
  }

  function ReturnKeys(l: LineId, revision: int): set<MoveKey> {
    {ReleaseKey(l)} + {AllocationKey(l, revision, 0), AllocationKey(l, revision, 1)}
  }

  lemma ReleaseIsFlow(s: Store, l: LineId)
    requires BookLegal(s.accounts)
    ensures Works(s.accounts, ReleaseLine(s, l).accounts, l, {ReleaseKey(l)}) && BookLegal(ReleaseLine(s, l).accounts)
  {
    hide Works;
    FlowWorks(s, l, ReleaseFlow);
    WorksContinues(s.accounts, ReleaseLine(s, l).accounts, l, {ReleaseKey(l)});
  }

  /** A recorded return does the same, under the line's next revision; what it does to the line's own reservations is
      its release. */
  lemma ReturnWorks(s: Store, l: LineId, targets: map<ItemId, Target>)
    requires BookLegal(s.accounts) && l in s.lines && forall i :: i in targets ==> targets[i].damaged >= 0
    ensures Works(s.accounts, ReconcileLine(s, l, targets).accounts, l, ReturnKeys(l, s.lines[l].revision + 1))
    ensures forall i :: NetReserved(AccountOf(ReconcileLine(s, l, targets).accounts, i).log, l) ==
                        NetReserved(AccountOf(ReleaseLine(s, l).accounts, i).log, l)
  {
    hide Reconcile, EmptyAccount, ReconcileTargets, AllTargets, ReconcileLine, ReleaseEverywhere, Works, BookLegal;
    var r, revision := ReleaseLine(s, l), s.lines[l].revision + 1;
    ReturnIs(s, l, targets);
    ReleaseIsFlow(s, l);
    var all := AllTargets(r.accounts, l, targets);
    AllTargetsAllowed(r.accounts, l, targets);
    ReconcileWorks(r.accounts, l, revision, all);
    WorksTrans(s.accounts, r.accounts, ReconcileTargets(r.accounts, l, revision, all), l, {ReleaseKey(l)},
               {AllocationKey(l, revision, 0), AllocationKey(l, revision, 1)});
  }

  lemma MovementWorks(bk: Book, l: LineId, i: ItemId, quantity: int)
    requires BookLegal(bk) && quantity > 0
    ensures Works(bk, bk[i := ReserveUnit(AccountOf(bk, i), l, quantity)], l, {ReserveKey(l)})
  {
    hide ReserveUnit, EmptyAccount;
    WorksRefl(bk, l, {ReserveKey(l)});
    AccountLegal(bk, i);
    ReserveTouches(AccountOf(bk, i), l, quantity);
    WorksPut(bk, bk, l, {ReserveKey(l)}, i, ReserveUnit(AccountOf(bk, i), l, quantity));
  }

  function StepKeys(s: Store, step: Step): set<MoveKey> {
    match step
    case FlowStep(l, flow) => FlowKeys(l, flow)
    case ReserveMovement(l, _, _) => {ReserveKey(l)}
    case ReturnStep(l, _) => if l in s.lines then ReturnKeys(l, s.lines[l].revision + 1) else {}
    case OutsideStep(_, _, _, id) => {ExternalKey(id)}
    case _ => {}
  }

  /** Every step but one from outside continues the accounts with movements of its line alone, under its keys alone. */
  lemma StepWorks(s: Store, step: Step)
    requires BookLegal(s.accounts) && Enabled(s, step) && !step.OutsideStep?
    ensures Works(s.accounts, Next(s, step).accounts, step.l, StepKeys(s, step))
  {
    hide Works, Apply, ReconcileLine, ReserveUnit, BookLegal, FlowKeys;
    var l := step.l;
    match step {
      case FlowStep(_, flow) => FlowWorks(s, l, flow);
      case ReserveMovement(_, i, q) => MovementWorks(s.accounts, l, i, q);
      case ReturnStep(_, targets) =>
        if l in s.lines {
          ReturnWorks(s, l, targets);
        } else {
          NoReturn(s, l, targets);
          WorksRefl(s.accounts, l, {});
        }
      case ChangeLine(_, _, _) => WorksRefl(s.accounts, l, {});
      case NewLine(_, _) => WorksRefl(s.accounts, l, {});
      case DropLine(_) => WorksRefl(s.accounts, l, {});
      case MarkReserved(_) => WorksRefl(s.accounts, l, {});
    }
  }

  lemma NoReturn(s: Store, l: LineId, targets: map<ItemId, Target>)
    requires l !in s.lines
    ensures ReconcileLine(s, l, targets) == s
  {
  }

  lemma OutsideIs(a: Account, k: Bucket, delta: int, id: nat)
    ensures OnlyKeys(a, ExternalMove(a, k, delta, ExternalKey(id)), {ExternalKey(id)})
    ensures var log := ExternalMove(a, k, delta, ExternalKey(id)).log;
            && (forall l, b :: Total(log, LineIn(l, b)) == Total(a.log, LineIn(l, b)))
            && (forall l, b :: Total(log, ReturnOf(l, b)) == Total(a.log, ReturnOf(l, b)))
  {
  }

  lemma StepUses(s: Store, step: Step, i: ItemId)
    requires BookLegal(s.accounts) && Enabled(s, step)
    ensures OnlyKeys(AccountOf(s.accounts, i), AccountOf(Next(s, step).accounts, i), StepKeys(s, step))
  {
    hide BookLegal, Apply, ReconcileLine, ReserveUnit, ExternalMove, StepKeys, Enabled, OnlyKeys;
    if step.OutsideStep? {
      OutsideIs(AccountOf(s.accounts, step.i), step.bucket, step.delta, step.id);
      OutsideUses(s, step, i);
    } else {
      StepWorks(s, step);
      WorksUse(s.accounts, Next(s, step).accounts, step.l, StepKeys(s, step), i);
    }
  }

  lemma OutsideUses(s: Store, step: Step, i: ItemId)
    requires step.OutsideStep?
    ensures OnlyKeys(AccountOf(s.accounts, i), AccountOf(Next(s, step).accounts, i), StepKeys(s, step))
  {
    OutsideIs(AccountOf(s.accounts, i), step.bucket, step.delta, step.id);
  }

  lemma WorksUse(bk: Book, bk': Book, l: LineId, used: set<MoveKey>, i: ItemId)
    requires Works(bk, bk', l, used)
    ensures OnlyKeys(AccountOf(bk, i), AccountOf(bk', i), used)
  {
  }

  // ---- Books over runs ----

  lemma WorksContinues(bk: Book, bk': Book, l: LineId, used: set<MoveKey>)
    requires BookLegal(bk) && Works(bk, bk', l, used)
    ensures BookLegal(bk') && Continues(bk, bk')
  {
    forall i ensures AccountOf(bk', i).opening == AccountOf(bk, i).opening &&
                     Extends(AccountOf(bk, i).log, AccountOf(bk', i).log) {
      assert i in bk' ==> Touches(AccountOf(bk, i), bk'[i], l);
    }
  }

  lemma BookStaysLegal(s: Store, l: LineId, flow: Flow)
    requires BookLegal(s.accounts)
    ensures BookLegal(Apply(s, l, flow).accounts) && Continues(s.accounts, Apply(s, l, flow).accounts)
  {
    hide Works, Apply, BookLegal, Continues;
    FlowWorks(s, l, flow);
    WorksContinues(s.accounts, Apply(s, l, flow).accounts, l, FlowKeys(l, flow));
  }

  lemma {:induction false} BookStaysLegalAll(s: Store, ids: seq<LineId>, flow: Flow)
    requires BookLegal(s.accounts)
    ensures BookLegal(ApplyAll(s, ids, flow).accounts)
  {
    hide BookLegal, Apply, Continues;
    if ids != [] {
      BookStaysLegalAll(s, ids[..|ids| - 1], flow);
      BookStaysLegal(ApplyAll(s, ids[..|ids| - 1], flow), ids[|ids| - 1], flow);
    }
  }

  lemma OutsideKeepsBook(bk: Book, i: ItemId, k: Bucket, delta: int, id: nat)
    requires BookLegal(bk) && ExternalLegal(AccountOf(bk, i).opening, AccountOf(bk, i).log, k, delta)
    ensures var bk' := bk[i := ExternalMove(AccountOf(bk, i), k, delta, ExternalKey(id))];
            BookLegal(bk') && Continues(bk, bk')
  {
    AccountLegal(bk, i);
    ExternalKeepsLegal(AccountOf(bk, i), k, delta, id);
  }

  lemma StepKeepsBook(s: Store, step: Step)
    requires BookLegal(s.accounts) && Enabled(s, step)
    ensures BookLegal(Next(s, step).accounts) && Continues(s.accounts, Next(s, step).accounts)
  {
    hide BookLegal, Continues, Works, Apply, ReconcileLine, ReserveUnit, ExternalMove, StepKeys;
    match step {
      case OutsideStep(i, k, d, id) => OutsideKeepsBook(s.accounts, i, k, d, id);
      case _ =>
        StepWorks(s, step);
        WorksContinues(s.accounts, Next(s, step).accounts, step.l, StepKeys(s, step));
    }
  }

  /** Every run keeps every account legal and every log growing, however reservations interleave. */
  lemma {:induction false} RunsKeepBooks(s: Store, steps: seq<Step>, end: Store)
    requires BookLegal(s.accounts) && Runs(s, steps, end)
    ensures BookLegal(end.accounts) && Continues(s.accounts, end.accounts)
    decreases |steps|
  {
    hide BookLegal, Continues, Enabled, Next;
    if steps == [] {
      SameBook(s.accounts);
    } else {
      StepKeepsBook(s, steps[0]);
      RunsKeepBooks(Next(s, steps[0]), steps[1..], end);
      ContinuesTrans(s.accounts, Next(s, steps[0]).accounts, end.accounts);
    }
  }

  lemma SameBook(bk: Book)
    ensures Continues(bk, bk)
  {
  }

  /** The global stock invariant at the end of every run from legal accounts, item by item: the balance is valid; each
      bucket is its start plus the logged deltas; the log is an exact history; reserved stock is the outside part plus
      the non-negative reservations of the lines. */
  lemma StockInvariant(s: Store, steps: seq<Step>, end: Store, i: ItemId, k: Bucket)
    requires BookLegal(s.accounts) && Runs(s, steps, end)
    ensures var a := AccountOf(end.accounts, i);
            && 0 <= a.balance.reserved && 0 <= a.balance.damaged &&
               a.balance.reserved + a.balance.damaged <= a.balance.onHand
            && a.balance.Available() == a.balance.onHand - a.balance.reserved - a.balance.damaged
            && a.balance.Get(k) == AccountOf(s.accounts, i).opening.Get(k) + Total(a.log, InBucket(k))
            && History(a.opening, a.log)
            && a.balance.reserved ==
               a.opening.reserved + Total(a.log, External(Reserved)) + HeldBy(a.log, LinesOf(a.log), Reserved)
            && forall l :: 0 <= NetReserved(a.log, l) <= a.balance.reserved
  {
    hide Runs;
    RunsKeepBooks(s, steps, end);
    var a := AccountOf(end.accounts, i);
    AccountLegal(end.accounts, i);
    LegalIsValid(a);
    ReplaySums(a.opening, a.log, k);
    LogIsHistory(a.opening, a.log);
    ReservedIsShared(a, 0);
    forall l ensures 0 <= NetReserved(a.log, l) <= a.balance.reserved {
      ReservedIsShared(a, l);
    }
  }

  // ---- One line over runs ----

  /** A line's row under a step: revisions only rise, a return takes the next one, and only a delivery and a mark turn
      the delivered status on and off. */
  lemma RowAfter(s: Store, step: Step, l: LineId)
    requires Enabled(s, step) && l in Next(s, step).lines && l in s.lines
    ensures Subject(step) != Some(l) ==> Next(s, step).lines[l] == s.lines[l]
    ensures Next(s, step).lines[l].revision == s.lines[l].revision + if step.ReturnStep? && step.l == l then 1 else 0
    ensures Next(s, step).lines[l].status == Some(LineDelivered) && s.lines[l].status != Some(LineDelivered) ==>
              step.FlowStep? && step.l == l && step.flow.DeliverFlow?
    ensures Next(s, step).lines[l].status != Some(LineDelivered) && s.lines[l].status == Some(LineDelivered) ==>
              step == MarkReserved(l)
    ensures step.FlowStep? && step.flow.DeliverFlow? && Next(s, step) != s && step.l == l ==>
              Next(s, step).lines[l].status == Some(LineDelivered)
  {
    hide DeliverUnits, ReserveUnits, DeliverOrphans, ReleaseEverywhere, Expand, ReconcileTargets, AllTargets;
  }

  /** Only a line's own steps add or remove it. */
  lemma RowsElsewhere(s: Store, step: Step, l: LineId)
    requires Subject(step) != Some(l)
    ensures l in Next(s, step).lines <==> l in s.lines
    ensures l in s.lines ==> Next(s, step).lines[l] == s.lines[l]
  {
    hide DeliverUnits, ReserveUnits, DeliverOrphans, ReleaseEverywhere, Expand, ReconcileTargets, AllTargets;
  }

  lemma Appears(s: Store, step: Step, l: LineId)
    requires Enabled(s, step) && l in Next(s, step).lines && l !in s.lines
    ensures step.NewLine? && step.l == l && Unused(s.accounts, l) && Next(s, step).accounts == s.accounts
  {
    hide DeliverUnits, ReserveUnits, DeliverOrphans, ReleaseEverywhere, Expand, ReconcileTargets, AllTargets;
  }

  lemma StepStaysNumbered(s: Store, step: Step, l: LineId)
    requires BookLegal(s.accounts) && Enabled(s, step) && Numbered(s, l)
    ensures Numbered(Next(s, step), l)
  {
    hide BookLegal, Enabled, Next, AccountOf, HasKey, Unused;
    var after := Next(s, step);
    if l in after.lines {
      forall i, revision, index | HasKey(AccountOf(after.accounts, i).log, AllocationKey(l, revision, index))
        ensures revision <= after.lines[l].revision
      {
        if l in s.lines {
          StepUses(s, step, i);
          RowAfter(s, step, l);
        } else {
          Appears(s, step, l);
          NeverUsed(s.accounts, l, i, AllocationKey(l, revision, index));
        }
      }
    }
  }

  lemma NeverUsed(bk: Book, l: LineId, i: ItemId, key: MoveKey)
    requires Unused(bk, l) && KeyOwner(key) == Some(l)
    ensures !HasKey(AccountOf(bk, i).log, key)
  {
  }

  /** Over every run, however steps interleave: returns of a line are booked under its revisions so far. */
  lemma {:induction false} RunsStayNumbered(s: Store, steps: seq<Step>, end: Store, l: LineId)
    requires BookLegal(s.accounts) && Numbered(s, l) && Runs(s, steps, end)
    ensures BookLegal(end.accounts) && Numbered(end, l)
    decreases |steps|
  {
    hide BookLegal, Numbered, Enabled, Next;
    if steps != [] {
      StepKeepsBook(s, steps[0]);
      StepStaysNumbered(s, steps[0], l);
      RunsStayNumbered(Next(s, steps[0]), steps[1..], end, l);
    }
  }

  /** A mark that comes after a delivery of its line. */
  predicate LateMark(s: Store, step: Step, l: LineId) {
    step == MarkReserved(l) && l in s.lines && s.lines[l].status == Some(LineDelivered)
  }

  lemma StepStaysInStep(s: Store, step: Step, l: LineId)
    requires BookLegal(s.accounts) && Enabled(s, step) && InStep(s, l) && !LateMark(s, step, l)
    ensures InStep(Next(s, step), l)
  {
    hide BookLegal, Enabled, Next, AccountOf, HasKey, Unused;
    var after := Next(s, step);
    if l in after.lines && after.lines[l].status != Some(LineDelivered) && after != s {
      forall i, key | key in DeliveryKeys(l) ensures !HasKey(AccountOf(after.accounts, i).log, key) {
        if l in s.lines {
          StepUses(s, step, i);
          RowAfter(s, step, l);
        } else {
          Appears(s, step, l);
          NeverUsed(s.accounts, l, i, key);
        }
      }
    }
  }

  ghost predicate NoLateMark(s: Store, steps: seq<Step>, l: LineId)
    decreases |steps|
  {
    steps != [] ==> !LateMark(s, steps[0], l) && NoLateMark(Next(s, steps[0]), steps[1..], l)
  }

  /** Over every run in which the line itself is not marked after its delivery, whatever happens to other lines and
      however its reservation is interleaved otherwise: no delivery of it is booked before its status says so. */
  lemma {:induction false} RunsStayInStep(s: Store, steps: seq<Step>, end: Store, l: LineId)
    requires BookLegal(s.accounts) && InStep(s, l) && Runs(s, steps, end) && NoLateMark(s, steps, l)
    ensures BookLegal(end.accounts) && InStep(end, l)
    decreases |steps|
  {
    hide BookLegal, InStep, Enabled, Next, LateMark;
    if steps != [] {
      StepKeepsBook(s, steps[0]);
      StepStaysInStep(s, steps[0], l);
      RunsStayInStep(Next(s, steps[0]), steps[1..], end, l);
    }
  }

  // ---- A reservation as its own movements ----

  lemma {:induction false} RunsAppend(s: Store, steps: seq<Step>, mid: Store, step: Step)
    requires Runs(s, steps, mid) && Enabled(mid, step)
    ensures Runs(s, steps + [step], Next(mid, step))
    decreases |steps|
  {
    hide Enabled, Next;
    if steps == [] {
      assert [step][1..] == [];
      assert Runs(Next(mid, step), [], Next(mid, step));
    } else {
      assert (steps + [step])[1..] == steps[1..] + [step];
      RunsAppend(Next(s, steps[0]), steps[1..], mid, step);
    }
  }

  lemma {:induction false} UnitsAsMovements(s: Store, l: LineId, units: seq<Unit>) returns (steps: seq<Step>)
    requires Positive(units)
    ensures Runs(s, steps, s.(accounts := ReserveUnits(s.accounts, l, units)))
    ensures forall step :: step in steps ==> step.ReserveMovement? && step.l == l
  {
    hide ReserveUnit, EmptyAccount;
    steps := [];
    if units != [] {
      var u, rest := units[|units| - 1], units[..|units| - 1];
      LastUnit(units);
      steps := UnitsAsMovements(s, l, rest);
      var mid := s.(accounts := ReserveUnits(s.accounts, l, rest));
      if !u.role.Packaging? {
        RunsAppend(s, steps, mid, ReserveMovement(l, u.item, u.quantity));
        steps := steps + [ReserveMovement(l, u.item, u.quantity)];
      }
    }
  }

  /** The reservation of a line is a run of its movements and its mark, so runs of single movements and marks contain
      every interleaving of it. */
  lemma ReservationAsSteps(s: Store, l: LineId) returns (steps: seq<Step>)
    requires l in s.lines && s.lines[l].status == None && s.lines[l].variant.Some?
    ensures Runs(s, steps, ReserveLine(s, l))
    ensures forall step :: step in steps ==> (step.ReserveMovement? || step.MarkReserved?) && step.l == l
  {
    hide ReserveUnits, Expand;
    var line := s.lines[l];
    ExpansionTidy(line.quantity, line.variant);
    steps := UnitsAsMovements(s, l, Expand(line.quantity, line.variant));
    var mid := s.(accounts := ReserveUnits(s.accounts, l, Expand(line.quantity, line.variant)));
    RunsAppend(s, steps, mid, MarkReserved(l));
    steps := steps + [MarkReserved(l)];
  }

  /** What a late mark does: a line that was delivered meanwhile is marked reserved again, although its delivery is
      booked. */
  lemma LateMarkUndoesDelivery(s: Store, l: LineId, i: ItemId)
    requires l in s.lines && HasKey(AccountOf(s.accounts, i).log, DeliverKey(l))
    ensures Enabled(s, MarkReserved(l)) && !InStep(Next(s, MarkReserved(l)), l)
  {
    assert DeliverKey(l) in DeliveryKeys(l);
    assert HasKey(AccountOf(Next(s, MarkReserved(l)).accounts, i).log, DeliverKey(l));
  }
}
