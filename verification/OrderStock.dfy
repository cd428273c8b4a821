/** Order-driven stock over many lines and items: reserve at dispatch, deduct on delivery, release on cancel or
    return, reconcile returns; the accounts of StockAccounts updated in place. An item without an account is an
    item with an empty one. */
module OrderStock {
  import opened Basics
  import opened StockAccounts
  import opened StockFlows
  import opened Catalogue

  datatype StockStatus = LineReserved | LineReleased | LineDelivered

  datatype OrderLine = OrderLine(quantity: int, variant: Option<Variant>, createdAt: int,
                                 status: Option<StockStatus>, revision: nat)

  type Book = map<ItemId, Account>

  datatype Store = Store(accounts: Book, lines: map<LineId, OrderLine>)

  function AccountOf(bk: Book, i: ItemId): Account { if i in bk then bk[i] else EmptyAccount(i) }

  function PhysicalItems(units: seq<Unit>): set<ItemId> {
    set u | u in units && !u.role.Packaging? :: u.item
  }

  // ---- The flows of one line ----

  function ReserveUnits(bk: Book, l: LineId, units: seq<Unit>): Book {
    if units == [] then bk
    else
      var prior, u := ReserveUnits(bk, l, units[..|units| - 1]), units[|units| - 1];
      if u.role.Packaging? then prior else prior[u.item := ReserveUnit(AccountOf(prior, u.item), l, u.quantity)]
  }

  function DeliverUnits(bk: Book, l: LineId, units: seq<Unit>): Book {
    if units == [] then bk
    else
      var prior, u := DeliverUnits(bk, l, units[..|units| - 1]), units[|units| - 1];
      prior[u.item := DeliverUnit(AccountOf(prior, u.item), l, u.quantity, u.role)]
  }

  predicate Orphaned(bk: Book, l: LineId, current: set<ItemId>, i: ItemId) {
    i in bk && i !in current && NetReserved(bk[i].log, l) > 0
  }

  function DeliverOrphans(bk: Book, l: LineId, current: set<ItemId>): Book {
    map i | i in bk :: if Orphaned(bk, l, current, i) then DeliverOrphan(bk[i], l) else bk[i]
  }

  function ReleaseEverywhere(bk: Book, l: LineId): Book {
    map i | i in bk :: Release(bk[i], l)
  }

  predicate HasReturn(log: Log, l: LineId) {
    log.Then? && ((log.row.line == Some(l) && IsReturn(log.row.kind)) || HasReturn(log.prior, l))
  }

  /** Items with earlier returns of the line are reconciled too, down to nothing. */
  function AllTargets(bk: Book, l: LineId, targets: map<ItemId, Target>): map<ItemId, Target> {
    (map i | i in bk && HasReturn(bk[i].log, l) :: Target(0, 0)) + targets
  }

  function ReconcileTargets(bk: Book, l: LineId, revision: int, targets: map<ItemId, Target>): Book {
    map i | i in bk.Keys + targets.Keys ::
      if i in targets then Reconcile(AccountOf(bk, i), l, revision, targets[i]) else bk[i]
  }

  predicate Deliverable(line: OrderLine, deliveredAt: Option<int>) {
    && line.variant.Some? && line.status != Some(LineDelivered)
    && !(deliveredAt.Some? && line.status == None && line.createdAt > deliveredAt.value)
  }

  function ReserveLine(s: Store, l: LineId): Store {
    if l !in s.lines || s.lines[l].variant == None || s.lines[l].status.Some? then s
    else
      var line := s.lines[l];
      Store(ReserveUnits(s.accounts, l, Expand(line.quantity, line.variant)),
            s.lines[l := line.(status := Some(LineReserved))])
  }

  function DeliverLine(s: Store, l: LineId, deliveredAt: Option<int>): Store {
    if l !in s.lines || !Deliverable(s.lines[l], deliveredAt) then s
    else
      var line := s.lines[l];
      var units := Expand(line.quantity, line.variant);
      var bk := DeliverUnits(s.accounts, l, units);
      Store(if line.status == Some(LineReserved) then DeliverOrphans(bk, l, PhysicalItems(units)) else bk,
            s.lines[l := line.(status := Some(LineDelivered))])
  }

  function ReleaseLine(s: Store, l: LineId): Store {
    if l !in s.lines || s.lines[l].status != Some(LineReserved) then s
    else Store(ReleaseEverywhere(s.accounts, l), s.lines[l := s.lines[l].(status := Some(LineReleased))])
  }

  /** A recorded return takes the line's next revision; a line still reserved is released first. */
  function ReconcileLine(s: Store, l: LineId, targets: map<ItemId, Target>): Store {
    if l !in s.lines then s
    else
      var r := ReleaseLine(s, l);
      var line := r.lines[l].(revision := r.lines[l].revision + 1);
      Store(ReconcileTargets(r.accounts, l, line.revision, AllTargets(r.accounts, l, targets)), r.lines[l := line])
  }

  // ---- Runs ----

  datatype Flow = ReserveFlow | DeliverFlow(deliveredAt: Option<int>) | ReleaseFlow

  function Apply(s: Store, l: LineId, flow: Flow): Store {
    match flow
    case ReserveFlow => ReserveLine(s, l)
    case DeliverFlow(at) => DeliverLine(s, l, at)
    case ReleaseFlow => ReleaseLine(s, l)
  }

  function ApplyAll(s: Store, ids: seq<LineId>, flow: Flow): Store {
    if ids == [] then s else Apply(ApplyAll(s, ids[..|ids| - 1], flow), ids[|ids| - 1], flow)
  }

  /** The steps that interleave. Deliveries, releases and returns hold their order's transaction; a reservation does
      not, so besides whole it also appears as single movements, at any time and of any quantity, and as a mark that
      may come late or never. Platform updates and catalogue edits may change a line's quantity, its product and what
      that product contains; a line with a stock status stays. Stock also changes from outside the order flows. */
  datatype Step =
    | FlowStep(l: LineId, flow: Flow)
    | ReserveMovement(l: LineId, i: ItemId, quantity: int)
    | MarkReserved(l: LineId)
    | ReturnStep(l: LineId, targets: map<ItemId, Target>)
    | ChangeLine(l: LineId, quantity: int, variant: Option<Variant>)
    | NewLine(l: LineId, line: OrderLine)
    | DropLine(l: LineId)
    | OutsideStep(i: ItemId, bucket: Bucket, delta: int, id: nat)

  ghost predicate Unused(bk: Book, l: LineId) {
    forall i, key :: i in bk && KeyOwner(key) == Some(l) ==> !HasKey(bk[i].log, key)
  }

  ghost predicate Enabled(s: Store, step: Step) {
    match step
    case FlowStep(_, _) => true
    case ReserveMovement(_, _, q) => q > 0
    case MarkReserved(l) => l in s.lines
    case ReturnStep(l, targets) => forall i :: i in targets ==> targets[i].damaged >= 0
    case ChangeLine(l, _, _) => l in s.lines
    case NewLine(l, line) => l !in s.lines && Unused(s.accounts, l) && line.status == None && line.revision == 0
    case DropLine(l) => l in s.lines && s.lines[l].status == None
    case OutsideStep(i, k, d, _) => ExternalLegal(AccountOf(s.accounts, i).opening, AccountOf(s.accounts, i).log, k, d)
  }

  function Next(s: Store, step: Step): Store {
    match step
    case FlowStep(l, flow) => Apply(s, l, flow)
    case ReserveMovement(l, i, q) => s.(accounts := s.accounts[i := ReserveUnit(AccountOf(s.accounts, i), l, q)])
    case MarkReserved(l) =>
      if l in s.lines then s.(lines := s.lines[l := s.lines[l].(status := Some(LineReserved))]) else s
    case ReturnStep(l, targets) => ReconcileLine(s, l, targets)
    case ChangeLine(l, q, v) =>
      if l in s.lines then s.(lines := s.lines[l := s.lines[l].(quantity := q, variant := v)]) else s
    case NewLine(l, line) => s.(lines := s.lines[l := line])
    case DropLine(l) => s.(lines := s.lines - {l})
    case OutsideStep(i, k, d, id) =>
      s.(accounts := s.accounts[i := ExternalMove(AccountOf(s.accounts, i), k, d, ExternalKey(id))])
  }

  ghost predicate Runs(s: Store, steps: seq<Step>, end: Store)
    decreases |steps|
  {
    if steps == [] then end == s else Enabled(s, steps[0]) && Runs(Next(s, steps[0]), steps[1..], end)
  }

  /** The line a step is about. */
  function Subject(step: Step): Option<LineId> {
    if step.OutsideStep? then None else Some(step.l)
  }

  // ---- What every run keeps ----

  function KeyOwner(key: MoveKey): Option<LineId> {
    match key
    case ExternalKey(_) => None
    case ReserveKey(l) => Some(l)
    case SettleKey(l) => Some(l)
    case DeliverKey(l) => Some(l)
    case PackagingKey(l) => Some(l)
    case ReleaseKey(l) => Some(l)
    case AllocationKey(l, _, _) => Some(l)
  }

  ghost predicate BookLegal(bk: Book) { forall i :: i in bk ==> Legal(bk[i]) }

  /** Returns of a line are booked under its revisions so far. */
  ghost predicate Numbered(s: Store, l: LineId) {
    l in s.lines ==>
      forall i, revision, index :: HasKey(AccountOf(s.accounts, i).log, AllocationKey(l, revision, index)) ==>
                                     revision <= s.lines[l].revision
  }

  /** No delivery of a line is booked before its status says so. */
  ghost predicate InStep(s: Store, l: LineId) {
    l in s.lines && s.lines[l].status != Some(LineDelivered) ==>
      forall i, key :: key in DeliveryKeys(l) ==> !HasKey(AccountOf(s.accounts, i).log, key)
  }

  /** b continues a with movements of line l alone. */
  ghost predicate Touches(a: Account, b: Account, l: LineId) {
    && Legal(b) && OnlyLine(a, b, l)
    && forall key :: KeyOwner(key) != Some(l) ==> (HasKey(b.log, key) <==> HasKey(a.log, key))
  }

  lemma TouchesTrans(a: Account, b: Account, c: Account, l: LineId)
    requires Touches(a, b, l) && Touches(b, c, l)
    ensures Touches(a, c, l)
  {
    OnlyLineTrans(a, b, c, l);
  }

  lemma ReserveTouches(a: Account, l: LineId, quantity: int)
    requires Legal(a) && quantity > 0
    ensures Touches(a, ReserveUnit(a, l, quantity), l)
    ensures OnlyKeys(a, ReserveUnit(a, l, quantity), {ReserveKey(l)})
  {
    var m := Request(OrderReserved, Reserved, quantity, l, ReserveKey(l));
    MoveEffect(a, m);
    MoveKeepsLegal(a, m);
  }

  lemma DeliverTouches(a: Account, l: LineId, quantity: nat, role: Role)
    requires Legal(a)
    ensures Touches(a, DeliverUnit(a, l, quantity, role), l)
    ensures OnlyKeys(a, DeliverUnit(a, l, quantity, role), {SettleKey(l), DeliverKey(l), PackagingKey(l)})
    ensures NetReserved(DeliverUnit(a, l, quantity, role).log, l) ==
            (if role.Packaging? then NetReserved(a.log, l) else 0)
  {
    DeliverKeepsLegal(a, l, quantity, role);
  }

  lemma OrphanTouches(a: Account, l: LineId)
    requires Legal(a) && NetReserved(a.log, l) > 0
    ensures Touches(a, DeliverOrphan(a, l), l)
    ensures OnlyKeys(a, DeliverOrphan(a, l), {SettleKey(l), DeliverKey(l), PackagingKey(l)})
    ensures NetReserved(DeliverOrphan(a, l).log, l) == 0
  {
    DeliverTouches(a, l, NetReserved(a.log, l), Product);
  }

  lemma ReleaseTouches(a: Account, l: LineId)
    requires Legal(a)
    ensures Touches(a, Release(a, l), l)
    ensures OnlyKeys(a, Release(a, l), {ReleaseKey(l)})
    ensures NetReserved(Release(a, l).log, l) == 0
  {
    ReleaseClears(a, l);
    assert ViewOf(Release(a, l), l).reserved == 0;
  }

  lemma ReconcileTouches(a: Account, l: LineId, revision: int, t: Target)
    requires Legal(a) && t.damaged >= 0
    ensures Touches(a, Reconcile(a, l, revision, t), l)
    ensures OnlyKeys(a, Reconcile(a, l, revision, t), {AllocationKey(l, revision, 0), AllocationKey(l, revision, 1)})
    ensures NetReserved(Reconcile(a, l, revision, t).log, l) == NetReserved(a.log, l)
  {
    ReconcileKeepsLegal(a, l, revision, t);
  }

  // ---- Whole books ----

  /** bk' continues every account of bk with movements of line l, under these keys alone. */
  ghost predicate Works(bk: Book, bk': Book, l: LineId, used: set<MoveKey>) {
    && bk.Keys <= bk'.Keys
    && forall i :: i in bk' ==> Touches(AccountOf(bk, i), bk'[i], l) && OnlyKeys(AccountOf(bk, i), bk'[i], used)
  }

  lemma AccountLegal(bk: Book, i: ItemId)
    requires BookLegal(bk)
    ensures Legal(AccountOf(bk, i))
  {
  }

  lemma WorksRefl(bk: Book, l: LineId, used: set<MoveKey>)
    requires BookLegal(bk)
    ensures Works(bk, bk, l, used)
  {
  }

  lemma WorksPut(bk: Book, p: Book, l: LineId, used: set<MoveKey>, i: ItemId, a: Account)
    requires Works(bk, p, l, used) && Touches(AccountOf(p, i), a, l) && OnlyKeys(AccountOf(p, i), a, used)
    ensures Works(bk, p[i := a], l, used)
  {
    if i in p {
      TouchesTrans(AccountOf(bk, i), p[i], a, l);
    }
  }

  predicate Positive(units: seq<Unit>) { forall u :: u in units ==> u.quantity > 0 }

  lemma LastUnit(units: seq<Unit>)
    requires units != []
    ensures PhysicalItems(units) == PhysicalItems(units[..|units| - 1]) +
            (if units[|units| - 1].role.Packaging? then {} else {units[|units| - 1].item})
    ensures Positive(units) ==> Positive(units[..|units| - 1]) && units[|units| - 1].quantity > 0
  {
    assert units == units[..|units| - 1] + [units[|units| - 1]];
  }

  lemma {:induction false} ReserveUnitsWork(bk: Book, l: LineId, units: seq<Unit>)
    requires BookLegal(bk) && Positive(units)
    ensures Works(bk, ReserveUnits(bk, l, units), l, {ReserveKey(l)})
  {
    if units != [] {
      var u, p := units[|units| - 1], ReserveUnits(bk, l, units[..|units| - 1]);
      LastUnit(units);
      ReserveUnitsWork(bk, l, units[..|units| - 1]);
      if !u.role.Packaging? {
        AccountLegal(p, u.item);
        ReserveTouches(AccountOf(p, u.item), l, u.quantity);
        WorksPut(bk, p, l, {ReserveKey(l)}, u.item, ReserveUnit(AccountOf(p, u.item), l, u.quantity));
      }
    }
  }

  function DeliveryKeys(l: LineId): set<MoveKey> { {SettleKey(l), DeliverKey(l), PackagingKey(l)} }

  lemma {:induction false} DeliverUnitsWork(bk: Book, l: LineId, units: seq<Unit>)
    requires BookLegal(bk) && Positive(units)
    ensures Works(bk, DeliverUnits(bk, l, units), l, DeliveryKeys(l))
    ensures forall i :: NetReserved(AccountOf(DeliverUnits(bk, l, units), i).log, l) ==
                        if i in PhysicalItems(units) then 0 else NetReserved(AccountOf(bk, i).log, l)
  {
    if units != [] {
      var u, p := units[|units| - 1], DeliverUnits(bk, l, units[..|units| - 1]);
      LastUnit(units);
      DeliverUnitsWork(bk, l, units[..|units| - 1]);
      AccountLegal(p, u.item);
      DeliverTouches(AccountOf(p, u.item), l, u.quantity, u.role);
      WorksPut(bk, p, l, DeliveryKeys(l), u.item, DeliverUnit(AccountOf(p, u.item), l, u.quantity, u.role));
    }
  }

  lemma OrphansWork(bk: Book, l: LineId, current: set<ItemId>)
    requires BookLegal(bk)
    ensures Works(bk, DeliverOrphans(bk, l, current), l, DeliveryKeys(l))
    ensures forall i :: NetReserved(AccountOf(DeliverOrphans(bk, l, current), i).log, l) ==
                        if Orphaned(bk, l, current, i) then 0 else NetReserved(AccountOf(bk, i).log, l)
  {
    forall i | i in bk && Orphaned(bk, l, current, i)
      ensures Touches(bk[i], DeliverOrphan(bk[i], l), l) && OnlyKeys(bk[i], DeliverOrphan(bk[i], l), DeliveryKeys(l))
      ensures NetReserved(DeliverOrphan(bk[i], l).log, l) == 0
    {
      OrphanTouches(bk[i], l);
    }
  }

  lemma ReleaseWorks(bk: Book, l: LineId)
    requires BookLegal(bk)
    ensures Works(bk, ReleaseEverywhere(bk, l), l, {ReleaseKey(l)})
    ensures forall i :: NetReserved(AccountOf(ReleaseEverywhere(bk, l), i).log, l) == 0
  {
    forall i | i in bk
      ensures Touches(bk[i], Release(bk[i], l), l) && OnlyKeys(bk[i], Release(bk[i], l), {ReleaseKey(l)})
      ensures NetReserved(Release(bk[i], l).log, l) == 0
    {
      ReleaseTouches(bk[i], l);
    }
  }

  lemma ReconcileWorks(bk: Book, l: LineId, revision: int, targets: map<ItemId, Target>)
    requires BookLegal(bk) && forall i :: i in targets ==> targets[i].damaged >= 0
    ensures Works(bk, ReconcileTargets(bk, l, revision, targets), l,
                  {AllocationKey(l, revision, 0), AllocationKey(l, revision, 1)})
    ensures forall i :: NetReserved(AccountOf(ReconcileTargets(bk, l, revision, targets), i).log, l) ==
                        NetReserved(AccountOf(bk, i).log, l)
  {
    hide Reconcile, EmptyAccount;
    forall i | i in targets
      ensures var b := Reconcile(AccountOf(bk, i), l, revision, targets[i]);
              && Touches(AccountOf(bk, i), b, l)
              && OnlyKeys(AccountOf(bk, i), b, {AllocationKey(l, revision, 0), AllocationKey(l, revision, 1)})
              && NetReserved(b.log, l) == NetReserved(AccountOf(bk, i).log, l)
    {
      AccountLegal(bk, i);
      ReconcileTouches(AccountOf(bk, i), l, revision, targets[i]);
    }
  }

  // ---- Settlement of a line ----

  lemma NoReservationElsewhere(bk: Book, l: LineId, i: ItemId)
    requires BookLegal(bk)
    ensures 0 <= NetReserved(AccountOf(bk, i).log, l) <= AccountOf(bk, i).balance.reserved
    ensures NetReserved(AccountOf(bk, i).log, l) > 0 ==> i in bk
  {
    AccountLegal(bk, i);
    ReservedIsShared(AccountOf(bk, i), l);
  }

  lemma DeliveryWorks(s: Store, l: LineId, deliveredAt: Option<int>)
    requires BookLegal(s.accounts) && l in s.lines && Deliverable(s.lines[l], deliveredAt)
    ensures Works(s.accounts, DeliverLine(s, l, deliveredAt).accounts, l, DeliveryKeys(l))
    ensures forall i :: NetReserved(AccountOf(DeliverLine(s, l, deliveredAt).accounts, i).log, l) ==
                        if s.lines[l].status == Some(LineReserved) ||
                           i in PhysicalItems(Expand(s.lines[l].quantity, s.lines[l].variant))
                        then 0 else NetReserved(AccountOf(s.accounts, i).log, l)
  {
    var line := s.lines[l];
    var units := Expand(line.quantity, line.variant);
    var bk, after := DeliverUnits(s.accounts, l, units), DeliverLine(s, l, deliveredAt).accounts;
    ExpansionTidy(line.quantity, line.variant);
    DeliverUnitsWork(s.accounts, l, units);
    if line.status == Some(LineReserved) {
      OrphansWork(bk, l, PhysicalItems(units));
      forall i | i in after
        ensures Touches(AccountOf(s.accounts, i), after[i], l) &&
                OnlyKeys(AccountOf(s.accounts, i), after[i], DeliveryKeys(l))
      {
        TouchesTrans(AccountOf(s.accounts, i), bk[i], after[i], l);
      }
      forall i ensures NetReserved(AccountOf(after, i).log, l) == 0 {
        NoReservationElsewhere(bk, l, i);
      }
    }
  }

  /** Delivering a matched line settles each of its reservations in full, except what an interrupted
      reservation left on items its product has since lost: the line ends with no reservation exactly when it was
      marked reserved or every item it holds is still among its units. Other lines keep theirs. */
  lemma DeliverySettlesExactly(s: Store, l: LineId, deliveredAt: Option<int>)
    requires BookLegal(s.accounts) && l in s.lines && Deliverable(s.lines[l], deliveredAt)
    ensures var units := Expand(s.lines[l].quantity, s.lines[l].variant);
            var after := DeliverLine(s, l, deliveredAt).accounts;
            && BookLegal(after)
            && ((forall i :: NetReserved(AccountOf(after, i).log, l) == 0) <==>
                s.lines[l].status == Some(LineReserved) ||
                forall i :: NetReserved(AccountOf(s.accounts, i).log, l) > 0 ==> i in PhysicalItems(units))
            && forall i, other :: other != l ==>
                 NetReserved(AccountOf(after, i).log, other) == NetReserved(AccountOf(s.accounts, i).log, other)
  {
    var units := Expand(s.lines[l].quantity, s.lines[l].variant);
    var after := DeliverLine(s, l, deliveredAt).accounts;
    DeliveryWorks(s, l, deliveredAt);
    forall i ensures NetReserved(AccountOf(s.accounts, i).log, l) >= 0 {
      NoReservationElsewhere(s.accounts, l, i);
    }
    if !(s.lines[l].status == Some(LineReserved)) && !(forall i ::
          NetReserved(AccountOf(s.accounts, i).log, l) > 0 ==> i in PhysicalItems(units)) {
      var i :| NetReserved(AccountOf(s.accounts, i).log, l) > 0 && i !in PhysicalItems(units);
      assert NetReserved(AccountOf(after, i).log, l) > 0;
    }
    forall i, other | other != l
      ensures NetReserved(AccountOf(after, i).log, other) == NetReserved(AccountOf(s.accounts, i).log, other)
    {
      assert i in after ==> Touches(AccountOf(s.accounts, i), after[i], l);
    }
  }

  /** Releasing a reserved line always settles it everywhere, whatever its product has become, and changes nothing
      but reservations. */
  lemma ReleaseSettles(s: Store, l: LineId, i: ItemId)
    requires BookLegal(s.accounts) && l in s.lines && s.lines[l].status == Some(LineReserved)
    ensures var before, after := AccountOf(s.accounts, i), AccountOf(ReleaseLine(s, l).accounts, i);
            && Legal(after) && NetReserved(after.log, l) == 0
            && after.balance == before.balance.Plus(Reserved, -NetReserved(before.log, l))
            && forall other :: other != l ==> NetReserved(after.log, other) == NetReserved(before.log, other)
  {
    AccountLegal(s.accounts, i);
    ReleaseClears(AccountOf(s.accounts, i), l);
    var b := Release(AccountOf(s.accounts, i), l);
    assert ViewOf(b, l).reserved == 0 && ViewOf(b, l).balance == b.balance;
  }

  // ---- Delivery of one unit within the line ----

  lemma DeliverUnitsStep(bk: Book, l: LineId, units: seq<Unit>, i: ItemId)
    requires units != []
    ensures var u, p := units[|units| - 1], DeliverUnits(bk, l, units[..|units| - 1]);
            AccountOf(DeliverUnits(bk, l, units), i) ==
            if u.item == i then DeliverUnit(AccountOf(p, i), l, u.quantity, u.role) else AccountOf(p, i)
  {
  }

  lemma {:induction false} OtherUnitsLeaveItem(bk: Book, l: LineId, units: seq<Unit>, i: ItemId)
    requires forall j :: 0 <= j < |units| ==> units[j].item != i
    ensures AccountOf(DeliverUnits(bk, l, units), i) == AccountOf(bk, i)
  {
    if units != [] {
      DeliverUnitsStep(bk, l, units, i);
      OtherUnitsLeaveItem(bk, l, units[..|units| - 1], i);
    }
  }

  /** An item that is only one unit of its line is delivered as that unit alone, whatever else the line contains. */
  lemma {:induction false} OnlyUnitDelivers(bk: Book, l: LineId, units: seq<Unit>, k: nat, i: ItemId)
    requires k < |units| && units[k].item == i && forall j :: 0 <= j < |units| && j != k ==> units[j].item != i
    ensures AccountOf(DeliverUnits(bk, l, units), i) ==
            DeliverUnit(AccountOf(bk, i), l, units[k].quantity, units[k].role)
  {
    hide AccountOf;
    var n := |units| - 1;
    DeliverUnitsStep(bk, l, units, i);
    if k < n {
      OnlyUnitDelivers(bk, l, units[..n], k, i);
    } else {
      OtherUnitsLeaveItem(bk, l, units[..n], i);
    }
  }

  /** A delivery of a unit takes precisely what reservation and free stock cover, so at least
      min(quantity, reserved); with the whole quantity reserved it takes exactly that and leaves what is
      available to others as it was. */
  ghost predicate DeliveredAsReserved(before: Account, after: Account, l: LineId, quantity: int) {
    var reserved := NetReserved(before.log, l);
    var taken := before.balance.onHand - after.balance.onHand;
    && taken == Min(quantity, before.balance.Available() + reserved) >= Min(quantity, reserved)
    && after.balance.reserved == before.balance.reserved - reserved
    && after.balance.damaged == before.balance.damaged
    && (reserved == quantity ==> taken == quantity && after.balance.Available() == before.balance.Available())
  }

  lemma FirstDelivery(before: Account, l: LineId, quantity: nat, role: Role)
    requires Legal(before) && !role.Packaging? && !HasKey(before.log, DeliverKey(l))
    ensures DeliveredAsReserved(before, DeliverUnit(before, l, quantity, role), l, quantity)
  {
    ReservationGuaranteesDelivery(before, l, quantity, role);
    assert ViewOf(DeliverUnit(before, l, quantity, role), l).balance == DeliverUnit(before, l, quantity, role).balance;
  }

  lemma DeliveryOfUnit(s: Store, l: LineId, deliveredAt: Option<int>, units: seq<Unit>, k: nat)
    requires l in s.lines && Deliverable(s.lines[l], deliveredAt)
    requires units == Expand(s.lines[l].quantity, s.lines[l].variant)
    requires k < |units| && !units[k].role.Packaging?
    requires forall j :: 0 <= j < |units| && j != k ==> units[j].item != units[k].item
    ensures AccountOf(DeliverLine(s, l, deliveredAt).accounts, units[k].item) ==
            DeliverUnit(AccountOf(s.accounts, units[k].item), l, units[k].quantity, units[k].role)
  {
    OnlyUnitDelivers(s.accounts, l, units, k, units[k].item);
    assert units[k] in units && units[k].item in PhysicalItems(units);
  }

  /** Reservation guarantees delivery for each product or gift item of a line, whatever the state of other lines. */
  lemma DeliveryIsGuaranteed(s: Store, l: LineId, deliveredAt: Option<int>, units: seq<Unit>, k: nat)
    requires BookLegal(s.accounts) && InStep(s, l) && l in s.lines && Deliverable(s.lines[l], deliveredAt)
    requires units == Expand(s.lines[l].quantity, s.lines[l].variant)
    requires k < |units| && !units[k].role.Packaging?
    requires forall j :: 0 <= j < |units| && j != k ==> units[j].item != units[k].item
    ensures DeliveredAsReserved(AccountOf(s.accounts, units[k].item),
                                AccountOf(DeliverLine(s, l, deliveredAt).accounts, units[k].item), l, units[k].quantity)
  {
    DeliveryOfUnit(s, l, deliveredAt, units, k);
    ExpansionTidy(s.lines[l].quantity, s.lines[l].variant);
    AccountLegal(s.accounts, units[k].item);
    assert DeliverKey(l) in DeliveryKeys(l);
    FirstDelivery(AccountOf(s.accounts, units[k].item), l, units[k].quantity, units[k].role);
  }

  // ---- Books over time ----

  /** Every account keeps its opening, and its log only grows. */
  ghost predicate Continues(bk: Book, bk': Book) {
    forall i :: AccountOf(bk', i).opening == AccountOf(bk, i).opening &&
                Extends(AccountOf(bk, i).log, AccountOf(bk', i).log)
  }

  lemma ContinuesTrans(x: Book, y: Book, z: Book)
    requires Continues(x, y) && Continues(y, z)
    ensures Continues(x, z)
  {
    forall i ensures Extends(AccountOf(x, i).log, AccountOf(z, i).log) {
      ExtendsTrans(AccountOf(x, i).log, AccountOf(y, i).log, AccountOf(z, i).log);
    }
  }

  lemma AllTargetsAllowed(bk: Book, l: LineId, targets: map<ItemId, Target>)
    requires forall i :: i in targets ==> targets[i].damaged >= 0
    ensures forall i :: i in AllTargets(bk, l, targets) ==> AllTargets(bk, l, targets)[i].damaged >= 0
  {
  }

  lemma ReturnIs(s: Store, l: LineId, targets: map<ItemId, Target>)
    requires l in s.lines
    ensures var r := ReleaseLine(s, l);
            && l in r.lines
            && var line := r.lines[l].(revision := r.lines[l].revision + 1);
            ReconcileLine(s, l, targets) ==
            Store(ReconcileTargets(r.accounts, l, line.revision, AllTargets(r.accounts, l, targets)),
                  r.lines[l := line])
  {
  }
}
