/** What each order flow does to one item's account, and why it never loses or invents stock. */
module StockFlows {
  import opened Basics
  import opened StockAccounts

  datatype Role = Product | Gift | Packaging

  function ReserveUnit(a: Account, l: LineId, quantity: int): Account {
    Move(a, Request(OrderReserved, Reserved, quantity, l, ReserveKey(l)))
  }

  /** Hands the line's whole reservation back before delivery deducts it. */
  function Settle(a: Account, l: LineId): Account {
    var reserved := NetReserved(a.log, l);
    if reserved > 0 then Move(a, Request(OrderDelivered, Reserved, -reserved, l, SettleKey(l))) else a
  }

  function Release(a: Account, l: LineId): Account {
    var reserved := NetReserved(a.log, l);
    if reserved > 0 then Move(a, Request(OrderReleased, Reserved, -reserved, l, ReleaseKey(l))) else a
  }

  function Deduct(a: Account, l: LineId, quantity: int): Account {
    Move(a, Request(OrderDelivered, OnHand, -quantity, l, DeliverKey(l)))
  }

  function DeliverUnit(a: Account, l: LineId, quantity: int, role: Role): Account {
    if role.Packaging? then Move(a, Request(PackagingConsumed, OnHand, -quantity, l, PackagingKey(l)))
    else Deduct(Settle(a, l), l, quantity)
  }

  /** An item the line still holds although its product no longer contains it. */
  function DeliverOrphan(a: Account, l: LineId): Account {
    Deduct(Settle(a, l), l, NetReserved(a.log, l))
  }

  // ---- A line's view of an account, and how one movement changes it ----

  /** The balance together with what the log says one line holds and has sent back. */
  datatype View = View(balance: Balance, reserved: int, backOnHand: int, backDamaged: int)

  function ViewOf(a: Account, l: LineId): View {
    View(a.balance, NetReserved(a.log, l), NetReturned(a.log, l, OnHand), NetReturned(a.log, l, Damaged))
  }

  function Shift(v: View, k: Bucket, x: int, isReturn: bool): View {
    View(v.balance.Plus(k, x),
         v.reserved + (if k.Reserved? then x else 0),
         v.backOnHand + (if k.OnHand? && isReturn then x else 0),
         v.backDamaged + (if k.Damaged? && isReturn then x else 0))
  }

  /** b continues a without touching the outside part or any other line. */
  ghost predicate OnlyLine(a: Account, b: Account, l: LineId) {
    && b.opening == a.opening
    && Extends(a.log, b.log)
    && forall other, k :: other != l ==>
         && Total(b.log, LineIn(other, k)) == Total(a.log, LineIn(other, k))
         && Total(b.log, ReturnOf(other, k)) == Total(a.log, ReturnOf(other, k))
  }

  /** b's log uses no key that a's does not, apart from these. */
  ghost predicate OnlyKeys(a: Account, b: Account, used: set<MoveKey>) {
    forall key :: key !in used ==> (HasKey(b.log, key) <==> HasKey(a.log, key))
  }

  lemma MoveEffect(a: Account, m: Request)
    ensures OnlyLine(a, Move(a, m), m.line) && OnlyKeys(a, Move(a, m), {m.key})
    ensures ViewOf(Move(a, m), m.line) ==
            if HasKey(a.log, m.key) then ViewOf(a, m.line)
            else Shift(ViewOf(a, m.line), m.bucket, Clamp(a.balance, m.bucket, m.delta), IsReturn(m.kind))
  {
  }

  // ---- Settlement ----

  lemma NothingMoved(a: Account, l: LineId, used: set<MoveKey>)
    ensures OnlyLine(a, a, l) && OnlyKeys(a, a, used) && Shift(ViewOf(a, l), Reserved, 0, false) == ViewOf(a, l)
  {
  }

  /** Settling is never clamped and never blocked by an old key: the line ends with no reservation on the
      item and nothing else moves. */
  lemma SettleClears(a: Account, l: LineId)
    requires Legal(a)
    ensures var b := Settle(a, l);
            && Legal(b) && OnlyLine(a, b, l) && OnlyKeys(a, b, {SettleKey(l)})
            && ViewOf(b, l) == Shift(ViewOf(a, l), Reserved, -NetReserved(a.log, l), false)
  {
    hide LogLegal, Replay, HasKey, Total, OnlyLine, OnlyKeys, Shift;
    NothingMoved(a, l, {SettleKey(l)});
    ReservationShape(a.opening, a.log, l);
    if NetReserved(a.log, l) > 0 {
      var m := Request(OrderDelivered, Reserved, -NetReserved(a.log, l), l, SettleKey(l));
      MoveKeepsLegal(a, m);
      MoveEffect(a, m);
    }
  }

  /** The same for a cancelled or returned order. */
  lemma ReleaseClears(a: Account, l: LineId)
    requires Legal(a)
    ensures var b := Release(a, l);
            && Legal(b) && OnlyLine(a, b, l) && OnlyKeys(a, b, {ReleaseKey(l)})
            && ViewOf(b, l) == Shift(ViewOf(a, l), Reserved, -NetReserved(a.log, l), false)
  {
    hide LogLegal, Replay, HasKey, Total, OnlyLine, OnlyKeys, Shift;
    NothingMoved(a, l, {ReleaseKey(l)});
    ReservationShape(a.opening, a.log, l);
    if NetReserved(a.log, l) > 0 {
      var m := Request(OrderReleased, Reserved, -NetReserved(a.log, l), l, ReleaseKey(l));
      MoveKeepsLegal(a, m);
      MoveEffect(a, m);
    }
  }

  lemma {:induction false} ExtendsTrans(x: Log, y: Log, z: Log)
    requires Extends(x, y) && Extends(y, z)
    ensures Extends(x, z)
  {
    if y != z {
      ExtendsTrans(x, y, z.prior);
    }
  }

  lemma OnlyLineTrans(a: Account, b: Account, c: Account, l: LineId)
    requires OnlyLine(a, b, l) && OnlyLine(b, c, l)
    ensures OnlyLine(a, c, l)
  {
    ExtendsTrans(a.log, b.log, c.log);
    forall other, k | other != l
      ensures Total(c.log, LineIn(other, k)) == Total(a.log, LineIn(other, k))
      ensures Total(c.log, ReturnOf(other, k)) == Total(a.log, ReturnOf(other, k))
    {
      assert Total(b.log, LineIn(other, k)) == Total(a.log, LineIn(other, k));
      assert Total(b.log, ReturnOf(other, k)) == Total(a.log, ReturnOf(other, k));
    }
  }

  /** A first delivery on views. */
  function DeliverView(v: View, quantity: nat): View {
    var w := Shift(v, Reserved, -v.reserved, false);
    Shift(w, OnHand, Clamp(w.balance, OnHand, -(quantity as int)), false)
  }

  lemma DeliverRefinesView(a: Account, l: LineId, quantity: nat, role: Role)
    requires Legal(a) && !role.Packaging? && !HasKey(a.log, DeliverKey(l))
    ensures ViewOf(DeliverUnit(a, l, quantity, role), l) == DeliverView(ViewOf(a, l), quantity)
  {
    var s := Settle(a, l);
    SettleClears(a, l);
    assert s.balance == ViewOf(s, l).balance;
    MoveEffect(s, Request(OrderDelivered, OnHand, -(quantity as int), l, DeliverKey(l)));
  }

  lemma DeliverViewIs(v: View, quantity: nat)
    requires v.balance.Valid() && 0 <= v.reserved <= v.balance.reserved
    ensures var taken := Min(quantity, v.balance.Available() + v.reserved);
            && DeliverView(v, quantity) == Shift(Shift(v, Reserved, -v.reserved, false), OnHand, -taken, false)
            && taken >= Min(quantity, v.reserved)
            && (v.reserved == quantity ==>
                  taken == quantity && DeliverView(v, quantity).balance.Available() == v.balance.Available())
  {
  }

  /** Reservation guarantees delivery: the first delivery of a unit takes precisely what the line's reservation
      and the free stock can cover, so at least min(quantity, reserved); with the quantity reserved it takes
      exactly that and leaves the free stock as it was. */
  lemma ReservationGuaranteesDelivery(a: Account, l: LineId, quantity: nat, role: Role)
    requires Legal(a) && !role.Packaging? && !HasKey(a.log, DeliverKey(l))
    ensures var b := DeliverUnit(a, l, quantity, role);
            var v := ViewOf(a, l);
            var taken := Min(quantity, v.balance.Available() + v.reserved);
            && ViewOf(b, l) == Shift(Shift(v, Reserved, -v.reserved, false), OnHand, -taken, false)
            && taken >= Min(quantity, v.reserved)
            && (v.reserved == quantity ==> taken == quantity && b.balance.Available() == a.balance.Available())
  {
    ReservedIsShared(a, l);
    DeliverRefinesView(a, l, quantity, role);
    DeliverViewIs(ViewOf(a, l), quantity);
    assert ViewOf(DeliverUnit(a, l, quantity, role), l).balance == DeliverUnit(a, l, quantity, role).balance;
  }

  /** Whatever the keys, a delivery keeps the account legal and settles the item. */
  lemma DeliverKeepsLegal(a: Account, l: LineId, quantity: nat, role: Role)
    requires Legal(a)
    ensures var b := DeliverUnit(a, l, quantity, role);
            && Legal(b) && OnlyLine(a, b, l) && OnlyKeys(a, b, {SettleKey(l), DeliverKey(l), PackagingKey(l)})
            && NetReserved(b.log, l) == (if role.Packaging? then NetReserved(a.log, l) else 0)
  {
    hide Legal, HasKey, NetReserved, OnlyLine, OnlyKeys;
    if role.Packaging? {
      OneMoveKeepsLegal(a, Request(PackagingConsumed, OnHand, -(quantity as int), l, PackagingKey(l)));
      KeysWithin(a, DeliverUnit(a, l, quantity, role), {PackagingKey(l)},
                 {SettleKey(l), DeliverKey(l), PackagingKey(l)});
    } else {
      var s, b := Settle(a, l), DeliverUnit(a, l, quantity, role);
      SettleClears(a, l);
      assert NetReserved(s.log, l) == ViewOf(s, l).reserved;
      OneMoveKeepsLegal(s, Request(OrderDelivered, OnHand, -(quantity as int), l, DeliverKey(l)));
      OnlyLineTrans(a, s, b, l);
      KeysWithin(a, s, {SettleKey(l)}, {SettleKey(l), DeliverKey(l), PackagingKey(l)});
      KeysWithin(s, b, {DeliverKey(l)}, {SettleKey(l), DeliverKey(l), PackagingKey(l)});
      KeysTrans(a, s, b, {SettleKey(l), DeliverKey(l), PackagingKey(l)});
    }
  }

  lemma OneMoveKeepsLegal(a: Account, m: Request)
    requires Legal(a) && RequestLegal(a, m) && m.bucket == OnHand && !IsReturn(m.kind)
    ensures Legal(Move(a, m)) && OnlyLine(a, Move(a, m), m.line) && OnlyKeys(a, Move(a, m), {m.key})
    ensures NetReserved(Move(a, m).log, m.line) == NetReserved(a.log, m.line)
  {
    MoveEffect(a, m);
    MoveKeepsLegal(a, m);
    assert ViewOf(Move(a, m), m.line).reserved == ViewOf(a, m.line).reserved;
  }

  lemma KeysWithin(a: Account, b: Account, used: set<MoveKey>, all: set<MoveKey>)
    requires OnlyKeys(a, b, used) && used <= all
    ensures OnlyKeys(a, b, all)
  {
  }

  lemma KeysTrans(a: Account, b: Account, c: Account, used: set<MoveKey>)
    requires OnlyKeys(a, b, used) && OnlyKeys(b, c, used)
    ensures OnlyKeys(a, c, used)
  {
  }

  // ---- Returns: moving a line's net return to its target ----

  datatype Target = Target(onHand: int, damaged: int)

  function ReturnKind(k: Bucket, delta: int): MovementType {
    if k.Damaged? then ReturnDamaged else if delta > 0 then ReturnGood else ReturnLost
  }

  function ReturnRequest(l: LineId, revision: int, index: nat, k: Bucket, delta: int): Request {
    Request(ReturnKind(k, delta), k, delta, l, AllocationKey(l, revision, index))
  }

  function Adjust(a: Account, l: LineId, revision: int, index: nat, k: Bucket, delta: int): Account {
    if delta == 0 then a else Move(a, ReturnRequest(l, revision, index, k, delta))
  }

  /** The two movements of a reconciliation, from the deltas still to move: damage leaves before the on-hand
      change and arrives after it. */
  function FirstMove(v: View, t: Target): (Bucket, int) {
    if t.damaged < v.backDamaged then (Damaged, t.damaged - v.backDamaged) else (OnHand, t.onHand - v.backOnHand)
  }

  function SecondMove(v: View, t: Target): (Bucket, int) {
    if t.damaged < v.backDamaged then (OnHand, t.onHand - v.backOnHand) else (Damaged, t.damaged - v.backDamaged)
  }

  function Reconcile(a: Account, l: LineId, revision: int, t: Target): Account {
    var (k, x) := FirstMove(ViewOf(a, l), t);
    var (k', x') := SecondMove(ViewOf(a, l), t);
    Adjust(Adjust(a, l, revision, 0, k, x), l, revision, 1, k', x')
  }

  /** Whether any movement of the reconciliation reported a change. */
  predicate Reported(a: Account, l: LineId, revision: int, t: Target) {
    var (k, x) := FirstMove(ViewOf(a, l), t);
    var (k', x') := SecondMove(ViewOf(a, l), t);
    || (x != 0 && Moved(a, ReturnRequest(l, revision, 0, k, x)) != 0)
    || (x' != 0 && Moved(Adjust(a, l, revision, 0, k, x), ReturnRequest(l, revision, 1, k', x')) != 0)
  }

  predicate FreshRevision(a: Account, l: LineId, revision: int) {
    !HasKey(a.log, AllocationKey(l, revision, 0)) && !HasKey(a.log, AllocationKey(l, revision, 1))
  }

  lemma AdjustEffect(a: Account, l: LineId, revision: int, index: nat, k: Bucket, delta: int)
    requires Legal(a) && (k == OnHand || (k == Damaged && NetReturned(a.log, l, Damaged) + delta >= 0))
    ensures var b := Adjust(a, l, revision, index, k, delta);
            && Legal(b) && OnlyLine(a, b, l) && OnlyKeys(a, b, {AllocationKey(l, revision, index)})
            && ViewOf(b, l) == if HasKey(a.log, AllocationKey(l, revision, index)) then ViewOf(a, l)
                               else Shift(ViewOf(a, l), k, Clamp(a.balance, k, delta), true)
  {
    if delta != 0 {
      MoveEffect(a, ReturnRequest(l, revision, index, k, delta));
      MoveKeepsLegal(a, ReturnRequest(l, revision, index, k, delta));
    } else {
      assert Clamp(a.balance, k, delta) == 0;
    }
  }

  /** Whatever the keys, reconciling keeps the account legal and every reservation as it was. */
  lemma ReconcileKeepsLegal(a: Account, l: LineId, revision: int, t: Target)
    requires Legal(a) && t.damaged >= 0
    ensures var b := Reconcile(a, l, revision, t);
            && Legal(b) && OnlyLine(a, b, l)
            && OnlyKeys(a, b, {AllocationKey(l, revision, 0), AllocationKey(l, revision, 1)})
            && NetReserved(b.log, l) == NetReserved(a.log, l)
  {
    var (k, x) := FirstMove(ViewOf(a, l), t);
    var (k', x') := SecondMove(ViewOf(a, l), t);
    var b := Adjust(a, l, revision, 0, k, x);
    AdjustEffect(a, l, revision, 0, k, x);
    assert k' == Damaged ==> ViewOf(b, l).backDamaged == ViewOf(a, l).backDamaged;
    AdjustEffect(b, l, revision, 1, k', x');
    OnlyLineTrans(a, b, Reconcile(a, l, revision, t), l);
    assert ViewOf(Reconcile(a, l, revision, t), l).reserved == ViewOf(b, l).reserved == ViewOf(a, l).reserved;
  }

  /** The reconciliation on views: what it does once its keys are new. */
  function AdjustView(v: View, k: Bucket, x: int): View { Shift(v, k, Clamp(v.balance, k, x), true) }

  function ReconcileView(v: View, t: Target): View {
    var (k, x) := FirstMove(v, t);
    var (k', x') := SecondMove(v, t);
    AdjustView(AdjustView(v, k, x), k', x')
  }

  lemma ReconcileRefinesView(a: Account, l: LineId, revision: int, t: Target)
    requires Legal(a) && t.damaged >= 0 && FreshRevision(a, l, revision)
    ensures ViewOf(Reconcile(a, l, revision, t), l) == ReconcileView(ViewOf(a, l), t)
  {
    var (k, x) := FirstMove(ViewOf(a, l), t);
    var (k', x') := SecondMove(ViewOf(a, l), t);
    var b := Adjust(a, l, revision, 0, k, x);
    AdjustEffect(a, l, revision, 0, k, x);
    assert ViewOf(b, l).balance == b.balance;
    assert k' == Damaged ==> ViewOf(b, l).backDamaged == ViewOf(a, l).backDamaged;
    AdjustEffect(b, l, revision, 1, k', x');
  }

  /** The balance a target aims for. */
  function Aimed(v: View, t: Target): Balance {
    v.balance.Plus(OnHand, t.onHand - v.backOnHand).Plus(Damaged, t.damaged - v.backDamaged)
  }

  /** w is v with both net returns moved toward the target and never past it, the balance with them, and the target met
      exactly when the balance it aims for is a valid one. */
  ghost predicate MovedToward(v: View, w: View, t: Target) {
    && PartOf(w.backOnHand - v.backOnHand, t.onHand - v.backOnHand)
    && PartOf(w.backDamaged - v.backDamaged, t.damaged - v.backDamaged)
    && w.balance == v.balance.Plus(OnHand, w.backOnHand - v.backOnHand).Plus(Damaged, w.backDamaged - v.backDamaged)
    && (w.backOnHand == t.onHand && w.backDamaged == t.damaged <==> Aimed(v, t).Valid())
  }

  lemma ViewConverges(v: View, t: Target)
    requires v.balance.Valid() && 0 <= v.backDamaged <= v.balance.damaged && t.damaged >= 0
    ensures MovedToward(v, ReconcileView(v, t), t)
  {
    var (k, x) := FirstMove(v, t);
    var (k', x') := SecondMove(v, t);
    var w := AdjustView(v, k, x);
    assert w.balance.Valid();
  }

  /** A new revision moves both net returns toward their targets and never past them, and the balance with
      them. It reaches both exactly when the balance it aims for is a valid one: the order of the two
      movements never costs a unit. */
  lemma ReconcileConverges(a: Account, l: LineId, revision: int, t: Target)
    requires Legal(a) && t.damaged >= 0 && FreshRevision(a, l, revision)
    ensures MovedToward(ViewOf(a, l), ViewOf(Reconcile(a, l, revision, t), l), t)
  {
    ReservedIsShared(a, l);
    ReconcileRefinesView(a, l, revision, t);
    ViewConverges(ViewOf(a, l), t);
  }

  /** Under a new revision, what the reconciliation reports is whether it changed the account. */
  lemma ReportedIsChange(a: Account, l: LineId, revision: int, t: Target)
    requires FreshRevision(a, l, revision)
    ensures Reported(a, l, revision, t) <==> Reconcile(a, l, revision, t) != a
  {
    var (k, x) := FirstMove(ViewOf(a, l), t);
    var (k', x') := SecondMove(ViewOf(a, l), t);
    var b, c := Adjust(a, l, revision, 0, k, x), Reconcile(a, l, revision, t);
    AdjustGrows(a, l, revision, 0, k, x);
    AdjustGrows(b, l, revision, 1, k', x');
  }

  function Rows(log: Log): nat { if log.Then? then Rows(log.prior) + 1 else 0 }

  lemma AdjustGrows(a: Account, l: LineId, revision: int, index: nat, k: Bucket, delta: int)
    requires !HasKey(a.log, AllocationKey(l, revision, index))
    ensures var b := Adjust(a, l, revision, index, k, delta);
            && Rows(b.log) >= Rows(a.log)
            && (delta != 0 && Moved(a, ReturnRequest(l, revision, index, k, delta)) != 0 <==> Rows(b.log) > Rows(a.log))
            && (Rows(b.log) == Rows(a.log) ==> b == a)
            && forall key :: key != AllocationKey(l, revision, index) ==> (HasKey(b.log, key) <==> HasKey(a.log, key))
  {
  }

  /** The usable part not shrinking is enough to reach the targets, whatever earlier revisions did;
      asking again for targets already reached writes nothing. */
  lemma ReconcileReachesTargets(a: Account, l: LineId, revision: int, t: Target)
    requires Legal(a) && t.damaged >= 0 && FreshRevision(a, l, revision)
    requires t.onHand - t.damaged >= NetReturned(a.log, l, OnHand) - NetReturned(a.log, l, Damaged)
    ensures var b := Reconcile(a, l, revision, t);
            && NetReturned(b.log, l, OnHand) == t.onHand && NetReturned(b.log, l, Damaged) == t.damaged
            && forall again: int :: Reconcile(b, l, again, t) == b && !Reported(b, l, again, t)
  {
    ReservedIsShared(a, l);
    ReconcileConverges(a, l, revision, t);
    assert ViewOf(Reconcile(a, l, revision, t), l).backOnHand == t.onHand;
  }

  // ---- Delivery and return commute with release and return ----

  /** What a complete allocation of the unit's quantity asks for: a delivered line takes everything but the lost
      units back, an undelivered one writes the lost units off. */
  function ReturnTarget(delivered: bool, good: nat, damaged: nat, lost: nat): Target {
    if delivered then Target(good + damaged, damaged) else Target(-(lost as int), damaged)
  }

  lemma ReturnViews(v: View, good: nat, damaged: nat, lost: nat)
    requires v.balance.Valid() && v.backOnHand == v.backDamaged == 0
    ensures ReconcileView(v, ReturnTarget(true, good, damaged, lost)) ==
            Shift(Shift(v, OnHand, good + damaged, true), Damaged, damaged, true)
    ensures v.balance.Available() >= damaged + lost ==>
              ReconcileView(v, ReturnTarget(false, good, damaged, lost)) ==
              Shift(Shift(v, OnHand, -(lost as int), true), Damaged, damaged, true)
  {
  }

  /** For a fully reserved product item, delivering and then recording a complete allocation ends in the same
      balance as releasing and then recording it, and neither is ever clamped. */
  lemma DeliveryAndReturnConfluence(a: Account, l: LineId, revision: int, good: nat, damaged: nat, lost: nat)
    requires Legal(a) && FreshRevision(a, l, revision) && !HasKey(a.log, DeliverKey(l))
    requires NetReserved(a.log, l) == good + damaged + lost
    requires NetReturned(a.log, l, OnHand) == NetReturned(a.log, l, Damaged) == 0
    ensures var quantity := good + damaged + lost;
            var balance := Balance(a.balance.onHand - lost, a.balance.reserved - quantity,
                                   a.balance.damaged + damaged);
            && ViewOf(Reconcile(DeliverUnit(a, l, quantity, Product), l, revision,
                                ReturnTarget(true, good, damaged, lost)), l) ==
                                  View(balance, 0, good + damaged, damaged)
            && ViewOf(Reconcile(Release(a, l), l, revision, ReturnTarget(false, good, damaged, lost)), l) ==
               View(balance, 0, -(lost as int), damaged)
  {
    DeliverThenReturn(a, l, revision, good, damaged, lost);
    ReleaseThenReturn(a, l, revision, good, damaged, lost);
  }

  lemma FullyReservedDelivery(a: Account, l: LineId, quantity: nat, revision: int)
    requires Legal(a) && FreshRevision(a, l, revision) && !HasKey(a.log, DeliverKey(l))
    requires NetReserved(a.log, l) == quantity
    ensures var d := DeliverUnit(a, l, quantity, Product);
            && Legal(d) && FreshRevision(d, l, revision)
            && ViewOf(d, l) == Shift(Shift(ViewOf(a, l), Reserved, -(quantity as int), false), OnHand,
                                     -(quantity as int), false)
  {
    ReservationGuaranteesDelivery(a, l, quantity, Product);
    DeliverKeepsLegal(a, l, quantity, Product);
  }

  lemma ReturnAfter(d: Account, v: View, l: LineId, revision: int, delivered: bool, good: nat, damaged: nat, lost: nat)
    requires Legal(d) && FreshRevision(d, l, revision) && ViewOf(d, l) == v
    requires v.backOnHand == v.backDamaged == 0
    requires delivered || v.balance.Available() >= damaged + lost
    ensures ViewOf(Reconcile(d, l, revision, ReturnTarget(delivered, good, damaged, lost)), l) ==
            Shift(Shift(v, OnHand, ReturnTarget(delivered, good, damaged, lost).onHand, true), Damaged, damaged, true)
  {
    ReturnViews(v, good, damaged, lost);
    ReconcileRefinesView(d, l, revision, ReturnTarget(delivered, good, damaged, lost));
  }

  /** Both ways on views. */
  lemma ReturnedViews(v: View, good: nat, damaged: nat, lost: nat)
    requires v.reserved == good + damaged + lost && v.backOnHand == v.backDamaged == 0
    ensures var quantity := good + damaged + lost;
            var balance := Balance(v.balance.onHand - lost, v.balance.reserved - quantity, v.balance.damaged + damaged);
            var delivered := Shift(Shift(v, Reserved, -quantity, false), OnHand, -quantity, false);
            var released := Shift(v, Reserved, -quantity, false);
            && delivered.backOnHand == delivered.backDamaged == released.backOnHand == released.backDamaged == 0
            && released.balance.Available() == v.balance.Available() + quantity
            && Shift(Shift(delivered, OnHand, ReturnTarget(true, good, damaged, lost).onHand, true),
                     Damaged, damaged, true) ==
               View(balance, 0, good + damaged, damaged)
            && Shift(Shift(released, OnHand, ReturnTarget(false, good, damaged, lost).onHand, true),
                     Damaged, damaged, true) ==
               View(balance, 0, -(lost as int), damaged)
  {
  }

  lemma DeliverThenReturn(a: Account, l: LineId, revision: int, good: nat, damaged: nat, lost: nat)
    requires Legal(a) && FreshRevision(a, l, revision) && !HasKey(a.log, DeliverKey(l))
    requires NetReserved(a.log, l) == good + damaged + lost
    requires NetReturned(a.log, l, OnHand) == NetReturned(a.log, l, Damaged) == 0
    ensures ViewOf(Reconcile(DeliverUnit(a, l, good + damaged + lost, Product), l, revision,
                             ReturnTarget(true, good, damaged, lost)), l) ==
            View(Balance(a.balance.onHand - lost, a.balance.reserved - (good + damaged + lost),
                         a.balance.damaged + damaged), 0, good + damaged, damaged)
  {
    hide DeliverUnit, Reconcile, Legal, FreshRevision, Shift, HasKey, NetReserved, NetReturned, ReturnTarget;
    var quantity := good + damaged + lost;
    FullyReservedDelivery(a, l, quantity, revision);
    ReturnedViews(ViewOf(a, l), good, damaged, lost);
    var d := DeliverUnit(a, l, quantity, Product);
    ReturnAfter(d, ViewOf(d, l), l, revision, true, good, damaged, lost);
  }

  lemma ReleaseThenReturn(a: Account, l: LineId, revision: int, good: nat, damaged: nat, lost: nat)
    requires Legal(a) && FreshRevision(a, l, revision)
    requires NetReserved(a.log, l) == good + damaged + lost
    requires NetReturned(a.log, l, OnHand) == NetReturned(a.log, l, Damaged) == 0
    ensures ViewOf(Reconcile(Release(a, l), l, revision, ReturnTarget(false, good, damaged, lost)), l) ==
            View(Balance(a.balance.onHand - lost, a.balance.reserved - (good + damaged + lost),
                         a.balance.damaged + damaged), 0, -(lost as int), damaged)
  {
    hide Release, Reconcile, Legal, Shift, HasKey, NetReserved, NetReturned, ReturnTarget;
    ReleaseClears(a, l);
    ReservedIsShared(a, l);
    LegalIsValid(a);
    ReturnedViews(ViewOf(a, l), good, damaged, lost);
    ReturnAfter(Release(a, l), ViewOf(Release(a, l), l), l, revision, false, good, damaged, lost);
  }
}
