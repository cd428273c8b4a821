/** Recording what came back of a line leaves each of its product items with the same balance whether the line was
    delivered before or released. */
module ReturnConfluence {
  import opened Basics
  import opened StockAccounts
  import opened StockFlows
  import opened Catalogue
  import opened OrderStock
  import opened StockDelivery
  import opened StockReturns
  import opened ReturnConditions
  import opened ReturnStock
  import opened ReturnDesk
  import opened ReturnRuns
  import Entries = ReturnEntries
  import Coverage = ReturnCoverage

  lemma {:induction false} OnlyUnitsQuantity(units: seq<Unit>, i: ItemId, role: Role)
    requires forall j :: 0 <= j < |units| ==> units[j].item != i
    ensures QuantityOf(units, i, role) == 0
  {
    if units != [] {
      OnlyUnitsQuantity(units[..|units| - 1], i, role);
    }
  }

  lemma {:induction false} OnlyUnitQuantity(units: seq<Unit>, k: nat, role: Role)
    requires k < |units| && units[k].role == role
    requires forall j :: 0 <= j < |units| && j != k ==> units[j].item != units[k].item
    ensures QuantityOf(units, units[k].item, role) == units[k].quantity
  {
    var n := |units| - 1;
    if k < n {
      OnlyUnitQuantity(units[..n], k, role);
    } else {
      OnlyUnitsQuantity(units[..n], units[k].item, role);
    }
  }

  lemma {:induction false} SharedAreTargets(entries: seq<Entries.Entry>, i: ItemId, fate: Fate, delivered: bool)
    requires Count(entries, i, fate) > 0
    ensures i in TargetsOf(entries, delivered)
  {
    var n, e := |entries| - 1, entries[|entries| - 1];
    SharesAtItem(TargetsOf(entries[..n], delivered), e.units, Effect(e.request.condition, delivered), i);
    if Count(entries[..n], i, fate) > 0 {
      SharedAreTargets(entries[..n], i, fate, delivered);
    } else {
      SomeShare(e.units, i);
    }
  }

  lemma {:induction false} SomeShare(shares: seq<Entries.ItemShare>, i: ItemId)
    requires ShareCount(shares, i) > 0
    ensures exists s :: s in shares && s.item == i
  {
    if shares[|shares| - 1].item != i {
      SomeShare(shares[..|shares| - 1], i);
      assert shares == shares[..|shares| - 1] + [shares[|shares| - 1]];
    }
  }

  /** A reserved line and a complete record of what came back of it. */
  ghost predicate Returnable(s: Store, l: LineId, sold: SoldLine, rows: seq<Allocation>) {
    && l in s.lines && s.lines[l].status == Some(LineReserved) && s.lines[l].variant.Some?
    && sold.quantity == s.lines[l].quantity > 0 && sold.variant == s.lines[l].variant
    && (sold.variant.value.physical.bundle ==> Components(sold) != [])
    && Entries.Sellable(sold) && rows != [] && Accepted(sold, rows) && Coverage.Completed(sold, rows)
  }

  /** The item is just one product unit of the line, wholly reserved, and nothing of it has come back before. */
  ghost predicate WhollyReserved(s: Store, l: LineId, units: seq<Unit>, k: nat)
    requires l in s.lines && k < |units|
  {
    var a := AccountOf(s.accounts, units[k].item);
    && units == Expand(s.lines[l].quantity, s.lines[l].variant)
    && units[k].role == Product
    && (forall j :: 0 <= j < |units| && j != k ==> units[j].item != units[k].item)
    && NetReserved(a.log, l) == units[k].quantity
    && !HasReturn(a.log, l)
  }

  /** The same targets, with items of an earlier snapshot at nothing. */
  lemma TargetStays(entries: seq<Entries.Entry>, earlier: seq<Entries.Entry>, delivered: bool, i: ItemId)
    requires i in TargetsOf(entries, delivered)
    ensures var ts := WithOldItems(TargetsOf(entries, delivered), earlier);
            i in ts && TargetAt(ts, i) == TargetsOf(entries, delivered)[i]
  {
  }

  /** On the store: delivering the line and reconciling what came back ends in the same balance of the item as
      reconciling the same of the released line: on hand down by the lost pieces, damaged up by the damaged ones, and
      the line's reservation gone. Neither way is ever clamped. */
  lemma ReconciledBalancesAgree(s: Store, l: LineId, deliveredAt: Option<int>, sold: SoldLine, rows: seq<Allocation>,
                                units: seq<Unit>, k: nat, earlier: seq<Entries.Entry>)
    requires BookLegal(s.accounts) && Numbered(s, l) && InStep(s, l)
    requires Returnable(s, l, sold, rows) && k < |units| && WhollyReserved(s, l, units, k)
    ensures var i := units[k].item;
            var entries := Entries.EntriesOf(sold, rows);
            var delivered := ReconcileLine(DeliverLine(s, l, deliveredAt), l,
                                           WithOldItems(TargetsOf(entries, true), earlier));
            var released := ReconcileLine(s, l, WithOldItems(TargetsOf(entries, false), earlier));
            var before := AccountOf(s.accounts, i).balance;
            AccountOf(delivered.accounts, i).balance == AccountOf(released.accounts, i).balance ==
            Balance(before.onHand - Count(entries, i, Gone), before.reserved - units[k].quantity,
                    before.damaged + Count(entries, i, Spoilt))
  {
    hide BookLegal, Numbered, InStep, Reconcile, TargetsOf, Entries.EntriesOf, Expand, DeliverUnit, DeliverUnits,
         DeliverOrphans, Count, EmptyAccount, ReconcileLine, ReleaseEverywhere, Entries.Sellable, RowSound,
         Allocated, NoRepeats, Coverage.Completed, HasKey, HasReturn, WithOldItems;
    var i, entries := units[k].item, Entries.EntriesOf(sold, rows);
    var good, damaged, lost := Count(entries, i, Restocked), Count(entries, i, Spoilt), Count(entries, i, Gone);
    var a, revision := AccountOf(s.accounts, i), s.lines[l].revision + 1;
    ReturnedPieces(s, l, sold, rows, units, k);
    NothingBackYet(s, l, i);
    DeliveryOfUnit(s, l, deliveredAt, units, k);
    ReleasedAccount(s, l, i);
    TargetStays(entries, earlier, true, i);
    TargetStays(entries, earlier, false, i);
    ReturnAt(DeliverLine(s, l, deliveredAt), l, WithOldItems(TargetsOf(entries, true), earlier), i);
    ReturnAt(s, l, WithOldItems(TargetsOf(entries, false), earlier), i);
    DeliveryAndReturnConfluence(a, l, revision, good, damaged, lost);
    ViewBalance(Reconcile(DeliverUnit(a, l, good + damaged + lost, Product), l, revision,
                          ReturnTarget(true, good, damaged, lost)), l);
    ViewBalance(Reconcile(Release(a, l), l, revision, ReturnTarget(false, good, damaged, lost)), l);
  }

  lemma ViewBalance(a: Account, l: LineId)
    ensures ViewOf(a, l).balance == a.balance
  {
  }

  lemma NothingBackYet(s: Store, l: LineId, i: ItemId)
    requires BookLegal(s.accounts) && Numbered(s, l) && InStep(s, l)
    requires l in s.lines && s.lines[l].status == Some(LineReserved)
    requires !HasReturn(AccountOf(s.accounts, i).log, l)
    ensures var a := AccountOf(s.accounts, i);
            && Legal(a) && FreshRevision(a, l, s.lines[l].revision + 1) && !HasKey(a.log, DeliverKey(l))
            && NetReturned(a.log, l, OnHand) == NetReturned(a.log, l, Damaged) == 0
  {
    AccountLegal(s.accounts, i);
    NotYetDelivered(s, l, i);
    NothingReturned(AccountOf(s.accounts, i).log, l, OnHand);
    NothingReturned(AccountOf(s.accounts, i).log, l, Damaged);
  }

  lemma ReturnedPieces(s: Store, l: LineId, sold: SoldLine, rows: seq<Allocation>, units: seq<Unit>, k: nat)
    requires Returnable(s, l, sold, rows) && k < |units| && WhollyReserved(s, l, units, k)
    ensures var i, entries := units[k].item, Entries.EntriesOf(sold, rows);
            var good, damaged, lost := Count(entries, i, Restocked), Count(entries, i, Spoilt), Count(entries, i, Gone);
            && good >= 0 && damaged >= 0 && lost >= 0 && good + damaged + lost == units[k].quantity > 0
            && forall delivered ::
                 i in TargetsOf(entries, delivered) &&
                 TargetsOf(entries, delivered)[i] == ReturnTarget(delivered, good, damaged, lost)
  {
    hide TargetsOf, Entries.EntriesOf, Expand, Count, RowSound, Allocated, NoRepeats, Coverage.Completed,
         Entries.Sellable;
    var i, entries := units[k].item, Entries.EntriesOf(sold, rows);
    ExpansionTidy(s.lines[l].quantity, s.lines[l].variant);
    ExpansionMeaning(sold.quantity, sold.variant.value, i);
    OnlyUnitQuantity(units, k, Product);
    CompleteTarget(sold, rows, i, true);
    forall delivered
      ensures i in TargetsOf(entries, delivered) &&
              TargetsOf(entries, delivered)[i] ==
              ReturnTarget(delivered, Count(entries, i, Restocked), Count(entries, i, Spoilt), Count(entries, i, Gone))
    {
      CompleteTarget(sold, rows, i, delivered);
      var fate: Fate :| Count(entries, i, fate) > 0;
      SharedAreTargets(entries, i, fate, delivered);
    }
  }

  // ---- Recording on the desk ----

  lemma {:induction false} OneLine(inputs: seq<Input>, l: LineId)
    requires inputs != [] && forall x :: x in inputs ==> x.line == l
    ensures ReturnDesk.LinesOf(inputs) == [l]
  {
    if |inputs| > 1 {
      OneLine(inputs[..|inputs| - 1], l);
    } else {
      assert inputs[..0] == [];
    }
  }

  /** A submission about one line records exactly its commit. */
  lemma RecordOfOneLine(d: Desk, inputs: seq<Input>, uuids: LineId -> nat, l: LineId)
    requires Ready(d) && l in d.order && inputs != [] && forall x :: x in inputs ==> x.line == l
    requires RowsOf(inputs, l) != [] && PrepareLine(d, inputs, l).Replaces?
    ensures Record(d, inputs, uuids) == (None, Commit(d, l, PrepareLine(d, inputs, l).snapshot, uuids(l)))
  {
    hide Commit, PrepareLine, Ready;
    var ids := [l];
    ReadySells(d, l);
    OneLine(inputs, l);
    LinesHaveRows(inputs);
    assert ids[1..] == [] && ids[..0] == [];
    assert Preparable(d, inputs, ids) && Preparable(d, inputs, []);
    assert FirstError(d, inputs, []) == None && CommitAll(d, inputs, [], uuids) == d;
    assert FirstError(d, inputs, ids) == None;
    assert CommitAll(d, inputs, ids, uuids) == Commit(d, l, PrepareLine(d, inputs, l).snapshot, uuids(l));
    assert Belongs(d, inputs);
  }

  /** Delivery and release change nothing that a submission is prepared from. */
  lemma SamePreparation(d: Desk, stock: Store, inputs: seq<Input>, l: LineId)
    requires Ready(d) && l in d.order && RowsOf(inputs, l) != [] && stock.lines.Keys == d.stock.lines.Keys
    requires forall k :: k in d.stock.lines ==> stock.lines[k].(status := d.stock.lines[k].status) == d.stock.lines[k]
    ensures Ready(d.(stock := stock)) && PrepareLine(d.(stock := stock), inputs, l) == PrepareLine(d, inputs, l)
  {
    hide Prepare, Entries.Sellable;
    var e := d.(stock := stock);
    forall k | k in d.order ensures Sold(e, k) == Sold(d, k) {
      assert stock.lines[k].(status := d.stock.lines[k].status) == d.stock.lines[k];
    }
    assert stock.lines[l].(status := d.stock.lines[l].status) == d.stock.lines[l];
  }

  lemma OnlyStatusChanges(s: Store, l: LineId, flow: Flow)
    ensures Apply(s, l, flow).lines.Keys == s.lines.Keys
    ensures forall k :: k in s.lines ==> Apply(s, l, flow).lines[k].(status := s.lines[k].status) == s.lines[k]
  {
    hide Expand, DeliverUnits, ReserveUnits, DeliverOrphans, ReleaseEverywhere;
  }

  lemma ReleasedBefore(s: Store, l: LineId, targets: map<ItemId, Target>)
    requires l in s.lines
    ensures ReconcileLine(ReleaseLine(s, l), l, targets) == ReconcileLine(s, l, targets)
  {
    hide ReconcileTargets, AllTargets, ReconcileLine, ReleaseEverywhere;
    ReturnIs(s, l, targets);
    ReturnIs(ReleaseLine(s, l), l, targets);
    assert ReleaseLine(ReleaseLine(s, l), l) == ReleaseLine(s, l);
  }

  /** A reserved line delivered, released, or left as it is, and then the same complete submission recorded for it: it
      is accepted each time, with the same snapshot and the same loss booked, and each wholly reserved product item
      ends in the same balance, on hand down by the lost pieces, damaged up by the damaged ones, the line's
      reservation gone. Releasing first makes no difference at all, since recording releases by itself. */
  lemma DeliveryAndReturnAgree(d: Desk, l: LineId, deliveredAt: Option<int>, inputs: seq<Input>, uuids: LineId -> nat,
                               units: seq<Unit>, k: nat)
    requires Ready(d) && l in d.order && BookLegal(d.stock.accounts) && Numbered(d.stock, l) && InStep(d.stock, l)
    requires inputs != [] && (forall x :: x in inputs ==> x.line == l) && RowsOf(inputs, l) != []
    requires PrepareLine(d, inputs, l).Replaces? && Returnable(d.stock, l, Sold(d, l), RowsOf(inputs, l))
    requires k < |units| && WhollyReserved(d.stock, l, units, k)
    ensures var delivered := d.(stock := DeliverLine(d.stock, l, deliveredAt));
            var released := d.(stock := ReleaseLine(d.stock, l));
            && Ready(delivered) && Ready(released)
            && Record(released, inputs, uuids) == Record(d, inputs, uuids)
            && var a, b := Record(delivered, inputs, uuids), Record(released, inputs, uuids);
            && a.0 == b.0 == None && a.1.saved == b.1.saved && a.1.ledger == b.1.ledger
            && var i, before := units[k].item, AccountOf(d.stock.accounts, units[k].item).balance;
            var entries := Entries.EntriesOf(Sold(d, l), RowsOf(inputs, l));
            AccountOf(a.1.stock.accounts, i).balance == AccountOf(b.1.stock.accounts, i).balance ==
            Balance(before.onHand - Count(entries, i, Gone), before.reserved - units[k].quantity,
                    before.damaged + Count(entries, i, Spoilt))
  {
    hide Ready, Prepare, PrepareLine, Record, ReconcileLine, DeliverLine, WhollyReserved, Entries.EntriesOf, Count,
         TargetsOf, WithOldItems, BookLegal, Numbered, InStep, Returnable, AccountOf;
    ReadySells(d, l);
    ReturnableRows(d, l, inputs);
    RecordsOfBoth(d, l, deliveredAt, inputs, uuids);
    PreparedEntries(d, inputs, l);
    ReconciledBalancesAgree(d.stock, l, deliveredAt, Sold(d, l), RowsOf(inputs, l), units, k, SavedEntries(d, l));
  }

  lemma ReturnableRows(d: Desk, l: LineId, inputs: seq<Input>)
    requires Placed(d) && l in d.order && Returnable(d.stock, l, Sold(d, l), RowsOf(inputs, l))
    ensures l in d.stock.lines && d.stock.lines[l].status == Some(LineReserved) && d.stock.lines[l].variant.Some?
    ensures Sold(d, l).quantity > 0 && RowsAccepted(Sold(d, l), RowsOf(inputs, l))
    ensures Entries.Sellable(Sold(d, l))
  {
  }

  /** What each way records: the same snapshot and loss, and the stock reconciled with its targets. */
  lemma RecordsOfBoth(d: Desk, l: LineId, deliveredAt: Option<int>, inputs: seq<Input>, uuids: LineId -> nat)
    requires Ready(d) && l in d.order && l in d.stock.lines
    requires d.stock.lines[l].status == Some(LineReserved) && d.stock.lines[l].variant.Some?
    requires inputs != [] && (forall x :: x in inputs ==> x.line == l) && RowsOf(inputs, l) != []
    requires PrepareLine(d, inputs, l).Replaces?
    ensures var delivered := d.(stock := DeliverLine(d.stock, l, deliveredAt));
            var released := d.(stock := ReleaseLine(d.stock, l));
            && Ready(delivered) && Ready(released)
            && var a, b := Record(delivered, inputs, uuids), Record(released, inputs, uuids);
            && Record(d, inputs, uuids) == b && a.0 == b.0 == None && a.1.saved == b.1.saved && a.1.ledger == b.1.ledger
            && var entries := PrepareLine(d, inputs, l).snapshot.entries;
            && a.1.stock == ReconcileLine(DeliverLine(d.stock, l, deliveredAt), l,
                                          WithOldItems(TargetsOf(entries, true), SavedEntries(d, l)))
            && b.1.stock == ReconcileLine(d.stock, l, WithOldItems(TargetsOf(entries, false), SavedEntries(d, l)))
  {
    hide Ready, Prepare, PrepareLine, Record, ReconcileLine, DeliverLine, TargetsOf, WithOldItems;
    var delivered, released := d.(stock := DeliverLine(d.stock, l, deliveredAt)), d.(stock := ReleaseLine(d.stock, l));
    var snapshot := PrepareLine(d, inputs, l).snapshot;
    OnlyStatusChanges(d.stock, l, DeliverFlow(deliveredAt));
    OnlyStatusChanges(d.stock, l, ReleaseFlow);
    SamePreparation(d, delivered.stock, inputs, l);
    SamePreparation(d, released.stock, inputs, l);
    RecordOfOneLine(d, inputs, uuids, l);
    RecordOfOneLine(delivered, inputs, uuids, l);
    RecordOfOneLine(released, inputs, uuids, l);
    MarkedDelivered(d.stock, l, deliveredAt);
    ReleasedBefore(d.stock, l, WithOldItems(TargetsOf(snapshot.entries, false), SavedEntries(d, l)));
  }

  lemma PreparedEntries(d: Desk, inputs: seq<Input>, l: LineId)
    requires Ready(d) && l in d.order && RowsOf(inputs, l) != [] && PrepareLine(d, inputs, l).Replaces?
    requires Sold(d, l).quantity > 0 && RowsAccepted(Sold(d, l), RowsOf(inputs, l))
    ensures Entries.Sellable(Sold(d, l))
    ensures PrepareLine(d, inputs, l).snapshot.entries == Entries.EntriesOf(Sold(d, l), RowsOf(inputs, l))
  {
    ReadySells(d, l);
  }

  lemma MarkedDelivered(s: Store, l: LineId, deliveredAt: Option<int>)
    requires l in s.lines && s.lines[l].status == Some(LineReserved) && s.lines[l].variant.Some?
    ensures l in DeliverLine(s, l, deliveredAt).lines
    ensures DeliverLine(s, l, deliveredAt).lines[l].status == Some(LineDelivered)
    ensures ReleaseLine(s, l).lines[l].status == Some(LineReleased)
  {
  }

  // ---- What does not come back ----

  /** The item is just one gift or packaging unit of the line, and nothing of it has come back before. */
  ghost predicate Extra(s: Store, l: LineId, units: seq<Unit>, k: nat)
    requires l in s.lines && k < |units|
  {
    var a := AccountOf(s.accounts, units[k].item);
    && units == Expand(s.lines[l].quantity, s.lines[l].variant)
    && units[k].role != Product
    && (forall j :: 0 <= j < |units| && j != k ==> units[j].item != units[k].item)
    && (units[k].role == Packaging ==> NetReserved(a.log, l) == 0)
    && !HasReturn(a.log, l)
  }

  lemma {:induction false} NoOtherRole(units: seq<Unit>, k: nat, role: Role)
    requires k < |units| && units[k].role != role
    requires forall j :: 0 <= j < |units| && j != k ==> units[j].item != units[k].item
    ensures QuantityOf(units, units[k].item, role) == 0
  {
    var n := |units| - 1;
    if k < n {
      NoOtherRole(units[..n], k, role);
    } else {
      OnlyUnitsQuantity(units[..n], units[k].item, role);
    }
  }

  /** A complete record of the line asks for nothing of its gifts and packaging. */
  lemma ExtraHasNoTarget(s: Store, l: LineId, sold: SoldLine, rows: seq<Allocation>, units: seq<Unit>, k: nat,
                         earlier: seq<Entries.Entry>, delivered: bool)
    requires Returnable(s, l, sold, rows) && k < |units| && Extra(s, l, units, k)
    ensures var ts := WithOldItems(TargetsOf(Entries.EntriesOf(sold, rows), delivered), earlier);
            TargetAt(ts, units[k].item) == Target(0, 0)
  {
    hide TargetsOf, Entries.EntriesOf, Expand, Count, RowSound, Allocated, NoRepeats, Coverage.Completed,
         Entries.Sellable;
    ExpansionMeaning(sold.quantity, sold.variant.value, units[k].item);
    NoOtherRole(units, k, Product);
    CompleteTarget(sold, rows, units[k].item, delivered);
  }

  /** So recording it leaves such an item as delivery or release left it. */
  lemma ExtraIsLeft(s: Store, l: LineId, targets: map<ItemId, Target>, i: ItemId)
    requires l in s.lines && TargetAt(targets, i) == Target(0, 0) &&
             !HasReturn(AccountOf(ReleaseLine(s, l).accounts, i).log, l)
    ensures AccountOf(ReconcileLine(s, l, targets).accounts, i) == AccountOf(ReleaseLine(s, l).accounts, i)
  {
    hide ReconcileLine, ReleaseLine, AccountOf, HasReturn;
    var a := AccountOf(ReleaseLine(s, l).accounts, i);
    ReturnAt(s, l, targets, i);
    NothingReturned(a.log, l, OnHand);
    NothingReturned(a.log, l, Damaged);
    NothingToReconcile(a, l, s.lines[l].revision + 1);
  }

  lemma NothingToReconcile(a: Account, l: LineId, revision: int)
    requires NetReturned(a.log, l, OnHand) == NetReturned(a.log, l, Damaged) == 0
    ensures Reconcile(a, l, revision, Target(0, 0)) == a
  {
  }

  lemma ExtraDelivered(s: Store, l: LineId, deliveredAt: Option<int>, units: seq<Unit>, k: nat)
    requires BookLegal(s.accounts) && l in s.lines && Deliverable(s.lines[l], deliveredAt)
    requires k < |units| && Extra(s, l, units, k)
    ensures AccountOf(DeliverLine(s, l, deliveredAt).accounts, units[k].item) ==
            DeliverUnit(AccountOf(s.accounts, units[k].item), l, units[k].quantity, units[k].role)
    ensures units[k].quantity > 0
  {
    hide Expand, DeliverUnit, DeliverUnits, DeliverLine, HasReturn, BookLegal, NetReserved, AccountOf, Deliverable,
         Legal;
    var i := units[k].item;
    ExpansionTidy(s.lines[l].quantity, s.lines[l].variant);
    if units[k].role.Packaging? {
      AccountLegal(s.accounts, i);
      OnlyUnitDelivers(s.accounts, l, units, k, i);
      PackagingHoldsNothing(AccountOf(s.accounts, i), l, units[k].quantity);
      DeliveredAsUnits(s, l, deliveredAt, units, i);
    } else {
      DeliveryOfUnit(s, l, deliveredAt, units, k);
    }
  }

  /** A first delivery takes what is reserved and free of a gift, and what is free of packaging. */
  lemma ExtraTaken(a: Account, l: LineId, quantity: nat, role: Role)
    requires Legal(a) && role != Product && !HasKey(a.log, DeliverKey(l)) && !HasKey(a.log, PackagingKey(l))
    requires role == Packaging ==> NetReserved(a.log, l) == 0
    ensures var held := NetReserved(a.log, l);
            DeliverUnit(a, l, quantity, role).balance ==
            a.balance.Plus(Reserved, -held).Plus(OnHand, -Min(quantity, a.balance.Available() + held))
  {
    hide DeliverUnit, Legal, HasKey, NetReserved;
    if role.Packaging? {
      PackagingUnit(a, l, quantity);
    } else {
      FirstDelivery(a, l, quantity, role);
    }
  }

  lemma NoReturnTaken(a: Account, l: LineId, quantity: nat, role: Role)
    ensures HasReturn(DeliverUnit(a, l, quantity, role).log, l) == HasReturn(a.log, l)
    ensures HasReturn(Release(a, l).log, l) == HasReturn(a.log, l)
  {
    hide Clamp, NetReserved, HasKey;
  }

  lemma ReleaseTaken(a: Account, l: LineId)
    requires Legal(a)
    ensures Release(a, l).balance == a.balance.Plus(Reserved, -NetReserved(a.log, l))
  {
    hide Release, Legal, NetReserved;
    ReleaseClears(a, l);
    ViewBalance(Release(a, l), l);
    ViewBalance(a, l);
  }

  lemma DeliveredExtra(s: Store, l: LineId, deliveredAt: Option<int>, sold: SoldLine, rows: seq<Allocation>,
                       units: seq<Unit>, k: nat, earlier: seq<Entries.Entry>)
    requires BookLegal(s.accounts) && InStep(s, l)
    requires Returnable(s, l, sold, rows) && k < |units| && Extra(s, l, units, k)
    ensures var targets := WithOldItems(TargetsOf(Entries.EntriesOf(sold, rows), true), earlier);
            var a := AccountOf(s.accounts, units[k].item);
            AccountOf(ReconcileLine(DeliverLine(s, l, deliveredAt), l, targets).accounts, units[k].item).balance ==
            a.balance.Plus(Reserved, -NetReserved(a.log, l)).Plus(
              OnHand, -Min(units[k].quantity, a.balance.Available() + NetReserved(a.log, l)))
  {
    hide BookLegal, InStep, TargetsOf, Entries.EntriesOf, Expand, DeliverUnit, DeliverLine, ReconcileLine, WithOldItems,
         NetReserved, HasReturn, Release, Legal, HasKey, Entries.Sellable, RowSound, Allocated, NoRepeats,
         Coverage.Completed, AccountOf;
    var i, a := units[k].item, AccountOf(s.accounts, units[k].item);
    AccountLegal(s.accounts, i);
    NotYetDelivered(s, l, i);
    ExtraDelivered(s, l, deliveredAt, units, k);
    ExtraTaken(a, l, units[k].quantity, units[k].role);
    NoReturnTaken(a, l, units[k].quantity, units[k].role);
    MarkedDelivered(s, l, deliveredAt);
    AlreadyReleased(DeliverLine(s, l, deliveredAt), l);
    ExtraHasNoTarget(s, l, sold, rows, units, k, earlier, true);
    ExtraIsLeft(DeliverLine(s, l, deliveredAt), l,
                WithOldItems(TargetsOf(Entries.EntriesOf(sold, rows), true), earlier), i);
  }

  lemma ReleasedExtra(s: Store, l: LineId, sold: SoldLine, rows: seq<Allocation>, units: seq<Unit>, k: nat,
                      earlier: seq<Entries.Entry>)
    requires BookLegal(s.accounts)
    requires Returnable(s, l, sold, rows) && k < |units| && Extra(s, l, units, k)
    ensures var targets := WithOldItems(TargetsOf(Entries.EntriesOf(sold, rows), false), earlier);
            var a := AccountOf(s.accounts, units[k].item);
            AccountOf(ReconcileLine(s, l, targets).accounts, units[k].item).balance ==
            a.balance.Plus(Reserved, -NetReserved(a.log, l))
  {
    hide BookLegal, TargetsOf, Entries.EntriesOf, Expand, ReconcileLine, ReleaseLine, WithOldItems, NetReserved,
         HasReturn, Release, Legal, Entries.Sellable, RowSound, Allocated, NoRepeats,
         Coverage.Completed, AccountOf;
    var i, a := units[k].item, AccountOf(s.accounts, units[k].item);
    AccountLegal(s.accounts, i);
    NoReturnTaken(a, l, 0, units[k].role);
    ReleaseTaken(a, l);
    ReleasedAccount(s, l, i);
    ExtraHasNoTarget(s, l, sold, rows, units, k, earlier, false);
    ExtraIsLeft(s, l, WithOldItems(TargetsOf(Entries.EntriesOf(sold, rows), false), earlier), i);
  }

  lemma AlreadyReleased(s: Store, l: LineId)
    requires l in s.lines && s.lines[l].status == Some(LineDelivered)
    ensures ReleaseLine(s, l) == s
  {
  }

  /** Gifts and packaging part the two ways: of a reserved line delivered and then completely recorded, what delivery
      took of them stays gone; of one released, recording the same leaves them all on hand. */
  lemma ExtrasDoNotComeBack(d: Desk, l: LineId, deliveredAt: Option<int>, inputs: seq<Input>, uuids: LineId -> nat,
                            units: seq<Unit>, k: nat)
    requires Ready(d) && l in d.order && BookLegal(d.stock.accounts) && InStep(d.stock, l)
    requires inputs != [] && (forall x :: x in inputs ==> x.line == l) && RowsOf(inputs, l) != []
    requires PrepareLine(d, inputs, l).Replaces? && Returnable(d.stock, l, Sold(d, l), RowsOf(inputs, l))
    requires k < |units| && Extra(d.stock, l, units, k)
    ensures var delivered := d.(stock := DeliverLine(d.stock, l, deliveredAt));
            var released := d.(stock := ReleaseLine(d.stock, l));
            && Ready(delivered) && Ready(released)
            && var a, b := Record(delivered, inputs, uuids), Record(released, inputs, uuids);
            && a.0 == b.0 == None
            && var i, before := units[k].item, AccountOf(d.stock.accounts, units[k].item);
            var held := NetReserved(before.log, l);
            && AccountOf(b.1.stock.accounts, i).balance == before.balance.Plus(Reserved, -held)
            && AccountOf(a.1.stock.accounts, i).balance ==
               AccountOf(b.1.stock.accounts, i).balance.Plus(
                 OnHand, -Min(units[k].quantity, before.balance.Available() + held))
  {
    hide Ready, Prepare, PrepareLine, Record, ReconcileLine, DeliverLine, Extra, Entries.EntriesOf, Count, TargetsOf,
         WithOldItems, BookLegal, InStep, Returnable, AccountOf, NetReserved;
    ReadySells(d, l);
    ReturnableRows(d, l, inputs);
    RecordsOfBoth(d, l, deliveredAt, inputs, uuids);
    PreparedEntries(d, inputs, l);
    DeliveredExtra(d.stock, l, deliveredAt, Sold(d, l), RowsOf(inputs, l), units, k, SavedEntries(d, l));
    ReleasedExtra(d.stock, l, Sold(d, l), RowsOf(inputs, l), units, k, SavedEntries(d, l));
  }
}
