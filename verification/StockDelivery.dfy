/** What reserving and delivering a line take from each of its items. */
module StockDelivery {
  import opened Basics
  import opened StockAccounts
  import opened StockFlows
  import opened Catalogue
  import opened OrderStock

  lemma ReserveUnitsStep(bk: Book, l: LineId, units: seq<Unit>, i: ItemId)
    requires units != []
    ensures var u, p := units[|units| - 1], ReserveUnits(bk, l, units[..|units| - 1]);
            AccountOf(ReserveUnits(bk, l, units), i) ==
            if u.item == i && !u.role.Packaging? then ReserveUnit(AccountOf(p, i), l, u.quantity) else AccountOf(p, i)
  {
  }

  lemma {:induction false} OtherUnitsReserveElsewhere(bk: Book, l: LineId, units: seq<Unit>, i: ItemId)
    requires forall j :: 0 <= j < |units| ==> units[j].item != i
    ensures AccountOf(ReserveUnits(bk, l, units), i) == AccountOf(bk, i)
  {
    if units != [] {
      ReserveUnitsStep(bk, l, units, i);
      OtherUnitsReserveElsewhere(bk, l, units[..|units| - 1], i);
    }
  }

  /** An item that is only one unit of its line is reserved as that unit, and packaging not at all. */
  lemma {:induction false} OnlyUnitReserves(bk: Book, l: LineId, units: seq<Unit>, k: nat, i: ItemId)
    requires k < |units| && units[k].item == i && forall j :: 0 <= j < |units| && j != k ==> units[j].item != i
    ensures AccountOf(ReserveUnits(bk, l, units), i) ==
            if units[k].role.Packaging? then AccountOf(bk, i) else ReserveUnit(AccountOf(bk, i), l, units[k].quantity)
  {
    hide AccountOf;
    var n := |units| - 1;
    ReserveUnitsStep(bk, l, units, i);
    if k < n {
      OnlyUnitReserves(bk, l, units[..n], k, i);
    } else {
      OtherUnitsReserveElsewhere(bk, l, units[..n], i);
    }
  }

  /** A line's first reservation takes what is free, up to the quantity, of each product or gift item. */
  lemma ReservationIsMade(s: Store, l: LineId, units: seq<Unit>, k: nat)
    requires BookLegal(s.accounts) && l in s.lines && s.lines[l].status == None && s.lines[l].variant.Some?
    requires units == Expand(s.lines[l].quantity, s.lines[l].variant)
    requires k < |units| && !units[k].role.Packaging?
    requires forall j :: 0 <= j < |units| && j != k ==> units[j].item != units[k].item
    requires !HasKey(AccountOf(s.accounts, units[k].item).log, ReserveKey(l))
    ensures var before, after := AccountOf(s.accounts, units[k].item),
                                 AccountOf(ReserveLine(s, l).accounts, units[k].item);
            && ReserveLine(s, l).lines[l].status == Some(LineReserved)
            && NetReserved(after.log, l) == Min(units[k].quantity, before.balance.Available())
            && after.balance == before.balance.Plus(Reserved, NetReserved(after.log, l))
  {
    hide Expand, BookLegal, HasKey, AccountOf, ReserveUnit, ReserveUnits, ReserveLine, Legal, NetReserved;
    ReservedAsUnits(s, l, units);
    OnlyUnitReserves(s.accounts, l, units, k, units[k].item);
    ExpansionTidy(s.lines[l].quantity, s.lines[l].variant);
    AccountLegal(s.accounts, units[k].item);
    FirstReservation(AccountOf(s.accounts, units[k].item), l, units[k].quantity);
  }

  /** A line without product, or with a stock status, is not reserved again. */
  lemma ReservationPassesBy(s: Store, l: LineId)
    requires l in s.lines && (s.lines[l].variant == None || s.lines[l].status.Some?)
    ensures ReserveLine(s, l) == s
  {
  }

  lemma ReservedAsUnits(s: Store, l: LineId, units: seq<Unit>)
    requires l in s.lines && s.lines[l].status == None && s.lines[l].variant.Some?
    requires units == Expand(s.lines[l].quantity, s.lines[l].variant)
    ensures ReserveLine(s, l).accounts == ReserveUnits(s.accounts, l, units)
    ensures l in ReserveLine(s, l).lines && ReserveLine(s, l).lines[l].status == Some(LineReserved)
  {
  }

  lemma FirstReservation(a: Account, l: LineId, quantity: int)
    requires Legal(a) && quantity > 0 && !HasKey(a.log, ReserveKey(l))
    ensures var b := ReserveUnit(a, l, quantity);
            && NetReserved(b.log, l) == Min(quantity, a.balance.Available())
            && b.balance == a.balance.Plus(Reserved, NetReserved(b.log, l))
  {
    LegalIsValid(a);
    ReservationShape(a.opening, a.log, l);
    MoveEffect(a, Request(OrderReserved, Reserved, quantity, l, ReserveKey(l)));
    assert ViewOf(ReserveUnit(a, l, quantity), l).balance == ReserveUnit(a, l, quantity).balance;
    assert ViewOf(ReserveUnit(a, l, quantity), l).reserved == NetReserved(ReserveUnit(a, l, quantity).log, l);
  }

  lemma PackagingUnit(a: Account, l: LineId, quantity: nat)
    requires Legal(a) && !HasKey(a.log, PackagingKey(l))
    ensures DeliverUnit(a, l, quantity, Packaging).balance ==
            a.balance.Plus(OnHand, -Min(quantity, a.balance.Available()))
  {
    LegalIsValid(a);
    var m := Request(PackagingConsumed, OnHand, -(quantity as int), l, PackagingKey(l));
    MoveEffect(a, m);
    assert ViewOf(Move(a, m), l).balance == Move(a, m).balance;
  }

  /** Packaging is consumed on first delivery from what is free. */
  lemma PackagingIsConsumed(s: Store, l: LineId, deliveredAt: Option<int>, units: seq<Unit>, k: nat)
    requires BookLegal(s.accounts) && l in s.lines && Deliverable(s.lines[l], deliveredAt)
    requires units == Expand(s.lines[l].quantity, s.lines[l].variant)
    requires k < |units| && units[k].role.Packaging?
    requires forall j :: 0 <= j < |units| && j != k ==> units[j].item != units[k].item
    requires var a := AccountOf(s.accounts, units[k].item);
             !HasKey(a.log, PackagingKey(l)) && NetReserved(a.log, l) == 0
    ensures var before, after := AccountOf(s.accounts, units[k].item),
                                 AccountOf(DeliverLine(s, l, deliveredAt).accounts, units[k].item);
            after.balance == before.balance.Plus(OnHand, -Min(units[k].quantity, before.balance.Available()))
  {
    hide Expand, BookLegal, HasKey, AccountOf, DeliverUnit, DeliverUnits, DeliverLine, Legal, NetReserved, Deliverable;
    var i, a := units[k].item, AccountOf(s.accounts, units[k].item);
    ExpansionTidy(s.lines[l].quantity, s.lines[l].variant);
    AccountLegal(s.accounts, i);
    OnlyUnitDelivers(s.accounts, l, units, k, i);
    PackagingUnit(a, l, units[k].quantity);
    PackagingHoldsNothing(a, l, units[k].quantity);
    DeliveredAsUnits(s, l, deliveredAt, units, i);
  }

  /** Which lines a delivery deducts: a matched line not delivered before, when no delivery time is known, when it has a
      stock status, or when it was first synced by the delivery. Such a line ends delivered, with each product or gift
      item that is one unit of it deducted as far as reservation and free stock cover it. */
  lemma DueLineIsDelivered(s: Store, l: LineId, deliveredAt: Option<int>)
    requires BookLegal(s.accounts) && InStep(s, l) && l in s.lines
    requires s.lines[l].variant.Some? && s.lines[l].status != Some(LineDelivered)
    requires deliveredAt == None || s.lines[l].status.Some? || s.lines[l].createdAt <= deliveredAt.value
    ensures l in DeliverLine(s, l, deliveredAt).lines
    ensures DeliverLine(s, l, deliveredAt).lines[l] == s.lines[l].(status := Some(LineDelivered))
    ensures var units := Expand(s.lines[l].quantity, s.lines[l].variant);
            forall k :: 0 <= k < |units| && !units[k].role.Packaging? &&
                        (forall j :: 0 <= j < |units| && j != k ==> units[j].item != units[k].item) ==>
              DeliveredAsReserved(AccountOf(s.accounts, units[k].item),
                                  AccountOf(DeliverLine(s, l, deliveredAt).accounts, units[k].item), l,
                                  units[k].quantity)
  {
    hide BookLegal, InStep, Expand, DeliverUnits, DeliverOrphans, PhysicalItems, DeliveredAsReserved, AccountOf;
    var units := Expand(s.lines[l].quantity, s.lines[l].variant);
    forall k | 0 <= k < |units| && !units[k].role.Packaging? &&
               (forall j :: 0 <= j < |units| && j != k ==> units[j].item != units[k].item)
      ensures DeliveredAsReserved(AccountOf(s.accounts, units[k].item),
                                  AccountOf(DeliverLine(s, l, deliveredAt).accounts, units[k].item), l,
                                  units[k].quantity)
    {
      DeliveryIsGuaranteed(s, l, deliveredAt, units, k);
    }
  }

  /** Every other line is left alone: one without product, one delivered before, and an unreserved one first synced
      after the delivery, which the merchant's own count already leaves out. */
  lemma OtherLinesAreNot(s: Store, l: LineId, deliveredAt: Option<int>)
    requires l in s.lines
    requires s.lines[l].variant == None || s.lines[l].status == Some(LineDelivered) ||
             (s.lines[l].status == None && deliveredAt.Some? && s.lines[l].createdAt > deliveredAt.value)
    ensures DeliverLine(s, l, deliveredAt) == s
  {
  }

  lemma PackagingHoldsNothing(a: Account, l: LineId, quantity: nat)
    requires Legal(a)
    ensures NetReserved(DeliverUnit(a, l, quantity, Packaging).log, l) == NetReserved(a.log, l)
  {
    DeliverKeepsLegal(a, l, quantity, Packaging);
  }

  lemma DeliveredAsUnits(s: Store, l: LineId, deliveredAt: Option<int>, units: seq<Unit>, i: ItemId)
    requires l in s.lines && Deliverable(s.lines[l], deliveredAt)
    requires units == Expand(s.lines[l].quantity, s.lines[l].variant)
    requires NetReserved(AccountOf(DeliverUnits(s.accounts, l, units), i).log, l) == 0
    ensures AccountOf(DeliverLine(s, l, deliveredAt).accounts, i) == AccountOf(DeliverUnits(s.accounts, l, units), i)
  {
    hide DeliverOrphans, DeliverUnits, Expand;
    NotOrphaned(DeliverUnits(s.accounts, l, units), l, PhysicalItems(units), i);
  }

  lemma NotOrphaned(bk: Book, l: LineId, current: set<ItemId>, i: ItemId)
    requires NetReserved(AccountOf(bk, i).log, l) == 0
    ensures AccountOf(DeliverOrphans(bk, l, current), i) == AccountOf(bk, i)
  {
  }

  /** Delivering a reserved line also takes what it still holds of items its product has lost: exactly that, leaving
      what is available to others unchanged. */
  lemma LostItemIsDelivered(s: Store, l: LineId, deliveredAt: Option<int>, units: seq<Unit>, i: ItemId)
    requires BookLegal(s.accounts) && InStep(s, l) && l in s.lines && Deliverable(s.lines[l], deliveredAt)
    requires s.lines[l].status == Some(LineReserved)
    requires units == Expand(s.lines[l].quantity, s.lines[l].variant) && forall u :: u in units ==> u.item != i
    ensures var before, after := AccountOf(s.accounts, i), AccountOf(DeliverLine(s, l, deliveredAt).accounts, i);
            var held := NetReserved(before.log, l);
            after.balance == before.balance.Plus(Reserved, -held).Plus(OnHand, -held)
  {
    hide Expand, BookLegal, HasKey, DeliverUnit;
    var a := AccountOf(s.accounts, i);
    AccountLegal(s.accounts, i);
    OtherUnitsLeaveItem(s.accounts, l, units, i);
    NoReservationElsewhere(s.accounts, l, i);
    if NetReserved(a.log, l) > 0 {
      NotYetDelivered(s, l, i);
      WholeReservationDelivered(a, l);
      assert i !in PhysicalItems(units);
    } else {
      NotOrphaned(DeliverUnits(s.accounts, l, units), l, PhysicalItems(units), i);
    }
  }

  lemma NotYetDelivered(s: Store, l: LineId, i: ItemId)
    requires InStep(s, l) && l in s.lines && s.lines[l].status != Some(LineDelivered)
    ensures !HasKey(AccountOf(s.accounts, i).log, DeliverKey(l)) &&
            !HasKey(AccountOf(s.accounts, i).log, PackagingKey(l))
  {
    assert DeliverKey(l) in DeliveryKeys(l) && PackagingKey(l) in DeliveryKeys(l);
  }

  lemma WholeReservationDelivered(a: Account, l: LineId)
    requires Legal(a) && NetReserved(a.log, l) > 0 && !HasKey(a.log, DeliverKey(l))
    ensures var held := NetReserved(a.log, l);
            DeliverOrphan(a, l).balance == a.balance.Plus(Reserved, -held).Plus(OnHand, -held)
  {
    var held := NetReserved(a.log, l);
    ReservationGuaranteesDelivery(a, l, held, Product);
    assert DeliverOrphan(a, l) == DeliverUnit(a, l, held, Product);
    assert ViewOf(DeliverOrphan(a, l), l).balance == DeliverOrphan(a, l).balance;
  }

  // ---- An item that is both product and gift of a line ----

  /** Movement keys carry no role, so of two reservations of one item for one line only the first that takes anything
      counts. */
  lemma SecondReservationIsDropped(a: Account, l: LineId, first: int, second: int)
    requires Legal(a) && first > 0 && second > 0 && !HasKey(a.log, ReserveKey(l))
    ensures var b := ReserveUnit(a, l, first);
            && (a.balance.Available() > 0 <==> b != a)
            && (b != a ==> ReserveUnit(b, l, second) == b)
            && (b == a ==> ReserveUnit(b, l, second) == a)
  {
    LegalIsValid(a);
  }

  /** Likewise on first delivery: the gift units of an item that is also product are taken exactly when its product
      units took nothing. */
  lemma GiftOfSameItemIsDropped(a: Account, l: LineId, quantity: nat, gift: nat)
    requires Legal(a) && quantity > 0 && !HasKey(a.log, DeliverKey(l))
    ensures var b := DeliverUnit(a, l, quantity, Product);
            var taken := a.balance.onHand - b.balance.onHand;
            var c := DeliverUnit(b, l, gift, Gift);
            if taken > 0 then c == b else c.balance.onHand == b.balance.onHand - Min(gift, b.balance.Available())
  {
    var s, b := Settle(a, l), DeliverUnit(a, l, quantity, Product);
    SettleClears(a, l);
    DeliverKeepsLegal(a, l, quantity, Product);
    LegalIsValid(s);
    LegalIsValid(b);
    assert s.balance == ViewOf(s, l).balance && s.balance.onHand == a.balance.onHand;
    assert Settle(b, l) == b;
  }
}
