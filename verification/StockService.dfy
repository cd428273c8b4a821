/** The stock service: one object whose calls update accounts and lines in place, each tied to the flows of
    OrderStock. */
module StockService {
  import opened Basics
  import opened StockAccounts
  import opened StockFlows
  import opened Catalogue
  import opened OrderStock
  import opened StockRuns

  class OrderStockService {
    var accounts: Book
    var lines: map<LineId, OrderLine>
    var orders: map<OrderId, seq<LineId>>

    /** Accounts are legal; an order's lines exist and are listed once. */
    ghost predicate Valid()
      reads this
    {
      && BookLegal(accounts)
      && forall o :: o in orders ==>
           && (forall k :: 0 <= k < |orders[o]| ==> orders[o][k] in lines)
           && forall j, k :: 0 <= j < k < |orders[o]| ==> orders[o][j] != orders[o][k]
    }

    ghost function Model(): Store
      reads this
    {
      Store(accounts, lines)
    }

    constructor (accounts: Book, lines: map<LineId, OrderLine>, orders: map<OrderId, seq<LineId>>)
      requires BookLegal(accounts)
      requires forall o :: o in orders ==>
                 && (forall k :: 0 <= k < |orders[o]| ==> orders[o][k] in lines)
                 && forall j, k :: 0 <= j < k < |orders[o]| ==> orders[o][j] != orders[o][k]
      ensures Valid() && Model() == Store(accounts, lines) && this.orders == orders
    {
      this.accounts, this.lines, this.orders := accounts, lines, orders;
    }

    /** Applies the clamped part of the request; reports what was moved. Other accounts stay as they are. */
    method MoveStock(i: ItemId, m: Request) returns (moved: int)
      modifies this`accounts
      ensures accounts == old(accounts)[i := Move(AccountOf(old(accounts), i), m)]
      ensures moved == Moved(AccountOf(old(accounts), i), m)
      ensures AccountOf(old(accounts), i).balance.Valid() ==>
                MovedAsAsked(AccountOf(old(accounts), i), accounts[i], m, moved)
    {
      hide MovedAsAsked;
      if AccountOf(accounts, i).balance.Valid() {
        MoveMeans(AccountOf(accounts, i), m);
      }
      var a := AccountOf(accounts, i);
      if HasKey(a.log, m.key) {
        moved := DeltaAt(a.log, m.key);
        accounts := accounts[i := a];
        return;
      }
      moved := Clamp(a.balance, m.bucket, m.delta);
      if moved != 0 {
        var balance := a.balance.Plus(m.bucket, moved);
        a := Account(a.item, a.opening, balance,
                     Then(a.log, Row(m.kind, m.bucket, moved, balance.Get(m.bucket), Some(m.line), m.key)));
      }
      accounts := accounts[i := a];
    }

    method ReserveOneLine(l: LineId)
      requires l in lines
      modifies this`accounts, this`lines
      ensures Model() == ReserveLine(old(Model()), l) && lines.Keys == old(lines.Keys)
    {
      var line := lines[l];
      if line.variant == None || line.status.Some? {
        return;
      }
      var units := ExpandOrderLine(line.quantity, line.variant);
      for k := 0 to |units|
        invariant accounts == ReserveUnits(old(accounts), l, units[..k]) && lines == old(lines)
      {
        assert units[..k + 1][..k] == units[..k];
        if !units[k].role.Packaging? {
          var moved := MoveStock(units[k].item, Request(OrderReserved, Reserved, units[k].quantity, l, ReserveKey(l)));
        }
      }
      assert units[..|units|] == units;
      lines := lines[l := line.(status := Some(LineReserved))];
    }

    /** Settles what the line holds of the item, if anything. */
    method SettleItem(l: LineId, i: ItemId, amount: int)
      requires amount == NetReserved(AccountOf(accounts, i).log, l)
      modifies this`accounts
      ensures AccountOf(accounts, i) == Settle(AccountOf(old(accounts), i), l)
      ensures accounts == old(accounts) || accounts == old(accounts)[i := Settle(AccountOf(old(accounts), i), l)]
    {
      if amount > 0 {
        var moved := MoveStock(i, Request(OrderDelivered, Reserved, -amount, l, SettleKey(l)));
      }
    }

    method DeliverOneUnit(l: LineId, u: Unit)
      modifies this`accounts
      ensures accounts == old(accounts)[u.item := DeliverUnit(AccountOf(old(accounts), u.item), l, u.quantity, u.role)]
    {
      if u.role.Packaging? {
        var moved := MoveStock(u.item, Request(PackagingConsumed, OnHand, -u.quantity, l, PackagingKey(l)));
      } else {
        SettleItem(l, u.item, NetReserved(AccountOf(accounts, u.item).log, l));
        var moved := MoveStock(u.item, Request(OrderDelivered, OnHand, -u.quantity, l, DeliverKey(l)));
      }
    }

    /** Items still held but no longer part of the product, in the unspecified order the query returns them. */
    method DeliverOrphanItems(l: LineId, current: set<ItemId>)
      modifies this`accounts
      ensures accounts == DeliverOrphans(old(accounts), l, current)
    {
      hide NetReserved, DeliverOrphan;
      var pending := set i | i in accounts && Orphaned(accounts, l, current, i);
      var reserved := map i | i in pending :: NetReserved(accounts[i].log, l);
      ghost var all := pending;
      while pending != {}
        invariant pending <= all && accounts.Keys == old(accounts.Keys)
        invariant forall i :: i in accounts ==>
                    accounts[i] == if i in all - pending then DeliverOrphan(old(accounts)[i], l) else old(accounts)[i]
        decreases pending
      {
        var i :| i in pending;
        DeliverOrphanItem(l, i, reserved[i]);
        pending := pending - {i};
      }
    }

    method DeliverOrphanItem(l: LineId, i: ItemId, reserved: int)
      requires i in accounts && reserved == NetReserved(accounts[i].log, l)
      modifies this`accounts
      ensures accounts == old(accounts)[i := DeliverOrphan(old(accounts)[i], l)]
    {
      hide NetReserved, MovedAsAsked, Move, Settle;
      SettleItem(l, i, reserved);
      var moved := MoveStock(i, Request(OrderDelivered, OnHand, -reserved, l, DeliverKey(l)));
    }

    method DeliverOneLine(l: LineId, deliveredAt: Option<int>)
      requires l in lines
      modifies this`accounts, this`lines
      ensures Model() == DeliverLine(old(Model()), l, deliveredAt) && lines.Keys == old(lines.Keys)
      ensures var line := old(lines)[l];
              if line.variant.Some? && line.status != Some(LineDelivered) &&
                 (deliveredAt == None || line.status.Some? || line.createdAt <= deliveredAt.value)
              then lines[l] == line.(status := Some(LineDelivered))
              else lines == old(lines) && accounts == old(accounts)
    {
      var line := lines[l];
      if line.variant == None || line.status == Some(LineDelivered) {
        return;
      }
      if deliveredAt.Some? && line.status == None && line.createdAt > deliveredAt.value {
        return;
      }
      var units := ExpandOrderLine(line.quantity, line.variant);
      for k := 0 to |units|
        invariant accounts == DeliverUnits(old(accounts), l, units[..k]) && lines == old(lines)
      {
        assert units[..k + 1][..k] == units[..k];
        DeliverOneUnit(l, units[k]);
      }
      assert units[..|units|] == units;
      if line.status == Some(LineReserved) {
        DeliverOrphanItems(l, PhysicalItems(units));
      }
      lines := lines[l := line.(status := Some(LineDelivered))];
    }

    method ReleaseItem(l: LineId, i: ItemId, amount: int)
      requires i in accounts && amount == NetReserved(accounts[i].log, l)
      modifies this`accounts
      ensures accounts == old(accounts)[i := Release(old(accounts)[i], l)]
    {
      if amount > 0 {
        var moved := MoveStock(i, Request(OrderReleased, Reserved, -amount, l, ReleaseKey(l)));
      }
    }

    lemma ReleasedTwice(bk: Book, l: LineId, i: ItemId)
      requires BookLegal(bk) && i in bk
      ensures Release(Release(bk[i], l), l) == Release(bk[i], l)
    {
      ReleaseTouches(bk[i], l);
    }

    /** First the line's current items, then the orphans: together, every item it holds. */
    method ReleaseOneLine(l: LineId)
      requires BookLegal(accounts) && l in lines
      modifies this`accounts, this`lines
      ensures Model() == ReleaseLine(old(Model()), l) && lines.Keys == old(lines.Keys)
    {
      hide Release, Expand, BookLegal, EmptyAccount, MovedAsAsked;
      var line := lines[l];
      if line.status != Some(LineReserved) {
        return;
      }
      var units := ExpandOrderLine(line.quantity, line.variant);
      ghost var done: set<ItemId> := {};
      for k := 0 to |units|
        invariant accounts.Keys == old(accounts.Keys) && lines == old(lines)
        invariant done == PhysicalItems(units[..k])
        invariant forall i :: i in accounts ==>
                    accounts[i] == if i in done then Release(old(accounts)[i], l) else old(accounts)[i]
      {
        LastUnit(units[..k + 1]);
        assert units[..k + 1][..k] == units[..k];
        var i := units[k].item;
        if !units[k].role.Packaging? {
          if i in accounts {
            ReleasedTwice(old(accounts), l, i);
            ReleaseItem(l, i, NetReserved(accounts[i].log, l));
          }
          done := done + {i};
        }
      }
      assert units[..|units|] == units;
      ReleaseOrphanItems(l, PhysicalItems(units), old(accounts));
      lines := lines[l := line.(status := Some(LineReleased))];
    }

    method ReleaseOrphanItems(l: LineId, current: set<ItemId>, ghost before: Book)
      requires accounts.Keys == before.Keys
      requires forall i :: i in accounts ==> accounts[i] == if i in current then Release(before[i], l) else before[i]
      modifies this`accounts
      ensures accounts == ReleaseEverywhere(before, l)
    {
      hide Release, NetReserved, Orphaned, BookLegal;
      OnlyOrphansHold(before, accounts, l, current);
      var pending := set i | i in accounts && Orphaned(accounts, l, current, i);
      var reserved := map i | i in pending :: NetReserved(accounts[i].log, l);
      ghost var all := pending;
      while pending != {}
        invariant pending <= all && accounts.Keys == before.Keys
        invariant forall i :: i in accounts ==>
                    accounts[i] == if i in current || i in all - pending then Release(before[i], l) else before[i]
        decreases pending
      {
        var i :| i in pending;
        ReleaseItem(l, i, reserved[i]);
        pending := pending - {i};
      }
    }

    method ReserveOrder(o: OrderId)
      requires Valid()
      modifies this`accounts, this`lines
      ensures Valid()
      ensures Model() == (if o in orders then ApplyAll(old(Model()), orders[o], ReserveFlow) else old(Model()))
    {
      if o in orders {
        RunFlow(orders[o], ReserveFlow);
      }
    }

    method DeliverOrder(o: OrderId, deliveredAt: Option<int>)
      requires Valid()
      modifies this`accounts, this`lines
      ensures Valid()
      ensures Model() ==
              (if o in orders then ApplyAll(old(Model()), orders[o], DeliverFlow(deliveredAt)) else old(Model()))
      ensures lines.Keys == old(lines.Keys)
      ensures o in orders ==>
                forall l :: l in orders[o] ==>
                  var line := old(lines)[l];
                  lines[l] == if line.variant.Some? && line.status != Some(LineDelivered) &&
                                 (deliveredAt == None || line.status.Some? || line.createdAt <= deliveredAt.value)
                              then line.(status := Some(LineDelivered)) else line
    {
      if o in orders {
        DeliveredRows(Model(), orders[o], deliveredAt);
        RunFlow(orders[o], DeliverFlow(deliveredAt));
      }
    }

    method ReleaseOrder(o: OrderId)
      requires Valid()
      modifies this`accounts, this`lines
      ensures Valid()
      ensures Model() == (if o in orders then ApplyAll(old(Model()), orders[o], ReleaseFlow) else old(Model()))
    {
      if o in orders {
        RunFlow(orders[o], ReleaseFlow);
      }
    }

    method RunFlow(ids: seq<LineId>, flow: Flow)
      requires Valid() && forall k :: 0 <= k < |ids| ==> ids[k] in lines
      modifies this`accounts, this`lines
      ensures Valid() && Model() == ApplyAll(old(Model()), ids, flow)
    {
      for k := 0 to |ids|
        invariant Valid() && lines.Keys == old(lines.Keys)
        invariant Model() == ApplyAll(old(Model()), ids[..k], flow)
      {
        assert ids[..k + 1][..k] == ids[..k];
        BookStaysLegal(Model(), ids[k], flow);
        match flow {
          case ReserveFlow => ReserveOneLine(ids[k]);
          case DeliverFlow(at) => DeliverOneLine(ids[k], at);
          case ReleaseFlow => ReleaseOneLine(ids[k]);
        }
      }
      assert ids[..|ids|] == ids;
    }

    /** Brings a line's net returns to the targets under its next revision. */
    method ReconcileReturnTargets(l: LineId, targets: map<ItemId, Target>) returns (updated: bool)
      requires Valid() && forall i :: i in targets ==> targets[i].damaged >= 0
      modifies this`accounts, this`lines
      ensures Valid()
      ensures Model() == ReconcileLine(old(Model()), l, targets)
      ensures updated <==> ReturnReported(old(Model()), l, targets)
    {
      hide ReleaseLine, ReconcileTargets, AllTargets, AnyReported, BookLegal, Continues;
      if l in lines {
        StepKeepsBook(Model(), ReturnStep(l, targets));
        updated := ReconcileLineReturn(l, targets);
      } else {
        updated := false;
      }
    }

    method ReconcileLineReturn(l: LineId, targets: map<ItemId, Target>) returns (updated: bool)
      requires BookLegal(accounts) && l in lines
      modifies this`accounts, this`lines
      ensures lines.Keys == old(lines.Keys)
      ensures Model() == ReconcileLine(old(Model()), l, targets)
      ensures updated <==> ReturnReported(old(Model()), l, targets)
    {
      hide Reconcile, AnyReported, EmptyAccount, ReconcileTargets, AllTargets, ReconcileLine, ReleaseLine, BookLegal;
      ReturnIs(Model(), l, targets);
      ReleaseOneLine(l);
      var revision := lines[l].revision + 1;
      updated := ReconcileItems(l, revision, AllTargets(accounts, l, targets));
      lines := lines[l := lines[l].(revision := revision)];
    }

    method ReconcileItems(l: LineId, revision: int, targets: map<ItemId, Target>) returns (updated: bool)
      modifies this`accounts
      ensures accounts == ReconcileTargets(old(accounts), l, revision, targets)
      ensures updated <==> AnyReported(old(accounts), l, revision, targets)
    {
      hide Reconcile, Reported, EmptyAccount;
      updated := false;
      var pending := targets.Keys;
      while pending != {}
        invariant pending <= targets.Keys
        invariant accounts.Keys == old(accounts.Keys) + (targets.Keys - pending)
        invariant forall i :: i in accounts ==>
                    accounts[i] == if i in targets.Keys - pending
                                   then Reconcile(AccountOf(old(accounts), i), l, revision, targets[i])
                                   else AccountOf(old(accounts), i)
        invariant updated <==>
                  exists i :: i in targets.Keys - pending &&
                              Reported(AccountOf(old(accounts), i), l, revision, targets[i])
        decreases pending
      {
        var i :| i in pending;
        assert AccountOf(accounts, i) == AccountOf(old(accounts), i);
        var changed := ReconcileItem(l, revision, i, targets[i]);
        updated := updated || changed;
        pending := pending - {i};
      }
    }

    method AdjustItem(l: LineId, revision: int, index: nat, i: ItemId, k: Bucket, delta: int) returns (changed: bool)
      modifies this`accounts
      ensures accounts == old(accounts)[i := Adjust(AccountOf(old(accounts), i), l, revision, index, k, delta)]
      ensures changed <==>
              delta != 0 && Moved(AccountOf(old(accounts), i), ReturnRequest(l, revision, index, k, delta)) != 0
    {
      if delta == 0 {
        accounts := accounts[i := AccountOf(accounts, i)];
        return false;
      }
      var moved := MoveStock(i, ReturnRequest(l, revision, index, k, delta));
      changed := moved != 0;
    }

    /** Moves a line's net returns of an item to its target. Under a new revision they move toward it, never past it,
        and reach it exactly when the aimed balance is valid; the result says whether anything changed. */
    method ReconcileItem(l: LineId, revision: int, i: ItemId, t: Target) returns (changed: bool)
      modifies this`accounts
      ensures accounts == old(accounts)[i := Reconcile(AccountOf(old(accounts), i), l, revision, t)]
      ensures changed <==> Reported(AccountOf(old(accounts), i), l, revision, t)
      ensures FreshRevision(AccountOf(old(accounts), i), l, revision) ==>
                (changed <==> accounts[i] != AccountOf(old(accounts), i))
      ensures FreshRevision(AccountOf(old(accounts), i), l, revision) && Legal(AccountOf(old(accounts), i)) &&
              t.damaged >= 0 ==>
                MovedToward(ViewOf(AccountOf(old(accounts), i), l), ViewOf(accounts[i], l), t)
    {
      hide Moved, Adjust, ViewOf, FirstMove, SecondMove, EmptyAccount, MovedToward, Legal, FreshRevision, MovedAsAsked;
      ReconcileItemMeans(AccountOf(accounts, i), l, revision, t);
      var v := ViewOf(AccountOf(accounts, i), l);
      var first, second := FirstMove(v, t), SecondMove(v, t);
      var a := AdjustItem(l, revision, 0, i, first.0, first.1);
      var b := AdjustItem(l, revision, 1, i, second.0, second.1);
      changed := a || b;
    }
  }

  /** What delivering an order does to the rows of its lines. */
  lemma {:induction false} DeliveredRows(s: Store, ids: seq<LineId>, deliveredAt: Option<int>)
    ensures ApplyAll(s, ids, DeliverFlow(deliveredAt)).lines.Keys == s.lines.Keys
    ensures forall l :: l in s.lines ==>
              var line := s.lines[l];
              ApplyAll(s, ids, DeliverFlow(deliveredAt)).lines[l] ==
              if l in ids && line.variant.Some? && line.status != Some(LineDelivered) &&
                 (deliveredAt == None || line.status.Some? || line.createdAt <= deliveredAt.value)
              then line.(status := Some(LineDelivered)) else line
  {
    hide DeliverUnits, DeliverOrphans, Expand, PhysicalItems;
    if ids != [] {
      DeliveredRows(s, ids[..|ids| - 1], deliveredAt);
      assert ids == ids[..|ids| - 1] + [ids[|ids| - 1]];
    }
  }

  lemma ReconcileItemMeans(a: Account, l: LineId, revision: int, t: Target)
    ensures FreshRevision(a, l, revision) ==> (Reported(a, l, revision, t) <==> Reconcile(a, l, revision, t) != a)
    ensures FreshRevision(a, l, revision) && Legal(a) && t.damaged >= 0 ==>
              MovedToward(ViewOf(a, l), ViewOf(Reconcile(a, l, revision, t), l), t)
  {
    hide Reported, Reconcile, MovedToward, Legal, FreshRevision;
    if FreshRevision(a, l, revision) {
      ReportedIsChange(a, l, revision, t);
      if Legal(a) && t.damaged >= 0 {
        ReconcileConverges(a, l, revision, t);
      }
    }
  }

  lemma OnlyOrphansHold(before: Book, now: Book, l: LineId, current: set<ItemId>)
    requires now.Keys == before.Keys
    requires forall i :: i in now ==> now[i] == if i in current then Release(before[i], l) else before[i]
    ensures forall i :: i in now && Orphaned(now, l, current, i) ==> i !in current
    ensures forall i :: i in now && i !in current && !Orphaned(now, l, current, i) ==>
            Release(before[i], l) == before[i]
  {
  }

  ghost predicate AnyReported(bk: Book, l: LineId, revision: int, targets: map<ItemId, Target>) {
    exists i :: i in targets && Reported(AccountOf(bk, i), l, revision, targets[i])
  }

  /** Whether recording the return moves any stock. */
  ghost predicate ReturnReported(s: Store, l: LineId, targets: map<ItemId, Target>) {
    l in s.lines &&
    var r := ReleaseLine(s, l);
    AnyReported(r.accounts, l, r.lines[l].revision + 1, AllTargets(r.accounts, l, targets))
  }
}
