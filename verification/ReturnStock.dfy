/** From recorded conditions to the stock targets of a line's return. */
module ReturnStock {
  import opened Basics
  import opened StockFlows
  import opened Catalogue
  import opened ReturnConditions
  import opened ReturnEntries
  import opened ReturnCoverage

  /** What one returned piece changes: a delivered piece comes back into stock, an undelivered one never left. */
  function Effect(condition: ProductCondition, delivered: bool): Target {
    match condition
    case GOOD => if delivered then Target(1, 0) else Target(0, 0)
    case RETURNED => if delivered then Target(1, 0) else Target(0, 0)
    case DAMAGED => if delivered then Target(1, 1) else Target(0, 1)
    case LOST => if delivered then Target(0, 0) else Target(-1, 0)
    case MISSING => if delivered then Target(0, 0) else Target(-1, 0)
  }

  function AddShare(ts: map<ItemId, Target>, s: ItemShare, effect: Target): map<ItemId, Target> {
    var t := if s.item in ts then ts[s.item] else Target(0, 0);
    ts[s.item := Target(t.onHand + effect.onHand * s.quantity, t.damaged + effect.damaged * s.quantity)]
  }

  function AddShares(ts: map<ItemId, Target>, shares: seq<ItemShare>, effect: Target): map<ItemId, Target> {
    if shares == [] then ts
    else AddShare(AddShares(ts, shares[..|shares| - 1], effect), shares[|shares| - 1], effect)
  }

  function TargetsOf(entries: seq<Entry>, delivered: bool): map<ItemId, Target> {
    if entries == [] then map[]
    else
      var e := entries[|entries| - 1];
      AddShares(TargetsOf(entries[..|entries| - 1], delivered), e.units, Effect(e.request.condition, delivered))
  }

  function ItemsOf(entries: seq<Entry>): set<ItemId> { set e, s | e in entries && s in e.units :: s.item }

  /** Items of the replaced snapshot go back to nothing. */
  function WithOldItems(ts: map<ItemId, Target>, earlier: seq<Entry>): map<ItemId, Target> {
    (map i | i in ItemsOf(earlier) :: Target(0, 0)) + ts
  }

  method CollectTargets(entries: seq<Entry>, earlier: seq<Entry>, delivered: bool) returns (ts: map<ItemId, Target>)
    ensures ts == WithOldItems(TargetsOf(entries, delivered), earlier)
  {
    ts := map[];
    for j := 0 to |entries|
      invariant ts == TargetsOf(entries[..j], delivered)
    {
      assert entries[..j + 1][..j] == entries[..j];
      var units, effect, before := entries[j].units, Effect(entries[j].request.condition, delivered), ts;
      for k := 0 to |units|
        invariant ts == AddShares(before, units[..k], effect)
      {
        assert units[..k + 1][..k] == units[..k];
        ts := AddShare(ts, units[k], effect);
      }
      assert units[..|units|] == units;
    }
    assert entries[..|entries|] == entries;
    ts := KeepOldItems(ts, earlier);
  }

  method KeepOldItems(targets: map<ItemId, Target>, earlier: seq<Entry>) returns (ts: map<ItemId, Target>)
    ensures ts == WithOldItems(targets, earlier)
  {
    hide ItemsOf, ShareItems;
    ts := targets;
    NoItems();
    for j := 0 to |earlier|
      invariant ts.Keys == targets.Keys + ItemsOf(earlier[..j])
      invariant forall i :: i in ts ==> ts[i] == if i in targets then targets[i] else Target(0, 0)
    {
      ItemsNext(earlier, j);
      ts := KeepShares(targets, ts, earlier[j].units);
    }
    assert earlier[..|earlier|] == earlier;
  }

  method KeepShares(targets: map<ItemId, Target>, before: map<ItemId, Target>, units: seq<ItemShare>)
      returns (ts: map<ItemId, Target>)
    requires targets.Keys <= before.Keys
    requires forall i :: i in before ==> before[i] == if i in targets then targets[i] else Target(0, 0)
    ensures ts.Keys == before.Keys + ShareItems(units)
    ensures forall i :: i in ts ==> ts[i] == if i in targets then targets[i] else Target(0, 0)
  {
    ts := before;
    for k := 0 to |units|
      invariant ts.Keys == before.Keys + ShareItems(units[..k])
      invariant forall i :: i in ts ==> ts[i] == if i in targets then targets[i] else Target(0, 0)
    {
      assert units[..k + 1] == units[..k] + [units[k]];
      if units[k].item !in ts {
        ts := ts[units[k].item := Target(0, 0)];
      }
    }
    assert units[..|units|] == units;
  }

  lemma NoItems()
    ensures ItemsOf([]) == {}
  {
  }

  function ShareItems(shares: seq<ItemShare>): set<ItemId> { set s | s in shares :: s.item }

  lemma ItemsNext(entries: seq<Entry>, j: nat)
    requires j < |entries|
    ensures ItemsOf(entries[..j + 1]) == ItemsOf(entries[..j]) + ShareItems(entries[j].units)
  {
    var all, before := entries[..j + 1], entries[..j];
    assert all == before + [entries[j]];
    assert entries[j] in all;
    forall i | i in ItemsOf(before) ensures i in ItemsOf(all) {
      var e, s :| e in before && s in e.units && s.item == i;
      assert e in all;
    }
  }

  // ---- Counting pieces of an item ----

  datatype Fate = Restocked | Spoilt | Gone

  function FateOf(c: ProductCondition): Fate {
    match c
    case GOOD => Restocked
    case RETURNED => Restocked
    case DAMAGED => Spoilt
    case LOST => Gone
    case MISSING => Gone
  }

  function ShareCount(shares: seq<ItemShare>, i: ItemId): int {
    if shares == [] then 0
    else
      ShareCount(shares[..|shares| - 1], i) +
      (if shares[|shares| - 1].item == i then shares[|shares| - 1].quantity else 0)
  }

  function Count(entries: seq<Entry>, i: ItemId, fate: Fate): int {
    if entries == [] then 0
    else
      var e := entries[|entries| - 1];
      Count(entries[..|entries| - 1], i, fate) +
      (if FateOf(e.request.condition) == fate then ShareCount(e.units, i) else 0)
  }

  function AtItem(ts: map<ItemId, Target>, i: ItemId): Target { if i in ts then ts[i] else Target(0, 0) }

  lemma {:induction false} SharesAtItem(ts: map<ItemId, Target>, shares: seq<ItemShare>, effect: Target, i: ItemId)
    ensures AtItem(AddShares(ts, shares, effect), i) ==
            Target(AtItem(ts, i).onHand + effect.onHand * ShareCount(shares, i),
                   AtItem(ts, i).damaged + effect.damaged * ShareCount(shares, i))
    ensures i in AddShares(ts, shares, effect) <==> i in ts || exists s :: s in shares && s.item == i
  {
    if shares != [] {
      var rest, s := shares[..|shares| - 1], shares[|shares| - 1];
      assert shares == rest + [s];
      SharesAtItem(ts, rest, effect, i);
      DistributeInt(ShareCount(rest, i), s.quantity, effect.onHand);
      DistributeInt(ShareCount(rest, i), s.quantity, effect.damaged);
    }
  }

  /** The target of an item is the one that its good, damaged and lost pieces call for. */
  lemma {:induction false} TargetCounts(entries: seq<Entry>, i: ItemId, delivered: bool)
    ensures AtItem(TargetsOf(entries, delivered), i) ==
            if delivered
            then Target(Count(entries, i, Restocked) + Count(entries, i, Spoilt), Count(entries, i, Spoilt))
            else Target(-Count(entries, i, Gone), Count(entries, i, Spoilt))
  {
    if entries != [] {
      var e := entries[|entries| - 1];
      TargetCounts(entries[..|entries| - 1], i, delivered);
      SharesAtItem(TargetsOf(entries[..|entries| - 1], delivered), e.units, Effect(e.request.condition, delivered), i);
    }
  }

  /** The pieces of an item in rows of these conditions. */
  function PiecesIn(entries: seq<Entry>, i: ItemId, conditions: set<ProductCondition>): int {
    if entries == [] then 0
    else
      var e := entries[|entries| - 1];
      PiecesIn(entries[..|entries| - 1], i, conditions) +
      (if e.request.condition in conditions then ShareCount(e.units, i) else 0)
  }

  /** A delivered line takes back what is good, returned or damaged, and the damaged pieces stay damaged; an undelivered
      one writes off what is lost or missing, and what is damaged stays damaged. */
  lemma {:induction false} TargetByCondition(entries: seq<Entry>, i: ItemId, delivered: bool)
    ensures AtItem(TargetsOf(entries, delivered), i) ==
            Target(if delivered then PiecesIn(entries, i, {GOOD, RETURNED, DAMAGED})
                   else -PiecesIn(entries, i, {LOST, MISSING}),
                   PiecesIn(entries, i, {DAMAGED}))
    ensures Count(entries, i, Restocked) == PiecesIn(entries, i, {GOOD, RETURNED})
    ensures Count(entries, i, Spoilt) == PiecesIn(entries, i, {DAMAGED})
    ensures Count(entries, i, Gone) == PiecesIn(entries, i, {LOST, MISSING})
  {
    if entries != [] {
      var e := entries[|entries| - 1];
      TargetByCondition(entries[..|entries| - 1], i, delivered);
      SharesAtItem(TargetsOf(entries[..|entries| - 1], delivered), e.units, Effect(e.request.condition, delivered), i);
    }
  }

  function ItemCount(entries: seq<Entry>, i: ItemId): int {
    Count(entries, i, Restocked) + Count(entries, i, Spoilt) + Count(entries, i, Gone)
  }

  // ---- A complete allocation accounts for every piece of every item ----

  function RowsCount(line: SoldLine, rows: seq<Allocation>, i: ItemId): int {
    if rows == [] then 0
    else RowsCount(line, rows[..|rows| - 1], i) + ShareCount(SharesOf(line, rows[|rows| - 1]), i)
  }

  lemma {:induction false} CountAppend(entries: seq<Entry>, more: seq<Entry>, i: ItemId, fate: Fate)
    ensures Count(entries + more, i, fate) == Count(entries, i, fate) + Count(more, i, fate)
  {
    if more == [] {
      assert entries + more == entries;
    } else {
      var n := |more| - 1;
      CountAppend(entries, more[..n], i, fate);
      assert (entries + more)[..|entries| + n] == entries + more[..n];
    }
  }

  lemma CountOne(e: Entry, i: ItemId, fate: Fate)
    ensures Count([e], i, fate) == if FateOf(e.request.condition) == fate then ShareCount(e.units, i) else 0
  {
    assert [e][..0] == [];
  }

  lemma {:induction false} InsertCounts(sorted: seq<Entry>, e: Entry, i: ItemId, fate: Fate)
    ensures Count(Insert(sorted, e), i, fate) ==
            Count(sorted, i, fate) + if FateOf(e.request.condition) == fate then ShareCount(e.units, i) else 0
  {
    CountOne(e, i, fate);
    if sorted == [] || Before(e.request, sorted[0].request) {
      CountAppend([e], sorted, i, fate);
    } else {
      InsertCounts(sorted[1..], e, i, fate);
      CountAppend([sorted[0]], Insert(sorted[1..], e), i, fate);
      CountAppend([sorted[0]], sorted[1..], i, fate);
      assert sorted == [sorted[0]] + sorted[1..];
    }
  }

  lemma {:induction false} EntriesCount(line: SoldLine, rows: seq<Allocation>, i: ItemId)
    requires Sellable(line) && line.quantity > 0 && forall a :: a in rows ==> RowSound(line, a)
    ensures ItemCount(EntriesOf(line, rows), i) == RowsCount(line, rows, i)
  {
    if rows != [] {
      var rest, a := rows[..|rows| - 1], rows[|rows| - 1];
      assert forall r :: r in rest ==> r in rows;
      EntriesCount(line, rest, i);
      forall fate ensures Count(EntriesOf(line, rows), i, fate) == Count(EntriesOf(line, rest), i, fate) +
                          if FateOf(a.condition) == fate then ShareCount(SharesOf(line, a), i) else 0 {
        InsertCounts(EntriesOf(line, rest), EntryOf(line, a), i, fate);
      }
    }
  }

  lemma {:induction false} PerPieceFront(cs: seq<Component>, i: ItemId)
    requires cs != []
    ensures PerPiece(cs, i) ==
            PerPiece(cs[1..], i) + (if cs[0].item == Some(i) then Max(cs[0].quantity, 0) else 0)
  {
    if |cs| > 1 {
      var n := |cs| - 1;
      PerPieceFront(cs[..n], i);
      assert cs[..n][1..] == cs[1..][..n - 1] && cs[1..][n - 1] == cs[n];
    } else {
      assert cs[..0] == [] && cs[1..] == [];
    }
  }

  lemma {:induction false} PackSharesCount(cs: seq<Component>, quantity: int, i: ItemId)
    requires forall c :: c in cs ==> c.quantity > 0
    ensures ShareCount(PackShares(cs, quantity), i) == PerPiece(cs, i) * quantity
  {
    if cs != [] {
      assert cs[0] in cs;
      PackSharesCount(cs[1..], quantity, i);
      PerPieceFront(cs, i);
      var head := if cs[0].item.Some? then [ItemShare(cs[0].item.value, cs[0].quantity * quantity)] else [];
      ShareCountAppend(head, PackShares(cs[1..], quantity), i);
      assert head != [] ==> head[..0] == [];
      DistributeInt(PerPiece(cs[1..], i), if cs[0].item == Some(i) then cs[0].quantity else 0, quantity);
    }
  }

  lemma {:induction false} ShareCountAppend(shares: seq<ItemShare>, more: seq<ItemShare>, i: ItemId)
    ensures ShareCount(shares + more, i) == ShareCount(shares, i) + ShareCount(more, i)
  {
    if more == [] {
      assert shares + more == shares;
    } else {
      var n := |more| - 1;
      ShareCountAppend(shares, more[..n], i);
      assert (shares + more)[..|shares| + n] == shares + more[..n];
    }
  }

  lemma {:induction false} PackWeightOfItem(cs: seq<Component>, quantity: int, rate: real, i: ItemId)
    requires forall c :: c in cs ==> c.quantity > 0
    ensures PackWeight(cs, quantity, OfItem(i), rate) == (PerPiece(cs, i) * quantity) as real
  {
    if cs != [] {
      assert cs[0] in cs;
      PackWeightOfItem(cs[1..], quantity, rate, i);
      PerPieceFront(cs, i);
      DistributeInt(PerPiece(cs[1..], i), if cs[0].item == Some(i) then cs[0].quantity else 0, quantity);
    }
  }

  lemma OneShare(s: ItemShare, i: ItemId)
    ensures ShareCount([s], i) == if s.item == i then s.quantity else 0
  {
    assert [s][..0] == [];
  }

  lemma RowItemCount(line: SoldLine, a: Allocation, i: ItemId)
    requires Sellable(line) && RowSound(line, a) && line.variant.Some?
    ensures a.component.Some? ==> ShareCount(SharesOf(line, a), i) as real == RowWeight(line, a, OfItem(i))
    ensures a.component == None ==>
              ShareCount(SharesOf(line, a), i) ==
              (if Components(line) == [] && line.variant.value.physical.bundle then
                 (if line.variant.value.physical.item == Some(i) then 1 else 0)
               else Contains(line.variant.value.physical, i)) * Asked(line, a)
  {
    var cs, quantity := Components(line), Asked(line, a);
    if a.component.Some? {
      var c := FindComponent(cs, a.component.value).value;
      if c.item.Some? {
        OneShare(ItemShare(c.item.value, quantity), i);
      }
    } else if cs != [] {
      PackSharesCount(cs, quantity, i);
    } else if line.variant.value.physical.item.Some? {
      OneShare(ItemShare(line.variant.value.physical.item.value, quantity), i);
    }
  }

  lemma {:induction false} RowsItemCount(line: SoldLine, rows: seq<Allocation>, i: ItemId)
    requires Sellable(line) && line.variant.Some? && forall a :: a in rows ==> RowSound(line, a)
    requires line.variant.value.physical.bundle ==> Components(line) != []
    ensures (forall a :: a in rows ==> a.component.Some?) ==>
              RowsCount(line, rows, i) as real == RowsWeight(line, rows, OfItem(i))
    ensures (forall a :: a in rows ==> a.component == None) ==>
              RowsCount(line, rows, i) == Contains(line.variant.value.physical, i) * Allocated(line, rows, None)
  {
    hide RowSound, SharesOf, RowWeight, Contains, Asked, Components;
    if rows != [] {
      var rest, a := rows[..|rows| - 1], rows[|rows| - 1];
      assert a in rows && forall r :: r in rest ==> r in rows;
      RowsItemCount(line, rest, i);
      RowItemCount(line, a, i);
      DistributeInt(Allocated(line, rest, None), Asked(line, a), Contains(line.variant.value.physical, i));
    }
  }

  /** A complete allocation accounts for exactly the pieces that delivering the line takes out of stock, item by item,
      for any product whose pack is not empty. */
  lemma EveryPieceAccounted(line: SoldLine, rows: seq<Allocation>, i: ItemId)
    requires Sellable(line) && line.quantity > 0 && rows != [] && Accepted(line, rows) && Completed(line, rows)
    requires line.variant.Some? && (line.variant.value.physical.bundle ==> Components(line) != [])
    ensures ItemCount(EntriesOf(line, rows), i) == Contains(line.variant.value.physical, i) * line.quantity
  {
    hide RowsWeight, PackWeight, AllocatedWeight, RowSound, ComponentsCovered, Allocated, RowsCount;
    EntriesCount(line, rows, i);
    RowsItemCount(line, rows, i);
    if ComponentMode(rows) {
      WeightByComponent(line, rows, OfItem(i));
      CoveredWeight(line, Components(line), rows, OfItem(i));
      PackWeightOfItem(Components(line), line.quantity, line.rate, i);
    }
  }

  lemma {:induction false} SharesAreCounts(cs: seq<Component>, quantity: int)
    requires quantity > 0 && forall c :: c in cs ==> c.quantity > 0
    ensures forall s :: s in PackShares(cs, quantity) ==> s.quantity > 0
  {
    if cs != [] {
      assert cs[0] in cs && cs[0].quantity * quantity > 0;
      SharesAreCounts(cs[1..], quantity);
    }
  }

  lemma {:induction false} PositiveShares(shares: seq<ItemShare>, i: ItemId)
    requires forall s :: s in shares ==> s.quantity > 0
    ensures ShareCount(shares, i) >= 0
  {
    if shares != [] {
      assert shares[|shares| - 1] in shares;
      PositiveShares(shares[..|shares| - 1], i);
    }
  }

  lemma RowCountsUp(line: SoldLine, a: Allocation, i: ItemId)
    requires Sellable(line) && RowSound(line, a)
    ensures ShareCount(SharesOf(line, a), i) >= 0
  {
    if a.component == None && Components(line) != [] {
      SharesAreCounts(Components(line), Asked(line, a));
    }
    PositiveShares(SharesOf(line, a), i);
  }

  lemma {:induction false} CountsAreCounts(line: SoldLine, rows: seq<Allocation>, i: ItemId, fate: Fate)
    requires Sellable(line) && line.quantity > 0 && forall a :: a in rows ==> RowSound(line, a)
    ensures Count(EntriesOf(line, rows), i, fate) >= 0
  {
    if rows != [] {
      var rest, a := rows[..|rows| - 1], rows[|rows| - 1];
      assert a in rows && forall r :: r in rest ==> r in rows;
      CountsAreCounts(line, rest, i, fate);
      InsertCounts(EntriesOf(line, rest), EntryOf(line, a), i, fate);
      RowCountsUp(line, a, i);
    }
  }

  /** The targets of a complete allocation, item by item. */
  lemma CompleteTarget(line: SoldLine, rows: seq<Allocation>, i: ItemId, delivered: bool)
    requires Sellable(line) && line.quantity > 0 && rows != [] && Accepted(line, rows) && Completed(line, rows)
    requires line.variant.Some? && (line.variant.value.physical.bundle ==> Components(line) != [])
    ensures var entries := EntriesOf(line, rows);
            var good, damaged, lost := Count(entries, i, Restocked), Count(entries, i, Spoilt), Count(entries, i, Gone);
            && good >= 0 && damaged >= 0 && lost >= 0
            && good + damaged + lost == Contains(line.variant.value.physical, i) * line.quantity
            && AtItem(TargetsOf(entries, delivered), i) == ReturnTarget(delivered, good, damaged, lost)
  {
    EveryPieceAccounted(line, rows, i);
    TargetCounts(EntriesOf(line, rows), i, delivered);
    CountsAreCounts(line, rows, i, Restocked);
    CountsAreCounts(line, rows, i, Spoilt);
    CountsAreCounts(line, rows, i, Gone);
  }
}
