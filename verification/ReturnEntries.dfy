/** The entries stored for an accepted submission, in a canonical order that makes retries recognizable. */
module ReturnEntries {
  import opened Basics
  import opened Catalogue
  import opened ReturnConditions

  /** The fields of an entry that the submitter chose. */
  datatype Request = Request(component: Option<VariantId>, quantity: int, condition: ProductCondition,
                             damageCost: Option<int>)

  datatype ItemShare = ItemShare(item: ItemId, quantity: int)

  datatype Entry = Entry(request: Request, unitCost: int, saleValue: int, physicalQuantity: int, units: seq<ItemShare>)

  /** Rounds to ten-thousandths, halves away from zero. */
  function Round4(x: real): int {
    if x >= 0.0 then (x * 10000.0 + 0.5).Floor else -(-x * 10000.0 + 0.5).Floor
  }

  lemma RoundsClosely(x: real)
    ensures -0.5 <= Round4(x) as real - x * 10000.0 <= 0.5
  {
  }

  /** What the catalogue guarantees of every product. */
  ghost predicate Sellable(line: SoldLine) {
    var cs := Components(line);
    && line.rate > 0.0
    && (forall c :: c in cs ==> c.quantity > 0 && c.cost >= 0.0)
    && forall j, k :: 0 <= j < k < |cs| ==> cs[j].variant != cs[k].variant
  }

  // ---- Splitting the price of a line ----

  /** Ways to weigh the components of a pack. */
  datatype Measure = ByCost | ByPieces | OfItem(item: ItemId)

  function Weight(c: Component, m: Measure, rate: real): real {
    match m
    case ByCost => c.cost * rate
    case ByPieces => 1.0
    case OfItem(i) => if c.item == Some(i) then 1.0 else 0.0
  }

  function PackWeight(cs: seq<Component>, quantity: int, m: Measure, rate: real): real {
    if cs == [] then 0.0
    else PackWeight(cs[1..], quantity, m, rate) + Weight(cs[0], m, rate) * (cs[0].quantity * quantity) as real
  }

  lemma {:induction false} PackHasPieces(cs: seq<Component>, quantity: int, rate: real)
    requires quantity > 0 && forall c :: c in cs ==> c.quantity > 0
    ensures PackWeight(cs, quantity, ByPieces, rate) >= 0.0
    ensures cs != [] ==> PackWeight(cs, quantity, ByPieces, rate) > 0.0
  {
    if cs != [] {
      PackHasPieces(cs[1..], quantity, rate);
      assert cs[0] in cs && cs[0].quantity * quantity > 0;
    }
  }

  /** By purchase cost; by number of pieces when no cost is known. */
  predicate SplitByCost(line: SoldLine) { PackWeight(Components(line), line.quantity, ByCost, line.rate) > 0.0 }

  /** The row's exact part of the line's price. */
  function SaleShare(line: SoldLine, a: Allocation): real
    requires Sellable(line) && RowSound(line, a) && line.quantity > 0
  {
    var cs, quantity := Components(line), Asked(line, a) as real;
    match a.component
    case None => line.totalPrice * quantity / line.quantity as real
    case Some(v) =>
      var c := FindComponent(cs, v).value;
      if SplitByCost(line) then
        line.totalPrice * (c.cost * line.rate) * quantity / PackWeight(cs, line.quantity, ByCost, line.rate)
      else
        PackHasPieces(cs, line.quantity, line.rate);
        line.totalPrice * quantity / PackWeight(cs, line.quantity, ByPieces, line.rate)
  }

  // ---- Entries ----

  function RequestOf(line: SoldLine, a: Allocation): Request {
    Request(a.component, Asked(line, a), a.condition,
            if a.condition.DAMAGED? && a.damageCost.Some? then Some(Round4(a.damageCost.value)) else None)
  }

  function PackPieces(cs: seq<Component>): int {
    if cs == [] then 0 else cs[0].quantity + PackPieces(cs[1..])
  }

  function PackShares(cs: seq<Component>, quantity: int): seq<ItemShare> {
    if cs == [] then []
    else
      (if cs[0].item.Some? then [ItemShare(cs[0].item.value, cs[0].quantity * quantity)] else []) +
      PackShares(cs[1..], quantity)
  }

  /** The stock a row is about. */
  function SharesOf(line: SoldLine, a: Allocation): seq<ItemShare> {
    var cs, quantity := Components(line), Asked(line, a);
    match a.component
    case Some(v) =>
      var c := FindComponent(cs, v);
      if c.Some? && c.value.item.Some? then [ItemShare(c.value.item.value, quantity)] else []
    case None =>
      if cs != [] then PackShares(cs, quantity)
      else if line.variant.Some? && line.variant.value.physical.item.Some?
      then [ItemShare(line.variant.value.physical.item.value, quantity)]
      else []
  }

  function UnitCost(line: SoldLine, a: Allocation): real {
    var c := if a.component.Some? then FindComponent(Components(line), a.component.value) else None;
    if c.Some? then c.value.cost * line.rate
    else if line.variant.Some? then line.variant.value.cost * line.rate
    else 0.0
  }

  function EntryOf(line: SoldLine, a: Allocation): Entry
    requires Sellable(line) && RowSound(line, a) && line.quantity > 0
  {
    var cs, quantity := Components(line), Asked(line, a);
    Entry(RequestOf(line, a), Round4(UnitCost(line, a)), Round4(SaleShare(line, a)),
          if a.component == None && cs != [] then PackPieces(cs) * quantity else quantity, SharesOf(line, a))
  }

  // ---- The canonical order ----

  predicate Before(a: Request, b: Request) {
    if a.component == b.component then a.condition.Rank() < b.condition.Rank()
    else a.component == None || (b.component.Some? && a.component.value < b.component.value)
  }

  predicate SameKey(a: Request, b: Request) { a.component == b.component && a.condition == b.condition }

  function Insert(sorted: seq<Entry>, e: Entry): seq<Entry> {
    if sorted == [] || Before(e.request, sorted[0].request) then [e] + sorted
    else [sorted[0]] + Insert(sorted[1..], e)
  }

  function EntriesOf(line: SoldLine, rows: seq<Allocation>): seq<Entry>
    requires Sellable(line) && line.quantity > 0 && forall a :: a in rows ==> RowSound(line, a)
  {
    if rows == [] then []
    else
      var n := |rows| - 1;
      assert forall a :: a in rows[..n] ==> a in rows;
      Insert(EntriesOf(line, rows[..n]), EntryOf(line, rows[n]))
  }

  function Requests(entries: seq<Entry>): seq<Request> {
    if entries == [] then [] else [entries[0].request] + Requests(entries[1..])
  }

  function AskedFor(line: SoldLine, rows: seq<Allocation>): seq<Request> {
    if rows == [] then [] else AskedFor(line, rows[..|rows| - 1]) + [RequestOf(line, rows[|rows| - 1])]
  }

  /** Strictly ascending. */
  ghost predicate Ascending(rs: seq<Request>) { forall j, k :: 0 <= j < k < |rs| ==> Before(rs[j], rs[k]) }

  ghost predicate FreshKey(rs: seq<Request>, r: Request) { forall s :: s in rs ==> !SameKey(s, r) }

  lemma Prepended(r: Request, rest: seq<Request>)
    requires Ascending(rest) && forall s :: s in rest ==> Before(r, s)
    ensures Ascending([r] + rest)
  {
    var all := [r] + rest;
    forall j, k | 0 <= j < k < |all| ensures Before(all[j], all[k]) {
      assert all[k] == rest[k - 1] && all[k] in rest;
      assert j > 0 ==> all[j] == rest[j - 1];
    }
  }

  lemma AscendingTail(rs: seq<Request>)
    requires rs != [] && Ascending(rs)
    ensures Ascending(rs[1..]) && forall s :: s in rs[1..] ==> Before(rs[0], s)
  {
    forall s | s in rs[1..] ensures Before(rs[0], s) {
      var k :| 0 <= k < |rs| - 1 && rs[1..][k] == s;
      assert rs[k + 1] == s;
    }
  }

  lemma RequestsPrepended(e: Entry, rest: seq<Entry>)
    ensures Requests([e] + rest) == [e.request] + Requests(rest)
  {
    assert ([e] + rest)[1..] == rest;
  }

  lemma {:induction false} InsertAdds(sorted: seq<Entry>, e: Entry)
    ensures multiset(Requests(Insert(sorted, e))) == multiset(Requests(sorted)) + multiset{e.request}
  {
    if sorted == [] || Before(e.request, sorted[0].request) {
      RequestsPrepended(e, sorted);
    } else {
      InsertAdds(sorted[1..], e);
      RequestsPrepended(sorted[0], Insert(sorted[1..], e));
    }
  }

  lemma {:induction false} InsertFirst(sorted: seq<Entry>, e: Entry)
    requires Ascending(Requests(sorted)) && sorted != [] && Before(e.request, sorted[0].request)
    ensures Ascending(Requests([e] + sorted))
  {
    hide Ascending;
    AscendingTail(Requests(sorted));
    RequestsPrepended(sorted[0], sorted[1..]);
    assert sorted == [sorted[0]] + sorted[1..];
    RequestsPrepended(e, sorted);
    Prepended(e.request, Requests(sorted));
  }

  lemma {:induction false} InsertLater(first: Entry, rest: seq<Entry>, e: Entry)
    requires Ascending(Requests([first] + rest)) && Ascending(Requests(Insert(rest, e)))
    requires Before(first.request, e.request)
    ensures Ascending(Requests([first] + Insert(rest, e)))
  {
    hide Ascending, Insert;
    RequestsPrepended(first, rest);
    AscendingTail(Requests([first] + rest));
    var inserted := Requests(Insert(rest, e));
    InsertAdds(rest, e);
    forall s | s in inserted ensures Before(first.request, s) {
      assert s in multiset(inserted);
      assert s in Requests(rest) || s == e.request;
    }
    Prepended(first.request, inserted);
    RequestsPrepended(first, Insert(rest, e));
  }

  lemma {:induction false} InsertKeepsOrder(sorted: seq<Entry>, e: Entry)
    requires Ascending(Requests(sorted)) && FreshKey(Requests(sorted), e.request)
    ensures Ascending(Requests(Insert(sorted, e)))
  {
    hide Ascending, Before;
    if sorted == [] {
      RequestsPrepended(e, []);
      Prepended(e.request, []);
      return;
    }
    var first, rest := sorted[0], sorted[1..];
    assert sorted == [first] + rest;
    RequestsPrepended(first, rest);
    if Before(e.request, first.request) {
      InsertFirst(sorted, e);
    } else {
      FreshIsLater(Requests(sorted), e.request);
      AscendingTail(Requests(sorted));
      FreshTail(Requests(sorted), e.request);
      InsertKeepsOrder(rest, e);
      InsertLater(first, rest, e);
    }
  }

  lemma FreshIsLater(rs: seq<Request>, r: Request)
    requires rs != [] && FreshKey(rs, r) && !Before(r, rs[0])
    ensures Before(rs[0], r)
  {
    assert rs[0] in rs;
  }

  lemma FreshTail(rs: seq<Request>, r: Request)
    requires rs != [] && FreshKey(rs, r)
    ensures FreshKey(rs[1..], r)
  {
    assert forall s :: s in rs[1..] ==> s in rs;
  }

  lemma {:induction false} AskedFresh(line: SoldLine, rows: seq<Allocation>, a: Allocation)
    requires forall r :: r in rows ==> !SameIdentity(r, a)
    ensures FreshKey(AskedFor(line, rows), RequestOf(line, a))
  {
    if rows != [] {
      assert rows == rows[..|rows| - 1] + [rows[|rows| - 1]];
      assert rows[|rows| - 1] in rows;
      AskedFresh(line, rows[..|rows| - 1], a);
    }
  }

  /** The stored entries hold exactly what was asked for, in strictly ascending order. */
  lemma {:induction false} EntriesAreCanonical(line: SoldLine, rows: seq<Allocation>)
    requires Sellable(line) && line.quantity > 0 && RowsAccepted(line, rows)
    ensures var entries := EntriesOf(line, rows);
            && Ascending(Requests(entries))
            && multiset(Requests(entries)) == multiset(AskedFor(line, rows))
  {
    if rows != [] {
      var rest, a := rows[..|rows| - 1], rows[|rows| - 1];
      assert rest + [a] == rows;
      RowsAcceptedNext(line, rest, a);
      EntriesAreCanonical(line, rest);
      AskedFresh(line, rest, a);
      var asked, sorted := AskedFor(line, rest), Requests(EntriesOf(line, rest));
      forall s | s in sorted ensures s in asked {
        assert s in multiset(sorted);
      }
      InsertKeepsOrder(EntriesOf(line, rest), EntryOf(line, a));
      InsertAdds(EntriesOf(line, rest), EntryOf(line, a));
    }
  }

  lemma LeastFirst(a: seq<Request>, b: seq<Request>)
    requires a != [] && b != [] && Ascending(a) && Ascending(b) && multiset(a) == multiset(b)
    ensures a[0] == b[0]
  {
    assert a[0] in multiset(b) && b[0] in multiset(a);
    AscendingTail(a);
    AscendingTail(b);
    assert a == [a[0]] + a[1..] && b == [b[0]] + b[1..];
  }

  /** An ascending list is determined by its members. */
  lemma {:induction false} AscendingIsUnique(a: seq<Request>, b: seq<Request>)
    requires Ascending(a) && Ascending(b) && multiset(a) == multiset(b)
    ensures a == b
  {
    hide Ascending;
    SameSize(a, b);
    if a != [] {
      LeastFirst(a, b);
      SameTails(a, b);
      AscendingTail(a);
      AscendingTail(b);
      AscendingIsUnique(a[1..], b[1..]);
    }
  }

  /** Two accepted submissions ask for the same, in whatever order, exactly when their entries carry the same requests
      in the same order: the comparison that recognizes a retry. Costs may have changed in between. */
  lemma RetryIsRecognized(before: SoldLine, saved: seq<Allocation>, now: SoldLine, rows: seq<Allocation>)
    requires Sellable(before) && before.quantity > 0 && RowsAccepted(before, saved)
    requires Sellable(now) && now.quantity > 0 && RowsAccepted(now, rows)
    ensures Requests(EntriesOf(before, saved)) == Requests(EntriesOf(now, rows)) <==>
            multiset(AskedFor(before, saved)) == multiset(AskedFor(now, rows))
  {
    EntriesAreCanonical(before, saved);
    EntriesAreCanonical(now, rows);
    if multiset(AskedFor(before, saved)) == multiset(AskedFor(now, rows)) {
      AscendingIsUnique(Requests(EntriesOf(before, saved)), Requests(EntriesOf(now, rows)));
    }
  }

  // ---- Acceptance does not depend on the order of rows ----

  function Without(rows: seq<Allocation>, k: nat): (r: seq<Allocation>)
    requires k < |rows|
    ensures multiset(r) == multiset(rows) - multiset{rows[k]}
  {
    assert rows == rows[..k] + [rows[k]] + rows[k + 1..];
    rows[..k] + rows[k + 1..]
  }

  lemma {:induction false} AllocatedSplit(line: SoldLine, a: seq<Allocation>, b: seq<Allocation>,
                                          key: Option<VariantId>)
    ensures Allocated(line, a + b, key) == Allocated(line, a, key) + Allocated(line, b, key)
  {
    if b == [] {
      assert a + b == a;
    } else {
      var n := |b| - 1;
      AllocatedSplit(line, a, b[..n], key);
      assert (a + b)[..|a + b| - 1] == a + b[..n] && (a + b)[|a + b| - 1] == b[n];
    }
  }

  lemma AllocatedWithout(line: SoldLine, rows: seq<Allocation>, k: nat, key: Option<VariantId>)
    requires k < |rows|
    ensures Allocated(line, rows, key) ==
            Allocated(line, Without(rows, k), key) + (if rows[k].component == key then Asked(line, rows[k]) else 0)
  {
    hide Asked;
    AllocatedSplit(line, rows[..k], rows[k + 1..], key);
    AllocatedSplit(line, rows[..k], [rows[k]] + rows[k + 1..], key);
    AllocatedSplit(line, [rows[k]], rows[k + 1..], key);
    assert rows == rows[..k] + ([rows[k]] + rows[k + 1..]);
    assert [rows[k]][..0] == [];
  }

  lemma {:induction false} AllocatedPermuted(line: SoldLine, a: seq<Allocation>, b: seq<Allocation>,
                                             key: Option<VariantId>)
    requires multiset(a) == multiset(b)
    ensures Allocated(line, a, key) == Allocated(line, b, key)
    decreases |a|
  {
    assert |a| == |multiset(a)| == |multiset(b)| == |b|;
    if a != [] {
      assert a[0] in multiset(b);
      var k :| 0 <= k < |b| && b[k] == a[0];
      AllocatedWithout(line, a, 0, key);
      AllocatedWithout(line, b, k, key);
      AllocatedPermuted(line, Without(a, 0), Without(b, k), key);
    }
  }

  function Identities(rows: seq<Allocation>): set<(Option<VariantId>, ProductCondition)> {
    set a | a in rows :: (a.component, a.condition)
  }

  /** As many identities as rows means that none repeats. */
  lemma {:induction false} IdentityCount(rows: seq<Allocation>)
    ensures |Identities(rows)| <= |rows|
    ensures NoRepeats(rows) <==> |Identities(rows)| == |rows|
  {
    if rows != [] {
      var rest, a := rows[..|rows| - 1], rows[|rows| - 1];
      assert rows == rest + [a];
      IdentityCount(rest);
      RepeatsNext(rest, a);
      assert Identities(rows) == Identities(rest) + {(a.component, a.condition)};
      assert (a.component, a.condition) in Identities(rest) <==> Repeats(rest, a);
    }
  }

  /** Acceptance does not depend on the order of the rows. */
  lemma PermutationIsAccepted(line: SoldLine, a: seq<Allocation>, b: seq<Allocation>)
    requires multiset(a) == multiset(b)
    ensures Check(line, a) == None <==> Check(line, b) == None
  {
    AcceptedExactly(line, a);
    AcceptedExactly(line, b);
    IdentityCount(a);
    IdentityCount(b);
    SameRows(a, b);
    assert Identities(a) == Identities(b);
    forall key ensures Allocated(line, a, key) == Allocated(line, b, key) {
      AllocatedPermuted(line, a, b, key);
    }
  }

  lemma SameRows(a: seq<Allocation>, b: seq<Allocation>)
    requires multiset(a) == multiset(b)
    ensures |a| == |b| && forall r :: r in a <==> r in b
  {
    assert |a| == |multiset(a)| == |multiset(b)| == |b|;
    assert forall r :: r in a <==> r in multiset(a);
    assert forall r :: r in b <==> r in multiset(b);
  }

  lemma {:induction false} AskedPermuted(line: SoldLine, a: seq<Allocation>, b: seq<Allocation>)
    requires multiset(a) == multiset(b)
    ensures multiset(AskedFor(line, a)) == multiset(AskedFor(line, b))
    decreases |a|
  {
    SameRows(a, b);
    if a != [] {
      assert a[0] in multiset(b);
      var k :| 0 <= k < |b| && b[k] == a[0];
      AskedWithout(line, a, 0);
      AskedWithout(line, b, k);
      AskedPermuted(line, Without(a, 0), Without(b, k));
    }
  }

  lemma {:induction false} AskedSplit(line: SoldLine, a: seq<Allocation>, b: seq<Allocation>)
    ensures AskedFor(line, a + b) == AskedFor(line, a) + AskedFor(line, b)
  {
    if b == [] {
      assert a + b == a;
    } else {
      var n := |b| - 1;
      AskedSplit(line, a, b[..n]);
      assert (a + b)[..|a + b| - 1] == a + b[..n] && (a + b)[|a + b| - 1] == b[n];
    }
  }

  lemma AskedWithout(line: SoldLine, rows: seq<Allocation>, k: nat)
    requires k < |rows|
    ensures multiset(AskedFor(line, rows)) ==
            multiset(AskedFor(line, Without(rows, k))) + multiset{RequestOf(line, rows[k])}
  {
    hide RequestOf;
    AskedSplit(line, rows[..k], rows[k + 1..]);
    AskedSplit(line, rows[..k + 1], rows[k + 1..]);
    assert rows == rows[..k + 1] + rows[k + 1..];
    assert rows[..k + 1][..k] == rows[..k];
    assert AskedFor(line, rows[..k + 1]) == AskedFor(line, rows[..k]) + [RequestOf(line, rows[k])];
  }
}
