/** When the rows of a submission cover the whole line, and how closely their rounded sale values add up. */
module ReturnCoverage {
  import opened Basics
  import opened Catalogue
  import opened ReturnConditions
  import opened ReturnEntries

  predicate ComponentsCovered(line: SoldLine, cs: seq<Component>, rows: seq<Allocation>) {
    cs == [] || (Allocated(line, rows, Some(cs[0].variant)) == cs[0].quantity * line.quantity &&
                 ComponentsCovered(line, cs[1..], rows))
  }

  predicate Completed(line: SoldLine, rows: seq<Allocation>) {
    if ComponentMode(rows) then ComponentsCovered(line, Components(line), rows)
    else Allocated(line, rows, None) == line.quantity
  }

  function ExpectedQuantity(line: SoldLine): int {
    if Components(line) != [] then PackPieces(Components(line)) * line.quantity else line.quantity
  }

  // ---- Weighing rows by component ----

  /** What the rows allocate, each component weighted. */
  function AllocatedWeight(line: SoldLine, cs: seq<Component>, rows: seq<Allocation>, m: Measure): real {
    if cs == [] then 0.0
    else
      AllocatedWeight(line, cs[1..], rows, m) +
      Weight(cs[0], m, line.rate) * Allocated(line, rows, Some(cs[0].variant)) as real
  }

  function RowWeight(line: SoldLine, a: Allocation, m: Measure): real {
    if a.component == None || FindComponent(Components(line), a.component.value) == None then 0.0
    else Weight(FindComponent(Components(line), a.component.value).value, m, line.rate) * Asked(line, a) as real
  }

  function RowsWeight(line: SoldLine, rows: seq<Allocation>, m: Measure): real {
    if rows == [] then 0.0
    else RowsWeight(line, rows[..|rows| - 1], m) + RowWeight(line, rows[|rows| - 1], m)
  }

  lemma AllocatedNext(line: SoldLine, rows: seq<Allocation>, a: Allocation, key: Option<VariantId>)
    ensures Allocated(line, rows + [a], key) ==
            Allocated(line, rows, key) + (if a.component == key then Asked(line, a) else 0)
  {
    assert (rows + [a])[..|rows|] == rows;
  }

  lemma {:induction false} OtherComponents(line: SoldLine, cs: seq<Component>, rows: seq<Allocation>, a: Allocation,
                                           m: Measure)
    requires forall c :: c in cs ==> a.component != Some(c.variant)
    ensures AllocatedWeight(line, cs, rows + [a], m) == AllocatedWeight(line, cs, rows, m)
  {
    hide Allocated, Weight, Asked;
    if cs != [] {
      AllocatedNext(line, rows, a, Some(cs[0].variant));
      OtherComponents(line, cs[1..], rows, a, m);
    }
  }

  lemma {:induction false} OneComponent(line: SoldLine, cs: seq<Component>, rows: seq<Allocation>, a: Allocation,
                                        c: Component, m: Measure)
    requires forall j, k :: 0 <= j < k < |cs| ==> cs[j].variant != cs[k].variant
    requires c in cs && a.component == Some(c.variant)
    ensures AllocatedWeight(line, cs, rows + [a], m) ==
            AllocatedWeight(line, cs, rows, m) + Weight(c, m, line.rate) * Asked(line, a) as real
  {
    hide Allocated, Weight, Asked;
    AllocatedNext(line, rows, a, Some(cs[0].variant));
    if cs[0].variant == c.variant {
      forall k | 1 <= k < |cs| ensures a.component != Some(cs[k].variant) {
      }
      assert c == cs[0];
      OtherComponents(line, cs[1..], rows, a, m);
      Distribute(Weight(c, m, line.rate), Allocated(line, rows, Some(c.variant)), Asked(line, a));
    } else {
      OneComponent(line, cs[1..], rows, a, c, m);
    }
  }

  lemma Distribute(w: real, x: int, y: int)
    ensures w * (x + y) as real == w * x as real + w * y as real
  {
  }

  lemma {:induction false} NothingAllocated(line: SoldLine, cs: seq<Component>, m: Measure)
    ensures AllocatedWeight(line, cs, [], m) == 0.0
  {
    if cs != [] {
      NothingAllocated(line, cs[1..], m);
    }
  }

  /** Summing row by row and component by component is the same. */
  lemma {:induction false} WeightByComponent(line: SoldLine, rows: seq<Allocation>, m: Measure)
    requires Sellable(line)
    requires forall a :: a in rows ==> RowSound(line, a) && a.component.Some?
    ensures RowsWeight(line, rows, m) == AllocatedWeight(line, Components(line), rows, m)
  {
    hide Weight, AllocatedWeight, Allocated, Asked, FindComponent, Components;
    if rows == [] {
      NothingAllocated(line, Components(line), m);
    } else {
      var rest, a := rows[..|rows| - 1], rows[|rows| - 1];
      assert rows == rest + [a] && a in rows;
      WeightByComponent(line, rest, m);
      OneComponent(line, Components(line), rest, a, FindComponent(Components(line), a.component.value).value, m);
    }
  }

  lemma {:induction false} CoveredWeight(line: SoldLine, cs: seq<Component>, rows: seq<Allocation>, m: Measure)
    requires ComponentsCovered(line, cs, rows)
    ensures AllocatedWeight(line, cs, rows, m) == PackWeight(cs, line.quantity, m, line.rate)
  {
    if cs != [] {
      CoveredWeight(line, cs[1..], rows, m);
    }
  }

  // ---- The sale values ----

  function PriceMeasure(line: SoldLine): Measure { if SplitByCost(line) then ByCost else ByPieces }

  function SharesSum(line: SoldLine, rows: seq<Allocation>): real
    requires Sellable(line) && line.quantity > 0 && forall a :: a in rows ==> RowSound(line, a)
  {
    if rows == [] then 0.0
    else
      assert forall a :: a in rows[..|rows| - 1] ==> a in rows;
      SharesSum(line, rows[..|rows| - 1]) + SaleShare(line, rows[|rows| - 1])
  }

  lemma Undivide(x: real, w: real, q: real, total: real)
    requires total > 0.0
    ensures x * w * q / total * total == x * (w * q)
    ensures x * q / total * total == x * (1.0 * q)
  {
  }

  lemma Combine(x: real, y: real, total: real, price: real, v: real, w: real)
    requires x * total == price * v && y * total == price * w
    ensures (x + y) * total == price * (v + w)
  {
  }

  lemma ShareOfPack(line: SoldLine, a: Allocation, m: Measure)
    requires Sellable(line) && line.quantity > 0 && RowSound(line, a) && a.component.Some?
    requires m == PriceMeasure(line)
    ensures var total := PackWeight(Components(line), line.quantity, m, line.rate);
            total > 0.0 && SaleShare(line, a) * total == line.totalPrice * RowWeight(line, a, m)
  {
    hide PackWeight, FindComponent, Asked, Components;
    PackHasPieces(Components(line), line.quantity, line.rate);
    var c := FindComponent(Components(line), a.component.value).value;
    Undivide(line.totalPrice, c.cost * line.rate, Asked(line, a) as real,
             PackWeight(Components(line), line.quantity, m, line.rate));
  }

  lemma {:induction false} SharesOfPack(line: SoldLine, rows: seq<Allocation>, m: Measure)
    requires Sellable(line) && line.quantity > 0 && m == PriceMeasure(line)
    requires forall a :: a in rows ==> RowSound(line, a) && a.component.Some?
    ensures SharesSum(line, rows) * PackWeight(Components(line), line.quantity, m, line.rate) ==
            line.totalPrice * RowsWeight(line, rows, m)
  {
    hide PackWeight, SaleShare, RowWeight, RowSound, Components;
    if rows != [] {
      var rest, a := rows[..|rows| - 1], rows[|rows| - 1];
      assert forall r :: r in rest ==> r in rows;
      SharesOfPack(line, rest, m);
      ShareOfPack(line, a, m);
      Combine(SharesSum(line, rest), SaleShare(line, a), PackWeight(Components(line), line.quantity, m, line.rate),
              line.totalPrice, RowsWeight(line, rest, m), RowWeight(line, a, m));
    }
  }

  lemma ShareOfWhole(line: SoldLine, a: Allocation)
    requires Sellable(line) && line.quantity > 0 && RowSound(line, a) && a.component == None
    ensures SaleShare(line, a) * line.quantity as real == line.totalPrice * Asked(line, a) as real
  {
    hide Asked, Components;
    Undivide(line.totalPrice, 0.0, Asked(line, a) as real, line.quantity as real);
  }

  lemma {:induction false} SharesOfWhole(line: SoldLine, rows: seq<Allocation>)
    requires Sellable(line) && line.quantity > 0
    requires forall a :: a in rows ==> RowSound(line, a) && a.component == None
    ensures SharesSum(line, rows) * line.quantity as real == line.totalPrice * Allocated(line, rows, None) as real
  {
    hide SaleShare, RowSound, Asked, Components;
    if rows != [] {
      var rest, a := rows[..|rows| - 1], rows[|rows| - 1];
      assert forall r :: r in rest ==> r in rows;
      SharesOfWhole(line, rest);
      ShareOfWhole(line, a);
      Combine(SharesSum(line, rest), SaleShare(line, a), line.quantity as real, line.totalPrice,
              Allocated(line, rest, None) as real, Asked(line, a) as real);
    }
  }

  lemma Cancel(x: real, y: real, z: real, w: real)
    requires z > 0.0 && x * z == y * w && w == z
    ensures x == y
  {
  }

  lemma {:induction false} CostKnown(cs: seq<Component>, quantity: int, rate: real)
    requires quantity > 0 && rate > 0.0 && forall c :: c in cs ==> c.quantity > 0 && c.cost >= 0.0
    ensures PackWeight(cs, quantity, ByCost, rate) >= 0.0
    ensures PackWeight(cs, quantity, ByCost, rate) > 0.0 <==> exists c :: c in cs && c.cost > 0.0
  {
    if cs != [] {
      CostKnown(cs[1..], quantity, rate);
      var c := cs[0];
      assert c in cs && c.quantity * quantity > 0;
      assert forall x :: x in cs <==> x == c || x in cs[1..];
      PositiveProduct(c.cost, rate, (c.quantity * quantity) as real);
    }
  }

  lemma PositiveProduct(x: real, y: real, z: real)
    requires x >= 0.0 && y > 0.0 && z > 0.0
    ensures x * y * z >= 0.0 && (x * y * z > 0.0 <==> x > 0.0)
  {
    if x > 0.0 {
      assert x * y > 0.0;
    }
  }

  /** How the price is split: a row of a pack gets its part by purchase cost as soon as any component has one, and by
      number of pieces otherwise; a row of whole pieces gets its part by quantity. */
  lemma SharesAreProportional(line: SoldLine, a: Allocation, b: Allocation)
    requires Sellable(line) && line.quantity > 0 && RowSound(line, a) && RowSound(line, b)
    ensures a.component == None ==>
            SaleShare(line, a) * line.quantity as real == line.totalPrice * Asked(line, a) as real
    ensures a.component.Some? && b.component.Some? ==>
              var c := FindComponent(Components(line), a.component.value).value;
              var e := FindComponent(Components(line), b.component.value).value;
              var known := exists x :: x in Components(line) && x.cost > 0.0;
              var worth := if known then c.cost * line.rate * Asked(line, a) as real else Asked(line, a) as real;
              var other := if known then e.cost * line.rate * Asked(line, b) as real else Asked(line, b) as real;
              SaleShare(line, a) * other == SaleShare(line, b) * worth
  {
    hide SaleShare, Asked, Components, RowSound, FindComponent;
    if a.component == None {
      ShareOfWhole(line, a);
    } else if b.component.Some? {
      hide RowWeight;
      RowWorth(line, a);
      RowWorth(line, b);
      PackSharesAreProportional(line, a, b);
    }
  }

  lemma RowWorth(line: SoldLine, a: Allocation)
    requires RowSound(line, a) && a.component.Some?
    ensures FindComponent(Components(line), a.component.value).Some?
    ensures RowWeight(line, a, ByCost) ==
            FindComponent(Components(line), a.component.value).value.cost * line.rate * Asked(line, a) as real
    ensures RowWeight(line, a, ByPieces) == Asked(line, a) as real
  {
    hide Asked, Components;
  }

  lemma PackSharesAreProportional(line: SoldLine, a: Allocation, b: Allocation)
    requires Sellable(line) && line.quantity > 0 && RowSound(line, a) && RowSound(line, b)
    requires a.component.Some? && b.component.Some?
    ensures PriceMeasure(line) == if exists x :: x in Components(line) && x.cost > 0.0 then ByCost else ByPieces
    ensures SaleShare(line, a) * RowWeight(line, b, PriceMeasure(line)) ==
            SaleShare(line, b) * RowWeight(line, a, PriceMeasure(line))
  {
    hide PackWeight, Asked, Components, RowWeight, SaleShare;
    CostKnown(Components(line), line.quantity, line.rate);
    var m := PriceMeasure(line);
    ShareOfPack(line, a, m);
    ShareOfPack(line, b, m);
    CrossMultiply(SaleShare(line, a), SaleShare(line, b), PackWeight(Components(line), line.quantity, m, line.rate),
                  line.totalPrice, RowWeight(line, a, m), RowWeight(line, b, m));
  }

  lemma CrossMultiply(x: real, y: real, total: real, price: real, v: real, w: real)
    requires total > 0.0 && x * total == price * v && y * total == price * w
    ensures x * w == y * v
  {
    assert x * w * total == price * v * w == y * v * total;
  }

  lemma CompletedIs(line: SoldLine, rows: seq<Allocation>)
    ensures Completed(line, rows) <==> if ComponentMode(rows) then ComponentsCovered(line, Components(line), rows)
                                       else Allocated(line, rows, None) == line.quantity
  {
  }

  /** A complete allocation splits exactly the line's price before rounding, whether by cost, by pieces or whole. */
  lemma SharesAddUp(line: SoldLine, rows: seq<Allocation>)
    requires Sellable(line) && line.quantity > 0 && rows != [] && Accepted(line, rows) && Completed(line, rows)
    ensures SharesSum(line, rows) == line.totalPrice
  {
    hide PackWeight, SharesSum, RowsWeight, AllocatedWeight, RowSound, Components, Completed, ComponentsCovered;
    CompletedIs(line, rows);
    if ComponentMode(rows) {
      var m, cs := PriceMeasure(line), Components(line);
      SharesOfPack(line, rows, m);
      WeightByComponent(line, rows, m);
      CoveredWeight(line, cs, rows, m);
      PackHasPieces(cs, line.quantity, line.rate);
      Cancel(SharesSum(line, rows), line.totalPrice, PackWeight(cs, line.quantity, m, line.rate),
             RowsWeight(line, rows, m));
    } else {
      SharesOfWhole(line, rows);
      Cancel(SharesSum(line, rows), line.totalPrice, line.quantity as real, Allocated(line, rows, None) as real);
    }
  }

  function SaleTotal(entries: seq<Entry>): int {
    if entries == [] then 0 else entries[0].saleValue + SaleTotal(entries[1..])
  }

  function PhysicalTotal(entries: seq<Entry>): int {
    if entries == [] then 0 else entries[0].physicalQuantity + PhysicalTotal(entries[1..])
  }

  lemma {:induction false} InsertTotals(sorted: seq<Entry>, e: Entry)
    ensures SaleTotal(Insert(sorted, e)) == SaleTotal(sorted) + e.saleValue
    ensures PhysicalTotal(Insert(sorted, e)) == PhysicalTotal(sorted) + e.physicalQuantity
    ensures |Insert(sorted, e)| == |sorted| + 1
  {
    if !(sorted == [] || Before(e.request, sorted[0].request)) {
      InsertTotals(sorted[1..], e);
    }
  }

  lemma {:induction false} RoundedShares(line: SoldLine, rows: seq<Allocation>)
    requires Sellable(line) && line.quantity > 0 && forall a :: a in rows ==> RowSound(line, a)
    ensures var entries := EntriesOf(line, rows);
            && |entries| == |rows|
            && -0.5 * |rows| as real <= SaleTotal(entries) as real - SharesSum(line, rows) * 10000.0 <=
               0.5 * |rows| as real
  {
    if rows != [] {
      var rest, a := rows[..|rows| - 1], rows[|rows| - 1];
      assert forall r :: r in rest ==> r in rows;
      RoundedShares(line, rest);
      InsertTotals(EntriesOf(line, rest), EntryOf(line, a));
      RoundsClosely(SaleShare(line, a));
    }
  }

  /** The stored sale values of a complete allocation of n entries add up to the line's price within half a
      ten-thousandth each. */
  lemma SaleValuesAddUp(line: SoldLine, rows: seq<Allocation>)
    requires Sellable(line) && line.quantity > 0 && rows != [] && Accepted(line, rows) && Completed(line, rows)
    ensures var entries := EntriesOf(line, rows);
            var error := SaleTotal(entries) as real / 10000.0 - line.totalPrice;
            -0.00005 * |entries| as real <= error <= 0.00005 * |entries| as real
  {
    SharesAddUp(line, rows);
    RoundedShares(line, rows);
  }

  // ---- Completeness ----

  lemma {:induction false} PiecesWithin(line: SoldLine, cs: seq<Component>, rows: seq<Allocation>)
    requires forall c :: c in cs ==> Allocated(line, rows, Some(c.variant)) <= c.quantity * line.quantity
    ensures AllocatedWeight(line, cs, rows, ByPieces) <= (PackPieces(cs) * line.quantity) as real
    ensures AllocatedWeight(line, cs, rows, ByPieces) == (PackPieces(cs) * line.quantity) as real <==>
            ComponentsCovered(line, cs, rows)
  {
    hide Allocated;
    if cs != [] {
      PiecesWithin(line, cs[1..], rows);
      DistributeInt(cs[0].quantity, PackPieces(cs[1..]), line.quantity);
      assert cs[0] in cs;
    }
  }

  lemma DistributeInt(x: int, y: int, z: int)
    ensures (x + y) * z == x * z + y * z
    ensures z * (x + y) == z * x + z * y
  {
  }

  lemma PiecesOfRow(line: SoldLine, a: Allocation)
    requires Sellable(line) && line.quantity > 0 && RowSound(line, a)
    ensures a.component.Some? ==> EntryOf(line, a).physicalQuantity as real == RowWeight(line, a, ByPieces)
    ensures a.component == None ==>
              EntryOf(line, a).physicalQuantity ==
              (if Components(line) != [] then PackPieces(Components(line)) else 1) * Asked(line, a)
  {
    hide SaleShare, RequestOf, SharesOf, UnitCost;
  }

  lemma {:induction false} PiecesOfRows(line: SoldLine, rows: seq<Allocation>)
    requires Sellable(line) && line.quantity > 0 && forall a :: a in rows ==> RowSound(line, a)
    ensures (forall a :: a in rows ==> a.component.Some?) ==>
              PhysicalTotal(EntriesOf(line, rows)) as real == RowsWeight(line, rows, ByPieces)
    ensures (forall a :: a in rows ==> a.component == None) ==>
              PhysicalTotal(EntriesOf(line, rows)) ==
              (if Components(line) != [] then PackPieces(Components(line)) else 1) * Allocated(line, rows, None)
  {
    hide EntryOf, RowWeight, RowSound, PhysicalTotal, Insert, Asked;
    if rows != [] {
      var rest, a := rows[..|rows| - 1], rows[|rows| - 1];
      assert forall r :: r in rest ==> r in rows;
      assert a in rows;
      PiecesOfRows(line, rest);
      PiecesOfRow(line, a);
      InsertTotals(EntriesOf(line, rest), EntryOf(line, a));
      DistributeInt(Allocated(line, rest, None), Asked(line, a),
                    if Components(line) != [] then PackPieces(Components(line)) else 1);
    } else {
      NoPieces();
    }
  }

  lemma NoPieces()
    ensures PhysicalTotal([]) == 0
  {
  }

  lemma {:induction false} UnnamedIsEmpty(line: SoldLine, rows: seq<Allocation>, key: Option<VariantId>)
    requires forall a :: a in rows ==> a.component != key
    ensures Allocated(line, rows, key) == 0
  {
    if rows != [] {
      assert rows[|rows| - 1] in rows;
      UnnamedIsEmpty(line, rows[..|rows| - 1], key);
    }
  }

  lemma WithinCapacity(line: SoldLine, rows: seq<Allocation>)
    requires Sellable(line) && line.quantity > 0 && Accepted(line, rows)
    ensures forall c :: c in Components(line) ==> Allocated(line, rows, Some(c.variant)) <= c.quantity * line.quantity
    ensures Allocated(line, rows, None) <= line.quantity
  {
    forall c | c in Components(line) ensures Allocated(line, rows, Some(c.variant)) <= c.quantity * line.quantity {
      CapacityIs(line, Components(line), c);
      if !exists a :: a in rows && a.component == Some(c.variant) {
        UnnamedIsEmpty(line, rows, Some(c.variant));
      }
    }
    if !exists a :: a in rows && a.component == None {
      UnnamedIsEmpty(line, rows, None);
    }
  }

  /** Accepted entries never hold more pieces than were ordered, and exactly as many just when the submission counts
      as complete. */
  lemma CompleteExactly(line: SoldLine, rows: seq<Allocation>)
    requires Sellable(line) && line.quantity > 0 && rows != [] && Accepted(line, rows)
    ensures PhysicalTotal(EntriesOf(line, rows)) <= ExpectedQuantity(line)
    ensures PhysicalTotal(EntriesOf(line, rows)) == ExpectedQuantity(line) <==> Completed(line, rows)
  {
    var cs := Components(line);
    WithinCapacity(line, rows);
    PiecesOfRows(line, rows);
    if ComponentMode(rows) {
      WeightByComponent(line, rows, ByPieces);
      PiecesWithin(line, cs, rows);
    } else if cs != [] {
      PiecesArePositive(cs);
      ScaledWithin(PackPieces(cs), Allocated(line, rows, None), line.quantity);
    }
  }

  lemma {:induction false} PiecesArePositive(cs: seq<Component>)
    requires forall c :: c in cs ==> c.quantity > 0
    ensures PackPieces(cs) >= 0 && (cs != [] ==> PackPieces(cs) > 0)
  {
    if cs != [] {
      assert cs[0] in cs;
      PiecesArePositive(cs[1..]);
    }
  }

  lemma ScaledWithin(n: int, x: int, y: int)
    requires n > 0 && x <= y
    ensures n * x <= n * y && (n * x == n * y <==> x == y)
  {
  }
}
