/** What a recorded return costs: the loss of a submission, from the line and its rows alone. */
module ReturnLosses {
  import opened Basics
  import opened Catalogue
  import opened OrderStock
  import opened ReturnConditions
  import opened ReturnEntries
  import opened ReturnCoverage
  import opened ReturnDesk
  import opened ReturnRuns
  import Ledger = OrderLedger

  // ---- The loss of a row ----

  /** The purchase cost of one piece, the component's or else the product's, at the rate, in ten-thousandths. */
  function PieceCost(line: SoldLine, component: Option<VariantId>): int {
    match component
    case None => if line.variant.Some? then Round4(line.variant.value.cost * line.rate) else 0
    case Some(v) =>
      match FindComponent(Components(line), v)
      case None => 0
      case Some(c) => Round4(c.cost * line.rate)
  }

  /** Lost and missing pieces cost what they were bought for; damaged ones the stated damage, or as much when none is
      stated; good and returned ones nothing. A row that says no quantity is about the whole line. */
  function RowLoss(line: SoldLine, a: Allocation): int {
    var cost := PieceCost(line, a.component) * (if a.quantity.Some? then a.quantity.value else line.quantity);
    match a.condition
    case LOST => cost
    case MISSING => cost
    case DAMAGED => if a.damageCost.Some? then Round4(a.damageCost.value) else cost
    case GOOD => 0
    case RETURNED => 0
  }

  function RowsLoss(line: SoldLine, rows: seq<Allocation>): int {
    if rows == [] then 0 else RowsLoss(line, rows[..|rows| - 1]) + RowLoss(line, rows[|rows| - 1])
  }

  lemma EntryLoss(line: SoldLine, a: Allocation)
    requires Sellable(line) && RowSound(line, a) && line.quantity > 0
    ensures LossOf(EntryOf(line, a)) == RowLoss(line, a)
    ensures EntryOf(line, a).unitCost == PieceCost(line, a.component)
    ensures EntryOf(line, a).request ==
            Request(a.component, if a.quantity.Some? then a.quantity.value else line.quantity, a.condition,
                    if a.condition == DAMAGED && a.damageCost.Some? then Some(Round4(a.damageCost.value)) else None)
  {
    hide SaleShare, SharesOf, FindComponent, Components;
  }

  lemma {:induction false} LossPrepended(e: Entry, rest: seq<Entry>)
    ensures LossTotal([e] + rest) == LossOf(e) + LossTotal(rest)
  {
    if rest == [] {
      assert [e] + rest == [e] && [e][..0] == [];
    } else {
      assert ([e] + rest)[..|rest|] == [e] + rest[..|rest| - 1];
      LossPrepended(e, rest[..|rest| - 1]);
    }
  }

  lemma {:induction false} InsertLoss(sorted: seq<Entry>, e: Entry)
    ensures LossTotal(Insert(sorted, e)) == LossTotal(sorted) + LossOf(e)
  {
    hide LossOf, Before;
    if sorted == [] || Before(e.request, sorted[0].request) {
      LossPrepended(e, sorted);
    } else {
      InsertLoss(sorted[1..], e);
      LossPrepended(sorted[0], Insert(sorted[1..], e));
      LossPrepended(sorted[0], sorted[1..]);
      assert [sorted[0]] + sorted[1..] == sorted;
    }
  }

  /** The loss of the stored entries is that of the rows, however the rows are ordered. */
  lemma {:induction false} EntriesLoss(line: SoldLine, rows: seq<Allocation>)
    requires Sellable(line) && line.quantity > 0 && forall a :: a in rows ==> RowSound(line, a)
    ensures LossTotal(EntriesOf(line, rows)) == RowsLoss(line, rows)
  {
    hide EntryOf, RowSound, LossOf, RowLoss, Insert;
    if rows != [] {
      var rest, a := rows[..|rows| - 1], rows[|rows| - 1];
      assert a in rows && forall r :: r in rest ==> r in rows;
      EntriesLoss(line, rest);
      EntryLoss(line, a);
      InsertLoss(EntriesOf(line, rest), EntryOf(line, a));
    }
  }

  // ---- What a submission is answered ----

  /** How many pieces the line has: a pack's components, or the line's quantity. */
  function PiecesOf(line: SoldLine): int {
    if line.variant.Some? && line.variant.value.physical.bundle && line.variant.value.physical.components != []
    then PackPieces(line.variant.value.physical.components) * line.quantity else line.quantity
  }

  /** The answer to a submission that passes the checks: unchanged when it asks for what is saved; else a conflict when
      a row expects another revision; else an error when its loss is not from nothing up to ten to the sixteenth; else a
      snapshot of its entries and its loss, complete exactly when the entries hold as many pieces as the line. */
  lemma PreparedExactly(line: SoldLine, saved: Option<Snapshot>, revision: int, rows: seq<Allocation>,
                        expected: set<int>)
    requires Sellable(line) && rows != [] && Accepted(line, rows)
    ensures line.quantity > 0
    ensures var p, loss := Prepare(line, saved, revision, rows, expected), RowsLoss(line, rows);
            && (p == Unchanged <==> saved.Some? && Requests(saved.value.entries) == Requests(EntriesOf(line, rows)))
            && (p == Unchanged || (p == Rejected(RevisionConflict) <==> exists e :: e in expected && e != revision))
            && (p == Unchanged || p == Rejected(RevisionConflict) ||
                (p == Rejected(LossOutOfRange) <==> !(0 <= loss < 10000000000000000 * 10000)))
            && (p.Rejected? ==> p.error == RevisionConflict || p.error == LossOutOfRange)
            && (p.Replaces? ==>
                  var s := p.snapshot;
                  && s.loss == loss && s.entries == EntriesOf(line, rows) && s.expectedQuantity == PiecesOf(line)
                  && (s.completed <==> PhysicalTotal(s.entries) == PiecesOf(line)))
  {
    hide Sellable, RowSound, Requests, EntriesOf, Allocated, NoRepeats, Completed, PhysicalTotal, RowsLoss, LossTotal;
    AcceptedExactly(line, rows);
    OrderedPieces(line, rows);
    EntriesLoss(line, rows);
    CompleteExactly(line, rows);
  }

  // ---- What is booked ----

  /** Once a submission took effect on a line, the losses booked for the line sum to the loss of its rows. */
  lemma RecordedLoss(d: Desk, inputs: seq<Input>, uuids: LineId -> nat, l: LineId)
    requires Sound(d) && Ready(d) && FreshUuids(d, uuids) && TakesEffect(d, inputs, uuids, l)
    ensures Ledger.BookedLoss(Record(d, inputs, uuids).1.ledger, l) == RowsLoss(Sold(d, l), RowsOf(inputs, l))
  {
    hide Sound, Prepare, Record, Ready, FreshUuids, RowsLoss, Untouched, Ledger.BookedLoss;
    RecordIs(d, inputs, uuids);
    ReadySells(d, l);
    SoundLoss(Record(d, inputs, uuids).1, l);
    PreparedLoss(Sold(d, l), Saved(d, l), d.stock.lines[l].revision, RowsOf(inputs, l), ExpectedOf(inputs, l));
  }

  lemma SoundLoss(d: Desk, l: LineId)
    requires Sound(d) && l in d.order
    ensures Ledger.BookedLoss(d.ledger, l) == SavedLoss(d, l)
  {
  }

  lemma PreparedLoss(line: SoldLine, saved: Option<Snapshot>, revision: int, rows: seq<Allocation>, expected: set<int>)
    requires Sellable(line) && rows != []
    ensures var p := Prepare(line, saved, revision, rows, expected);
            p.Replaces? ==> p.snapshot.loss == RowsLoss(line, rows)
  {
    hide Sellable, Accepted, Requests, EntriesOf, RowsLoss, Completed, Check;
    AcceptedExactly(line, rows);
    if Check(line, rows) == None {
      PreparedExactly(line, saved, revision, rows, expected);
    }
  }
}
