/** Recording returned conditions: all lines of a submission are prepared before the first is written, then stock,
    snapshot, revision and loss of each move together. */
module ReturnDesk {
  import opened Basics
  import opened OrderStock
  import opened ReturnConditions
  import opened ReturnEntries
  import opened ReturnCoverage
  import opened ReturnStock
  import Ledger = OrderLedger

  datatype Snapshot = Snapshot(completed: bool, expectedQuantity: int, loss: int, entries: seq<Entry>)

  /** One row as sent, with the line and the revision it expects. */
  datatype Input = Input(line: LineId, row: Allocation, expected: Option<int>)

  datatype Prepared = Rejected(error: Error) | Unchanged | Replaces(snapshot: Snapshot)

  /** Ten to the sixteenth, in ten-thousandths. */
  const MONEY_LIMIT := 100000000000000000000

  // ---- Preparing one line ----

  function LossOf(e: Entry): int {
    match e.request.condition
    case DAMAGED => if e.request.damageCost.Some? then e.request.damageCost.value else e.unitCost * e.request.quantity
    case LOST => e.unitCost * e.request.quantity
    case MISSING => e.unitCost * e.request.quantity
    case GOOD => 0
    case RETURNED => 0
  }

  function LossTotal(entries: seq<Entry>): int {
    if entries == [] then 0 else LossTotal(entries[..|entries| - 1]) + LossOf(entries[|entries| - 1])
  }

  lemma OrderedPieces(line: SoldLine, rows: seq<Allocation>)
    requires Sellable(line) && rows != [] && Check(line, rows) == None
    ensures line.quantity > 0 && RowsAccepted(line, rows)
  {
    hide Check, Sellable, NoRepeats, ComponentMode, FindComponent;
    AcceptedExactly(line, rows);
    var a := rows[0];
    assert a in rows && Allocated(line, rows, a.component) <= Capacity(line, a.component);
    AllocatedGrows(line, rows, a.component);
    CapacityNeedsPieces(line, a.component);
  }

  lemma CapacityNeedsPieces(line: SoldLine, key: Option<VariantId>)
    requires Sellable(line) && Capacity(line, key) > 0
    ensures line.quantity > 0
  {
    if key.Some? && FindComponent(Components(line), key.value).Some? {
      var c := FindComponent(Components(line), key.value).value;
      assert c in Components(line);
      PositiveFactor(c.quantity, line.quantity);
    }
  }

  lemma PositiveFactor(x: int, y: int)
    requires x > 0 && x * y > 0
    ensures y > 0
  {
  }

  /** Retries are recognized before revisions are compared; only then is anything new accepted. */
  function Prepare(line: SoldLine, saved: Option<Snapshot>, revision: int, rows: seq<Allocation>, expected: set<int>):
      Prepared
    requires Sellable(line) && rows != []
  {
    match Check(line, rows)
    case Some(e) => Rejected(e)
    case None =>
      OrderedPieces(line, rows);
      var entries := EntriesOf(line, rows);
      if saved.Some? && Requests(saved.value.entries) == Requests(entries) then Unchanged
      else if exists e :: e in expected && e != revision then Rejected(RevisionConflict)
      else if LossTotal(entries) < 0 || LossTotal(entries) >= MONEY_LIMIT then Rejected(LossOutOfRange)
      else Replaces(Snapshot(Completed(line, rows), ExpectedQuantity(line), LossTotal(entries), entries))
  }

  /** The same product as far as quantities go; costs and prices may differ. */
  ghost predicate SameShape(a: SoldLine, b: SoldLine) {
    && a.quantity == b.quantity
    && (Components(a) == [] <==> Components(b) == [])
    && forall v ::
         match FindComponent(Components(a), v)
         case None => FindComponent(Components(b), v) == None
         case Some(c) =>
           FindComponent(Components(b), v).Some? && FindComponent(Components(b), v).value.quantity == c.quantity
  }

  lemma {:induction false} ShapeDecides(a: SoldLine, b: SoldLine, rows: seq<Allocation>)
    requires SameShape(a, b)
    ensures AskedFor(a, rows) == AskedFor(b, rows)
    ensures CheckRows(a, rows) == CheckRows(b, rows)
    ensures forall key :: Allocated(a, rows, key) == Allocated(b, rows, key)
  {
    hide FindComponent, Components;
    if rows != [] {
      ShapeDecides(a, b, rows[..|rows| - 1]);
      assert forall key :: Capacity(a, key) == Capacity(b, key);
    }
  }

  /** A snapshot of accepted rows recognizes them again in any order, expecting any revision, also after costs, rates or
      prices have changed. */
  lemma RowsAreRecognized(before: SoldLine, rows: seq<Allocation>, saved: Snapshot, now: SoldLine, revision: int,
                          again: seq<Allocation>, expected: set<int>)
    requires Sellable(before) && rows != [] && Check(before, rows) == None
    requires before.quantity > 0 && RowsAccepted(before, rows)
    requires Requests(saved.entries) == Requests(EntriesOf(before, rows))
    requires Sellable(now) && SameShape(before, now) && again != [] && multiset(again) == multiset(rows)
    ensures Prepare(now, Some(saved), revision, again, expected) == Unchanged
  {
    hide Requests, EntriesOf, Sellable, SameShape;
    PermutationIsAccepted(before, rows, again);
    ShapeChecks(before, now, again);
    OrderedPieces(before, again);
    OrderedPieces(now, again);
    AskedPermuted(before, rows, again);
    ShapeDecides(before, now, again);
    RetryIsRecognized(before, rows, now, again);
  }

  lemma ShapeChecks(a: SoldLine, b: SoldLine, rows: seq<Allocation>)
    requires SameShape(a, b)
    ensures Check(a, rows) == Check(b, rows)
  {
    ShapeDecides(a, b, rows);
  }

  // ---- A desk: an order's lines with their stock, snapshots and ledger ----

  datatype Desk = Desk(order: set<LineId>, stock: Store, prices: map<LineId, real>, rate: real,
                       saved: map<LineId, Snapshot>, ledger: Ledger.Events)

  predicate Placed(d: Desk) { d.order <= d.stock.lines.Keys && d.order <= d.prices.Keys }

  function Sold(d: Desk, l: LineId): SoldLine
    requires Placed(d) && l in d.order
  {
    SoldLine(d.stock.lines[l].quantity, d.prices[l], d.stock.lines[l].variant, d.rate)
  }

  ghost predicate Ready(d: Desk) { Placed(d) && forall l :: l in d.order ==> Sellable(Sold(d, l)) }

  function Saved(d: Desk, l: LineId): Option<Snapshot> { if l in d.saved then Some(d.saved[l]) else None }

  function SavedEntries(d: Desk, l: LineId): seq<Entry> { if l in d.saved then d.saved[l].entries else [] }

  /** The lines of a submission, in order of first mention. */
  function LinesOf(inputs: seq<Input>): seq<LineId> {
    if inputs == [] then []
    else
      var ls, l := LinesOf(inputs[..|inputs| - 1]), inputs[|inputs| - 1].line;
      if l in ls then ls else ls + [l]
  }

  function RowsOf(inputs: seq<Input>, l: LineId): seq<Allocation> {
    if inputs == [] then []
    else
      RowsOf(inputs[..|inputs| - 1], l) + (if inputs[|inputs| - 1].line == l then [inputs[|inputs| - 1].row] else [])
  }

  function ExpectedOf(inputs: seq<Input>, l: LineId): set<int> {
    set x | x in inputs && x.line == l && x.expected.Some? :: x.expected.value
  }

  /** A line's rows of a submission of one row. */
  lemma RowsOfOne(x: Input, l: LineId)
    ensures RowsOf([], l) == [] && RowsOf([x], l) == if x.line == l then [x.row] else []
  {
    assert [x][..0] == [];
  }

  /** A submission's rows are those of its parts, one after the other. */
  lemma {:induction false} RowsOfBoth(first: seq<Input>, second: seq<Input>, l: LineId)
    ensures RowsOf(first + second, l) == RowsOf(first, l) + RowsOf(second, l)
  {
    if second == [] {
      assert first + second == first;
    } else {
      var all := first + second;
      assert all[..|all| - 1] == first + second[..|second| - 1] && all[|all| - 1] == second[|second| - 1];
      RowsOfBoth(first, second[..|second| - 1], l);
    }
  }

  lemma {:induction false} LinesHaveRows(inputs: seq<Input>)
    ensures forall l :: l in LinesOf(inputs) <==> RowsOf(inputs, l) != []
    ensures forall l :: l in LinesOf(inputs) <==> exists x :: x in inputs && x.line == l
    ensures forall j, k :: 0 <= j < k < |LinesOf(inputs)| ==> LinesOf(inputs)[j] != LinesOf(inputs)[k]
  {
    if inputs != [] {
      LinesHaveRows(inputs[..|inputs| - 1]);
      assert inputs == inputs[..|inputs| - 1] + [inputs[|inputs| - 1]];
    }
  }

  predicate Belongs(d: Desk, inputs: seq<Input>) { forall x :: x in inputs ==> x.line in d.order }

  function PrepareLine(d: Desk, inputs: seq<Input>, l: LineId): Prepared
    requires Ready(d) && l in d.order && RowsOf(inputs, l) != []
  {
    Prepare(Sold(d, l), Saved(d, l), d.stock.lines[l].revision, RowsOf(inputs, l), ExpectedOf(inputs, l))
  }

  ghost predicate Preparable(d: Desk, inputs: seq<Input>, ids: seq<LineId>) {
    Ready(d) && forall l :: l in ids ==> l in d.order && RowsOf(inputs, l) != []
  }

  function FirstError(d: Desk, inputs: seq<Input>, ids: seq<LineId>): Option<Error>
    requires Preparable(d, inputs, ids)
  {
    if ids == [] then None
    else
      assert ids[0] in ids && forall l :: l in ids[1..] ==> l in ids;
      var p := PrepareLine(d, inputs, ids[0]);
      if p.Rejected? then Some(p.error) else FirstError(d, inputs, ids[1..])
  }

  /** One line's new snapshot, with the stock it moves and the loss it books. */
  function Commit(d: Desk, l: LineId, s: Snapshot, uuid: nat): Desk
    requires l in d.stock.lines
  {
    var delivered := d.stock.lines[l].status == Some(LineDelivered);
    d.(stock := ReconcileLine(d.stock, l, WithOldItems(TargetsOf(s.entries, delivered), SavedEntries(d, l))),
       saved := d.saved[l := s],
       ledger := Ledger.SetLoss(d.ledger, l, s.loss, uuid))
  }

  /** Commits what was prepared against the desk as it was. */
  function CommitAll(d: Desk, inputs: seq<Input>, ids: seq<LineId>, uuids: LineId -> nat): (r: Desk)
    requires Preparable(d, inputs, ids)
    ensures r.order == d.order && r.prices == d.prices && r.stock.lines.Keys == d.stock.lines.Keys
  {
    if ids == [] then d
    else
      var l := ids[|ids| - 1];
      assert forall k :: k in ids[..|ids| - 1] ==> k in ids;
      var before := CommitAll(d, inputs, ids[..|ids| - 1], uuids);
      match PrepareLine(d, inputs, l)
      case Replaces(s) => Commit(before, l, s, uuids(l))
      case _ => before
  }

  function Record(d: Desk, inputs: seq<Input>, uuids: LineId -> nat): (Option<Error>, Desk)
    requires Ready(d)
  {
    if !Belongs(d, inputs) then (Some(ForeignLine), d)
    else
      LinesHaveRows(inputs);
      var error := FirstError(d, inputs, LinesOf(inputs));
      if error.Some? then (error, d) else (None, CommitAll(d, inputs, LinesOf(inputs), uuids))
  }
}
