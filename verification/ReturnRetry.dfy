/** Sending a recorded submission again changes nothing at all. */
module ReturnRetry {
  import opened Basics
  import opened ReturnConditions
  import opened ReturnEntries
  import opened ReturnDesk
  import opened ReturnRuns

  /** A snapshot holds just what these rows asked for. */
  ghost predicate Holds(saved: Option<Snapshot>, line: SoldLine, rows: seq<Allocation>) {
    && saved.Some? && rows != [] && Sellable(line)
    && Check(line, rows) == None && line.quantity > 0 && RowsAccepted(line, rows)
    && Requests(saved.value.entries) == Requests(EntriesOf(line, rows))
  }

  lemma PreparedHolds(line: SoldLine, saved: Option<Snapshot>, revision: int, rows: seq<Allocation>, expected: set<int>)
    requires Sellable(line) && rows != []
    ensures match Prepare(line, saved, revision, rows, expected)
            case Rejected(_) => true
            case Unchanged => Holds(saved, line, rows)
            case Replaces(s) => Holds(Some(s), line, rows)
  {
    hide Sellable, RowsAccepted, EntriesOf, Requests;
    if Check(line, rows) == None {
      OrderedPieces(line, rows);
    }
  }

  lemma {:induction false} NoErrorAnywhere(d: Desk, inputs: seq<Input>, ids: seq<LineId>, l: LineId)
    requires Preparable(d, inputs, ids) && FirstError(d, inputs, ids) == None && l in ids
    ensures !PrepareLine(d, inputs, l).Rejected?
  {
    if ids[0] != l {
      NoErrorAnywhere(d, inputs, ids[1..], l);
    }
  }

  /** After an accepted submission every line of it holds what its rows asked for. */
  lemma RecordedHolds(d: Desk, inputs: seq<Input>, uuids: LineId -> nat, l: LineId)
    requires Sound(d) && Ready(d) && FreshUuids(d, uuids) && Record(d, inputs, uuids).0 == None && l in LinesOf(inputs)
    ensures l in d.order && Holds(Saved(Record(d, inputs, uuids).1, l), Sold(d, l), RowsOf(inputs, l))
  {
    hide Sound, FreshUuids, CommitAll, Holds, Untouched, Prepare;
    LinesHaveRows(inputs);
    NoErrorAnywhere(d, inputs, LinesOf(inputs), l);
    ReadySells(d, l);
    PreparedHolds(Sold(d, l), Saved(d, l), d.stock.lines[l].revision, RowsOf(inputs, l), ExpectedOf(inputs, l));
    RecordIs(d, inputs, uuids);
    UntouchedSaves(d, Record(d, inputs, uuids).1, l);
  }

  lemma UntouchedSaves(d: Desk, after: Desk, l: LineId)
    ensures Untouched(d, after, l) ==> Saved(after, l) == Saved(d, l)
  {
  }

  ghost predicate Mentions(step: DeskStep, l: LineId) { step.Submit? && RowsOf(step.inputs, l) != [] }

  lemma StepKeepsSnapshot(d: Desk, step: DeskStep, l: LineId)
    requires Sound(d) && Allowed(d, step) && l in d.order && !Mentions(step, l)
    ensures Saved(After(d, step), l) == Saved(d, l)
  {
    hide Sound, Record, Untouched, Ready, FreshUuids;
    if step.Submit? {
      RecordIs(d, step.inputs, step.uuids);
      UntouchedSaves(d, After(d, step), l);
    }
  }

  lemma {:induction false} RunsKeepSnapshot(d: Desk, steps: seq<DeskStep>, end: Desk, l: LineId)
    requires Sound(d) && DeskRuns(d, steps, end) && l in d.order
    requires forall k :: 0 <= k < |steps| ==> !Mentions(steps[k], l)
    ensures Saved(end, l) == Saved(d, l)
    decreases |steps|
  {
    hide Sound, After, Ready, FreshUuids, Mentions;
    if steps != [] {
      StepKeepsSnapshot(d, steps[0], l);
      StepKeepsSound(d, steps[0]);
      RunsKeepSnapshot(After(d, steps[0]), steps[1..], end, l);
    }
  }

  lemma {:induction false} UnchangedCommitsNothing(d: Desk, inputs: seq<Input>, ids: seq<LineId>, uuids: LineId -> nat)
    requires Preparable(d, inputs, ids) && forall l :: l in ids ==> PrepareLine(d, inputs, l) == Unchanged
    ensures CommitAll(d, inputs, ids, uuids) == d
  {
    hide PrepareLine, Ready;
    if ids != [] {
      assert ids[|ids| - 1] in ids && forall l :: l in ids[..|ids| - 1] ==> l in ids;
      UnchangedCommitsNothing(d, inputs, ids[..|ids| - 1], uuids);
    }
  }

  lemma {:induction false} UnchangedIsNoError(d: Desk, inputs: seq<Input>, ids: seq<LineId>)
    requires Preparable(d, inputs, ids) && forall l :: l in ids ==> PrepareLine(d, inputs, l) == Unchanged
    ensures FirstError(d, inputs, ids) == None
  {
    hide PrepareLine, Ready;
    if ids != [] {
      assert ids[0] in ids && forall l :: l in ids[1..] ==> l in ids;
      UnchangedIsNoError(d, inputs, ids[1..]);
    }
  }

  lemma RecognizedRecordsNothing(d: Desk, inputs: seq<Input>, uuids: LineId -> nat)
    requires Ready(d) && Belongs(d, inputs)
    requires forall l :: l in d.order && RowsOf(inputs, l) != [] ==> PrepareLine(d, inputs, l) == Unchanged
    ensures Record(d, inputs, uuids) == (None, d)
  {
    hide PrepareLine, Ready;
    LinesHaveRows(inputs);
    UnchangedIsNoError(d, inputs, LinesOf(inputs));
    UnchangedCommitsNothing(d, inputs, LinesOf(inputs), uuids);
  }

  /** again asks for some lines of inputs, each with the same rows in any order and whatever revision it expects. */
  ghost predicate Resends(again: seq<Input>, inputs: seq<Input>) {
    forall l :: RowsOf(again, l) != [] ==> multiset(RowsOf(again, l)) == multiset(RowsOf(inputs, l))
  }

  lemma ResentLines(again: seq<Input>, inputs: seq<Input>, l: LineId)
    requires Resends(again, inputs) && RowsOf(again, l) != []
    ensures RowsOf(inputs, l) != [] && l in LinesOf(inputs)
  {
    LinesHaveRows(inputs);
    assert RowsOf(again, l)[0] in multiset(RowsOf(inputs, l));
  }

  /** The canonical retry: once a submission was accepted, sending it again in any order, whole or for some of its
      lines, is accepted and changes no stock, loss, snapshot or revision, whatever happened in between, as long as no
      other submission names those lines and their products keep their quantities. Costs, prices and the exchange rate
      may change. */
  lemma RetryChangesNothing(d: Desk, inputs: seq<Input>, uuids: LineId -> nat, between: seq<DeskStep>, later: Desk,
                            again: seq<Input>, uuids': LineId -> nat)
    requires Sound(d) && Ready(d) && FreshUuids(d, uuids) && Record(d, inputs, uuids).0 == None
    requires DeskRuns(Record(d, inputs, uuids).1, between, later) && Ready(later)
    requires forall k, l :: 0 <= k < |between| && l in LinesOf(inputs) ==> !Mentions(between[k], l)
    requires forall l :: l in LinesOf(inputs) && l in d.order && l in later.order ==>
             SameShape(Sold(d, l), Sold(later, l))
    requires Resends(again, inputs)
    ensures Record(later, again, uuids') == (None, later)
  {
    hide Sound, Ready, FreshUuids, Record, DeskRuns, Mentions, Resends, Holds, PrepareLine, SameShape;
    var after := Record(d, inputs, uuids).1;
    RecordIs(d, inputs, uuids);
    DeskStaysSound(after, between, later);
    forall l | RowsOf(again, l) != [] ensures l in later.order && PrepareLine(later, again, l) == Unchanged {
      ResentLines(again, inputs, l);
      RecordedHolds(d, inputs, uuids, l);
      RunsKeepSnapshot(after, between, later, l);
      RetryOfLine(d, inputs, later, again, l);
    }
    LinesHaveRows(again);
    RecognizedRecordsNothing(later, again, uuids');
  }

  lemma RetryOfLine(d: Desk, inputs: seq<Input>, later: Desk, again: seq<Input>, l: LineId)
    requires Ready(d) && Ready(later) && l in d.order && l in later.order
    requires Holds(Saved(later, l), Sold(d, l), RowsOf(inputs, l)) && SameShape(Sold(d, l), Sold(later, l))
    requires Resends(again, inputs) && RowsOf(again, l) != []
    ensures PrepareLine(later, again, l) == Unchanged
  {
    hide SameShape, Prepare, Requests, EntriesOf, RowsAccepted, Sellable;
    ReadySells(later, l);
    RowsAreRecognized(Sold(d, l), RowsOf(inputs, l), Saved(later, l).value, Sold(later, l),
                      later.stock.lines[l].revision, RowsOf(again, l), ExpectedOf(again, l));
  }
}
