/** What every run of submissions, carrier outcomes and stock steps keeps of a desk, and what no run can do. */
module ReturnRuns {
  import opened Basics
  import opened StockFlows
  import opened Catalogue
  import opened OrderStock
  import opened StockRuns
  import opened StockReturns
  import opened ReturnConditions
  import opened ReturnEntries
  import opened ReturnStock
  import opened ReturnDesk
  import Ledger = OrderLedger
  import Carrier = CarrierOutcome

  function SavedLoss(d: Desk, l: LineId): int { if l in d.saved then d.saved[l].loss else 0 }

  /** Legal accounts, returns booked under the lines' revisions so far, a well-booked ledger, and every line's booked
      loss the loss of its current snapshot. */
  ghost predicate Sound(d: Desk) {
    && Placed(d) && BookLegal(d.stock.accounts) && Ledger.WellBooked(d.ledger)
    && forall l :: l in d.order ==> Numbered(d.stock, l) && Ledger.BookedLoss(d.ledger, l) == SavedLoss(d, l)
  }

  ghost predicate FreshUuids(d: Desk, uuids: LineId -> nat) {
    forall l :: l in d.order ==> Ledger.Find(d.ledger, Ledger.LossChangeKey(l, uuids(l))) == None
  }

  function Revision(d: Desk, l: LineId): int
    requires l in d.stock.lines
  {
    d.stock.lines[l].revision
  }

  // ---- Committing ----

  /** What a snapshot must be for its targets to be sound. */
  ghost predicate Countable(s: Snapshot) {
    forall i, fate :: Count(s.entries, i, fate) >= 0
  }

  lemma PreparedIsCountable(line: SoldLine, saved: Option<Snapshot>, revision: int, rows: seq<Allocation>,
                            expected: set<int>)
    requires Sellable(line) && rows != []
    ensures var p := Prepare(line, saved, revision, rows, expected);
            p.Replaces? ==> Countable(p.snapshot) && forall e :: e in expected ==> e == revision
  {
    var p := Prepare(line, saved, revision, rows, expected);
    if p.Replaces? {
      OrderedPieces(line, rows);
      forall i, fate ensures Count(p.snapshot.entries, i, fate) >= 0 {
        CountsAreCounts(line, rows, i, fate);
      }
    }
  }

  lemma TargetsAllowed(s: Snapshot, earlier: seq<Entry>, delivered: bool, ts: map<ItemId, Target>)
    requires Countable(s) && ts == WithOldItems(TargetsOf(s.entries, delivered), earlier)
    ensures forall i :: i in ts ==> ts[i].damaged >= 0
  {
    var current := TargetsOf(s.entries, delivered);
    forall i | i in current ensures current[i].damaged >= 0 {
      TargetCounts(s.entries, i, delivered);
      assert current[i] == AtItem(current, i) && Count(s.entries, i, Spoilt) >= 0;
    }
  }

  lemma ReconcileKeepsLines(s: Store, l: LineId, targets: map<ItemId, Target>)
    requires l in s.lines
    ensures var s' := ReconcileLine(s, l, targets);
            && s'.lines.Keys == s.lines.Keys
            && s'.lines[l].revision == s.lines[l].revision + 1
            && (s'.lines[l].status == Some(LineDelivered) <==> s.lines[l].status == Some(LineDelivered))
            && forall other :: other in s.lines && other != l ==> s'.lines[other] == s.lines[other]
  {
  }

  lemma CommitKeepsSound(d: Desk, l: LineId, s: Snapshot, uuid: nat)
    requires Sound(d) && l in d.order && Countable(s)
    requires Ledger.Find(d.ledger, Ledger.LossChangeKey(l, uuid)) == None
    ensures Sound(Commit(d, l, s, uuid)) && Revision(Commit(d, l, s, uuid), l) == Revision(d, l) + 1
    ensures forall other :: other in d.stock.lines && other != l ==>
              Commit(d, l, s, uuid).stock.lines[other] == d.stock.lines[other]
  {
    hide BookLegal, Numbered, Continues, ReconcileLine, Ledger.WellBooked, Ledger.Find, Ledger.SetLoss,
         Ledger.BookedLoss;
    var delivered := d.stock.lines[l].status == Some(LineDelivered);
    var targets := WithOldItems(TargetsOf(s.entries, delivered), SavedEntries(d, l));
    TargetsAllowed(s, SavedEntries(d, l), delivered, targets);
    StepKeepsBook(d.stock, ReturnStep(l, targets));
    forall k | k in d.order ensures Numbered(ReconcileLine(d.stock, l, targets), k) {
      StepStaysNumbered(d.stock, ReturnStep(l, targets), k);
    }
    ReconcileKeepsLines(d.stock, l, targets);
    Ledger.SetLossReachesTarget(d.ledger, l, s.loss, uuid);
  }

  /** A committed snapshot's targets are all met exactly when, for every item, the balance aimed for is valid once the
      line is released; items without a target have nothing back. */
  lemma CommitMeetsTargets(d: Desk, l: LineId, s: Snapshot, uuid: nat)
    requires BookLegal(d.stock.accounts) && Numbered(d.stock, l) && l in d.stock.lines && Countable(s)
    ensures var ts := TargetsOf(s.entries, d.stock.lines[l].status == Some(LineDelivered));
            (forall i :: AtTarget(Commit(d, l, s, uuid).stock, l, i, TargetAt(ts, i))) <==>
            forall i :: Aimed(ViewOf(AccountOf(ReleaseLine(d.stock, l).accounts, i), l), TargetAt(ts, i)).Valid()
  {
    hide BookLegal, Numbered, ReconcileLine, ReleaseLine, AtTarget, Aimed, AccountOf, ViewOf, Countable;
    var delivered := d.stock.lines[l].status == Some(LineDelivered);
    var targets := WithOldItems(TargetsOf(s.entries, delivered), SavedEntries(d, l));
    TargetsAllowed(s, SavedEntries(d, l), delivered, targets);
    assert forall i :: TargetAt(targets, i) == TargetAt(TargetsOf(s.entries, delivered), i);
    ReturnMeetsTargets(d.stock, l, targets);
  }

  lemma OtherKeysStayFresh(d: Desk, l: LineId, s: Snapshot, uuid: nat, other: LineId, u: nat)
    requires l in d.stock.lines && other != l && Ledger.Find(d.ledger, Ledger.LossChangeKey(other, u)) == None
    ensures Ledger.Find(Commit(d, l, s, uuid).ledger, Ledger.LossChangeKey(other, u)) == None
  {
  }

  /** A line's row, snapshot, reservations and net returns are as they were. */
  ghost predicate Untouched(d: Desk, after: Desk, l: LineId) {
    && l in d.stock.lines && l in after.stock.lines && after.stock.lines[l] == d.stock.lines[l]
    && Saved(after, l) == Saved(d, l)
    && OthersKept(d.stock.accounts, after.stock.accounts, l)
  }

  lemma CommitLeavesOthers(d: Desk, before: Desk, l: LineId, s: Snapshot, uuid: nat, other: LineId)
    requires Sound(before) && l in before.order && Countable(s) && other != l && Untouched(d, before, other)
    ensures Untouched(d, Commit(before, l, s, uuid), other)
  {
    hide Numbered, OthersKept, ReconcileLine, Ledger.WellBooked, Ledger.SetLoss, Ledger.BookedLoss, BookLegal;
    var delivered := before.stock.lines[l].status == Some(LineDelivered);
    var targets := WithOldItems(TargetsOf(s.entries, delivered), SavedEntries(before, l));
    TargetsAllowed(s, SavedEntries(before, l), delivered, targets);
    ReconcileKeepsLines(before.stock, l, targets);
    ReturnKeepsOthers(before.stock, l, targets, other);
    KeptTrans(d.stock.accounts, before.stock.accounts, ReconcileLine(before.stock, l, targets).accounts, other);
  }

  /** What committing a list of lines has done so far. */
  ghost predicate Committed(d: Desk, after: Desk, inputs: seq<Input>, ids: seq<LineId>, uuids: LineId -> nat)
    requires Preparable(d, inputs, ids)
  {
    && Sound(after) && after.order == d.order
    && (forall l :: l in d.order && l !in ids ==> Ledger.Find(after.ledger, Ledger.LossChangeKey(l, uuids(l))) == None)
    && (forall l :: l in d.order ==>
          Revision(after, l) == Revision(d, l) + if l in ids && PrepareLine(d, inputs, l).Replaces? then 1 else 0)
    && forall l :: l in ids && PrepareLine(d, inputs, l).Replaces? ==>
         Saved(after, l) == Some(PrepareLine(d, inputs, l).snapshot)
  }

  /** No other line notices. */
  ghost predicate OthersUntouched(d: Desk, after: Desk, inputs: seq<Input>, ids: seq<LineId>)
    requires Preparable(d, inputs, ids)
  {
    forall l :: l in d.order && !(l in ids && PrepareLine(d, inputs, l).Replaces?) ==> Untouched(d, after, l)
  }

  lemma NothingTouched(d: Desk, l: LineId)
    requires Placed(d) && l in d.order
    ensures Untouched(d, d, l)
  {
  }

  lemma UntouchedNext(d: Desk, before: Desk, inputs: seq<Input>, ids: seq<LineId>, l: LineId, uuid: nat)
    requires Preparable(d, inputs, ids + [l]) && Preparable(d, inputs, ids) && l in before.order
    requires Sound(before) && OthersUntouched(d, before, inputs, ids)
    ensures var p := PrepareLine(d, inputs, l);
            OthersUntouched(d, if p.Replaces? then Commit(before, l, p.snapshot, uuid) else before, inputs, ids + [l])
  {
    hide Sound, Commit, PrepareLine, Ready, RowsOf, Untouched, Countable;
    var p := PrepareLine(d, inputs, l);
    assert forall k :: k in ids ==> k in ids + [l];
    LineIsCountable(d, inputs, l);
    SoundIsPlaced(before);
    if p.Replaces? {
      forall k | k in d.order && !(k in ids + [l] && PrepareLine(d, inputs, k).Replaces?)
        ensures Untouched(d, Commit(before, l, p.snapshot, uuid), k)
      {
        CommitLeavesOthers(d, before, l, p.snapshot, uuid, k);
      }
    }
  }

  lemma {:induction false} CommitAllIs(d: Desk, inputs: seq<Input>, ids: seq<LineId>, uuids: LineId -> nat)
    requires Sound(d) && FreshUuids(d, uuids) && Preparable(d, inputs, ids)
    requires forall j, k :: 0 <= j < k < |ids| ==> ids[j] != ids[k]
    ensures Committed(d, CommitAll(d, inputs, ids, uuids), inputs, ids, uuids)
    ensures OthersUntouched(d, CommitAll(d, inputs, ids, uuids), inputs, ids)
  {
    hide Sound, Ledger.Find, Commit, PrepareLine, Ready, Sold, RowsOf, Untouched;
    SoundIsPlaced(d);
    if ids == [] {
      forall l | l in d.order ensures Untouched(d, d, l) {
        NothingTouched(d, l);
      }
    } else {
      var n, l := |ids| - 1, ids[|ids| - 1];
      assert ids == ids[..n] + [l] && l !in ids[..n];
      assert forall k :: k in ids[..n] ==> k in ids;
      CommitAllIs(d, inputs, ids[..n], uuids);
      CommitNext(d, CommitAll(d, inputs, ids[..n], uuids), inputs, ids[..n], l, uuids);
      UntouchedNext(d, CommitAll(d, inputs, ids[..n], uuids), inputs, ids[..n], l, uuids(l));
    }
  }

  lemma SoundIsPlaced(d: Desk)
    requires Sound(d)
    ensures Placed(d)
  {
  }

  lemma LineIsCountable(d: Desk, inputs: seq<Input>, l: LineId)
    requires Ready(d) && l in d.order && RowsOf(inputs, l) != []
    ensures Placed(d)
    ensures PrepareLine(d, inputs, l).Replaces? ==> Countable(PrepareLine(d, inputs, l).snapshot)
  {
    ReadySells(d, l);
    PreparedIsCountable(Sold(d, l), Saved(d, l), d.stock.lines[l].revision, RowsOf(inputs, l), ExpectedOf(inputs, l));
  }

  lemma CommitNext(d: Desk, before: Desk, inputs: seq<Input>, ids: seq<LineId>, l: LineId, uuids: LineId -> nat)
    requires Preparable(d, inputs, ids + [l]) && Preparable(d, inputs, ids) && l !in ids
    requires l in before.stock.lines && Committed(d, before, inputs, ids, uuids)
    ensures var p := PrepareLine(d, inputs, l);
            Committed(d, if p.Replaces? then Commit(before, l, p.snapshot, uuids(l)) else before, inputs, ids + [l],
                      uuids)
  {
    hide Sound, Ledger.Find, Commit, PrepareLine, Ready, RowsOf, Countable;
    var p := PrepareLine(d, inputs, l);
    assert l in ids + [l] && forall k :: k in ids ==> k in ids + [l];
    LineIsCountable(d, inputs, l);
    SoundIsPlaced(before);
    if p.Replaces? {
      var after := Commit(before, l, p.snapshot, uuids(l));
      CommitKeepsSound(before, l, p.snapshot, uuids(l));
      CommitSaves(before, l, p.snapshot, uuids(l));
      forall k | k in d.order && k !in ids + [l]
        ensures Ledger.Find(after.ledger, Ledger.LossChangeKey(k, uuids(k))) == None
      {
        OtherKeysStayFresh(before, l, p.snapshot, uuids(l), k, uuids(k));
      }
      SoundIsPlaced(after);
    }
  }

  lemma ReadySells(d: Desk, l: LineId)
    requires Ready(d) && l in d.order
    ensures Placed(d) && Sellable(Sold(d, l))
  {
  }

  lemma CommitSaves(d: Desk, l: LineId, s: Snapshot, uuid: nat)
    requires l in d.stock.lines
    ensures var after := Commit(d, l, s, uuid);
            && after.order == d.order && after.saved == d.saved[l := s]
            && after.stock.lines.Keys == d.stock.lines.Keys
  {
  }

  // ---- Submissions ----

  /** Whether a submission changes a line. */
  ghost predicate TakesEffect(d: Desk, inputs: seq<Input>, uuids: LineId -> nat, l: LineId)
    requires Ready(d)
  {
    && Record(d, inputs, uuids).0 == None
    && l in d.order && RowsOf(inputs, l) != [] && PrepareLine(d, inputs, l).Replaces?
  }

  /** A rejected submission changes nothing. An accepted one gives each line it changes exactly the next revision, the
      prepared snapshot and a booked loss equal to the snapshot's; every other line keeps its row, snapshot,
      reservations and net returns. */
  lemma RecordIs(d: Desk, inputs: seq<Input>, uuids: LineId -> nat)
    requires Sound(d) && Ready(d) && FreshUuids(d, uuids)
    ensures var (error, after) := Record(d, inputs, uuids);
            && Sound(after) && after.order == d.order
            && (error.Some? ==> after == d)
            && forall l :: l in d.order ==>
                 && Revision(after, l) == Revision(d, l) + (if TakesEffect(d, inputs, uuids, l) then 1 else 0)
                 && (TakesEffect(d, inputs, uuids, l) ==> Saved(after, l) == Some(PrepareLine(d, inputs, l).snapshot))
                 && (!TakesEffect(d, inputs, uuids, l) ==> Untouched(d, after, l))
  {
    hide Sound, CommitAll, FirstError, PrepareLine, Ledger.Find, Untouched;
    SoundIsPlaced(d);
    forall l | l in d.order ensures Untouched(d, d, l) {
      NothingTouched(d, l);
    }
    if Record(d, inputs, uuids).0 == None {
      LinesHaveRows(inputs);
      CommitAllIs(d, inputs, LinesOf(inputs), uuids);
      SoundIsPlaced(Record(d, inputs, uuids).1);
    }
  }

  /** A change of a line happens only at the revision its rows expect. */
  lemma EffectMeetsRevision(d: Desk, inputs: seq<Input>, uuids: LineId -> nat, l: LineId)
    requires Ready(d) && TakesEffect(d, inputs, uuids, l)
    ensures forall e :: e in ExpectedOf(inputs, l) ==> e == Revision(d, l)
  {
    ReadySells(d, l);
    PreparedIsCountable(Sold(d, l), Saved(d, l), d.stock.lines[l].revision, RowsOf(inputs, l), ExpectedOf(inputs, l));
  }

  // ---- Recording keeps what is prepared from ----

  /** Both desks sell the same lines. */
  ghost predicate SellsSame(d: Desk, after: Desk) {
    && after.order == d.order && after.prices == d.prices && after.rate == d.rate
    && after.stock.lines.Keys == d.stock.lines.Keys
    && forall l :: l in d.stock.lines ==> after.stock.lines[l].quantity == d.stock.lines[l].quantity &&
                                          after.stock.lines[l].variant == d.stock.lines[l].variant
  }

  lemma CommitSellsSame(d: Desk, l: LineId, s: Snapshot, uuid: nat)
    requires l in d.stock.lines
    ensures SellsSame(d, Commit(d, l, s, uuid))
  {
    hide ReconcileTargets, AllTargets, ReleaseEverywhere, TargetsOf, WithOldItems, Ledger.SetLoss;
  }

  lemma {:induction false} CommitAllSellsSame(d: Desk, inputs: seq<Input>, ids: seq<LineId>, uuids: LineId -> nat)
    requires Preparable(d, inputs, ids)
    ensures SellsSame(d, CommitAll(d, inputs, ids, uuids))
  {
    hide Ready, PrepareLine, Commit;
    if ids != [] {
      var l := ids[|ids| - 1];
      assert forall k :: k in ids[..|ids| - 1] ==> k in ids;
      var before := CommitAll(d, inputs, ids[..|ids| - 1], uuids);
      CommitAllSellsSame(d, inputs, ids[..|ids| - 1], uuids);
      if PrepareLine(d, inputs, l).Replaces? {
        ReadySells(d, l);
        CommitSellsSame(before, l, PrepareLine(d, inputs, l).snapshot, uuids(l));
      }
    }
  }

  /** After a submission the desk is ready for the next. */
  lemma RecordStaysReady(d: Desk, inputs: seq<Input>, uuids: LineId -> nat)
    requires Ready(d)
    ensures Ready(Record(d, inputs, uuids).1)
  {
    hide PrepareLine, CommitAll, FirstError, Sellable;
    if Record(d, inputs, uuids).0 == None {
      LinesHaveRows(inputs);
      CommitAllSellsSame(d, inputs, LinesOf(inputs), uuids);
    }
  }

  // ---- Runs ----

  datatype DeskStep =
    | Submit(inputs: seq<Input>, uuids: LineId -> nat)
    | CarrierReport(ids: seq<LineId>, report: Ledger.Report, deliveredAt: Option<int>)
    | StockChange(step: Step)
    | Reprice(prices: map<LineId, real>, rate: real)

  /** The order's lines stay, and only submissions record what came back of them. Reservations of any line may be
      interleaved and late, and every submission may find other prices and another exchange rate. */
  ghost predicate Allowed(d: Desk, step: DeskStep) {
    match step
    case Submit(_, uuids) => Ready(d) && FreshUuids(d, uuids)
    case CarrierReport(_, report, _) => !report.Loss?
    case StockChange(s) =>
      Enabled(d.stock, s) && ((s.ReturnStep? || s.DropLine?) ==> s.l !in d.order)
    case Reprice(prices, _) => d.order <= prices.Keys
  }

  function After(d: Desk, step: DeskStep): Desk
    requires step.Submit? ==> Ready(d)
  {
    match step
    case Submit(inputs, uuids) => Record(d, inputs, uuids).1
    case CarrierReport(ids, report, at) =>
      var o := Carrier.SyncOrder(Carrier.OrderState(d.ledger, d.stock), ids, Some(report), at);
      d.(stock := o.stock, ledger := o.ledger)
    case StockChange(s) => d.(stock := Next(d.stock, s))
    case Reprice(prices, rate) => d.(prices := prices, rate := rate)
  }

  ghost predicate DeskRuns(d: Desk, steps: seq<DeskStep>, end: Desk)
    decreases |steps|
  {
    if steps == [] then end == d else Allowed(d, steps[0]) && DeskRuns(After(d, steps[0]), steps[1..], end)
  }

  /** Lines stay and revisions never fall. */
  ghost predicate RevisionsRise(d: Desk, after: Desk) {
    && Placed(d) && Placed(after) && after.order == d.order
    && forall l :: l in d.order ==> Revision(d, l) <= Revision(after, l)
  }

  lemma {:induction false} FlowsKeepRevisions(s: Store, ids: seq<LineId>, flow: Flow)
    ensures ApplyAll(s, ids, flow).lines.Keys == s.lines.Keys
    ensures forall l :: l in s.lines ==> ApplyAll(s, ids, flow).lines[l].revision == s.lines[l].revision
  {
    hide Expand, DeliverUnits, ReserveUnits, DeliverOrphans, ReleaseEverywhere;
    if ids != [] {
      FlowsKeepRevisions(s, ids[..|ids| - 1], flow);
    }
  }

  lemma {:induction false} FlowsStayNumbered(s: Store, ids: seq<LineId>, flow: Flow, l: LineId)
    requires BookLegal(s.accounts) && Numbered(s, l)
    ensures BookLegal(ApplyAll(s, ids, flow).accounts) && Numbered(ApplyAll(s, ids, flow), l)
  {
    hide BookLegal, Numbered, Apply;
    if ids != [] {
      var rest := ApplyAll(s, ids[..|ids| - 1], flow);
      FlowsStayNumbered(s, ids[..|ids| - 1], flow, l);
      BookStaysLegalAll(s, ids, flow);
      StepStaysNumbered(rest, FlowStep(ids[|ids| - 1], flow), l);
    }
  }

  lemma ReportKeepsSound(d: Desk, ids: seq<LineId>, report: Ledger.Report, deliveredAt: Option<int>)
    requires Sound(d) && !report.Loss?
    ensures var after := After(d, CarrierReport(ids, report, deliveredAt));
            Sound(after) && RevisionsRise(d, after)
  {
    hide BookLegal, Numbered, Ledger.WellBooked, Ledger.Book, Ledger.BookedLoss, ApplyAll;
    var flow := if report.Delivered? then DeliverFlow(deliveredAt) else ReleaseFlow;
    BookStaysLegalAll(d.stock, ids, flow);
    forall l | l in d.order ensures Numbered(ApplyAll(d.stock, ids, flow), l) {
      FlowsStayNumbered(d.stock, ids, flow, l);
    }
    FlowsKeepRevisions(d.stock, ids, flow);
    Ledger.BookKeepsBooks(d.ledger, report);
    forall l ensures Ledger.BookedLoss(Ledger.Book(d.ledger, report), l) == Ledger.BookedLoss(d.ledger, l) {
      Ledger.OtherReportsKeepLoss(d.ledger, report, l);
    }
  }

  lemma StockChangeKeepsSound(d: Desk, s: Step)
    requires Sound(d) && Allowed(d, StockChange(s))
    ensures var after := After(d, StockChange(s));
            Sound(after) && RevisionsRise(d, after)
  {
    hide BookLegal, Numbered, Ledger.WellBooked, Ledger.BookedLoss, Next, Enabled, Continues;
    StepKeepsBook(d.stock, s);
    forall l | l in d.order
      ensures Numbered(Next(d.stock, s), l) && l in Next(d.stock, s).lines
      ensures Next(d.stock, s).lines[l].revision >= d.stock.lines[l].revision
    {
      StepStaysNumbered(d.stock, s, l);
      StaysListed(d.stock, s, l);
      RowAfter(d.stock, s, l);
    }
  }

  lemma StaysListed(s: Store, step: Step, l: LineId)
    requires l in s.lines && !(step.DropLine? && step.l == l)
    ensures l in Next(s, step).lines
  {
    hide DeliverUnits, ReserveUnits, DeliverOrphans, ReleaseEverywhere, Expand, ReconcileTargets, AllTargets;
  }

  lemma RepriceKeepsSound(d: Desk, prices: map<LineId, real>, rate: real)
    requires Sound(d) && d.order <= prices.Keys
    ensures Sound(After(d, Reprice(prices, rate))) && RevisionsRise(d, After(d, Reprice(prices, rate)))
  {
    hide BookLegal, Numbered, Ledger.WellBooked, Ledger.BookedLoss;
  }

  lemma StepKeepsSound(d: Desk, step: DeskStep)
    requires Sound(d) && Allowed(d, step)
    ensures Sound(After(d, step)) && RevisionsRise(d, After(d, step))
  {
    hide Sound, Record, ApplyAll, Ledger.Book, TakesEffect, PrepareLine;
    match step {
      case Submit(inputs, uuids) =>
        RecordIs(d, inputs, uuids);
        SoundIsPlaced(d);
        SoundIsPlaced(After(d, step));
      case CarrierReport(ids, report, at) => ReportKeepsSound(d, ids, report, at);
      case StockChange(s) => StockChangeKeepsSound(d, s);
      case Reprice(prices, rate) => RepriceKeepsSound(d, prices, rate);
    }
  }

  /** Over every run of submissions and corrections, carrier outcomes, stock changes of any line and changes of prices
      and rate: accounts stay legal, the ledger well booked, each line's booked losses sum to its current snapshot's
      loss, and revisions only rise. */
  lemma {:induction false} DeskStaysSound(d: Desk, steps: seq<DeskStep>, end: Desk)
    requires Sound(d) && DeskRuns(d, steps, end)
    ensures Sound(end) && RevisionsRise(d, end)
    decreases |steps|
  {
    hide Sound, After, Ready, FreshUuids;
    SoundIsPlaced(d);
    if steps != [] {
      StepKeepsSound(d, steps[0]);
      DeskStaysSound(After(d, steps[0]), steps[1..], end);
    }
  }

  /** No lost update: of all submissions that expect the same revision of a line, at any points of a run, at most one
      changes the line. */
  lemma AtMostOneTakesEffect(d: Desk, first: seq<Input>, uuids: LineId -> nat, between: seq<DeskStep>, later: Desk,
                             second: seq<Input>, uuids': LineId -> nat, l: LineId, revision: int)
    requires Sound(d) && Ready(d) && FreshUuids(d, uuids) && TakesEffect(d, first, uuids, l)
    requires DeskRuns(Record(d, first, uuids).1, between, later) && Ready(later)
    requires exists x :: x in first && x.line == l && x.expected == Some(revision)
    requires exists x :: x in second && x.line == l && x.expected == Some(revision)
    ensures !TakesEffect(later, second, uuids', l)
  {
    hide Sound, Record, PrepareLine, Ready, DeskRuns, FreshUuids;
    assert revision in ExpectedOf(first, l) && revision in ExpectedOf(second, l);
    RecordIs(d, first, uuids);
    EffectMeetsRevision(d, first, uuids, l);
    SoundIsPlaced(d);
    SoundIsPlaced(Record(d, first, uuids).1);
    DeskStaysSound(Record(d, first, uuids).1, between, later);
    if TakesEffect(later, second, uuids', l) {
      EffectMeetsRevision(later, second, uuids', l);
    }
  }

  // ---- No delivery is booked before its line says so ----

  lemma {:induction false} CommitAllStaysInStep(d: Desk, inputs: seq<Input>, ids: seq<LineId>, uuids: LineId -> nat,
                                                l: LineId)
    requires Preparable(d, inputs, ids) && BookLegal(d.stock.accounts) && InStep(d.stock, l)
    ensures var after := CommitAll(d, inputs, ids, uuids).stock;
            BookLegal(after.accounts) && InStep(after, l)
  {
    hide Ready, PrepareLine, BookLegal, InStep, Countable, RowsOf, ReconcileLine, Continues, TargetsOf, WithOldItems;
    if ids != [] {
      var k, n := ids[|ids| - 1], |ids| - 1;
      assert forall m :: m in ids[..n] ==> m in ids;
      var before := CommitAll(d, inputs, ids[..n], uuids);
      CommitAllStaysInStep(d, inputs, ids[..n], uuids, l);
      LineIsCountable(d, inputs, k);
      var p := PrepareLine(d, inputs, k);
      if p.Replaces? {
        var delivered := before.stock.lines[k].status == Some(LineDelivered);
        var targets := WithOldItems(TargetsOf(p.snapshot.entries, delivered), SavedEntries(before, k));
        TargetsAllowed(p.snapshot, SavedEntries(before, k), delivered, targets);
        StepKeepsBook(before.stock, ReturnStep(k, targets));
        StepStaysInStep(before.stock, ReturnStep(k, targets), l);
      }
    }
  }

  lemma {:induction false} FlowsStayInStep(s: Store, ids: seq<LineId>, flow: Flow, l: LineId)
    requires BookLegal(s.accounts) && InStep(s, l)
    ensures BookLegal(ApplyAll(s, ids, flow).accounts) && InStep(ApplyAll(s, ids, flow), l)
  {
    hide BookLegal, InStep, Apply;
    if ids != [] {
      FlowsStayInStep(s, ids[..|ids| - 1], flow, l);
      BookStaysLegalAll(s, ids, flow);
      StepStaysInStep(ApplyAll(s, ids[..|ids| - 1], flow), FlowStep(ids[|ids| - 1], flow), l);
    }
  }

  predicate DeskLateMark(d: Desk, step: DeskStep, l: LineId) { step.StockChange? && LateMark(d.stock, step.step, l) }

  ghost predicate NoDeskLateMark(d: Desk, steps: seq<DeskStep>, l: LineId)
    decreases |steps|
  {
    steps != [] && Allowed(d, steps[0]) ==>
      !DeskLateMark(d, steps[0], l) && NoDeskLateMark(After(d, steps[0]), steps[1..], l)
  }

  lemma DeskStepStaysInStep(d: Desk, step: DeskStep, l: LineId)
    requires BookLegal(d.stock.accounts) && InStep(d.stock, l) && Allowed(d, step) && !DeskLateMark(d, step, l)
    ensures BookLegal(After(d, step).stock.accounts) && InStep(After(d, step).stock, l)
  {
    hide BookLegal, InStep, CommitAll, FirstError, ApplyAll, Next, Enabled, LateMark, Ready, Continues, Ledger.Book;
    match step {
      case Submit(inputs, uuids) =>
        LinesHaveRows(inputs);
        if Record(d, inputs, uuids).0 == None {
          CommitAllStaysInStep(d, inputs, LinesOf(inputs), uuids, l);
        }
      case CarrierReport(ids, report, at) => FlowsStayInStep(d.stock, ids, Carrier.FlowFor(report, at), l);
      case StockChange(s) =>
        StepKeepsBook(d.stock, s);
        StepStaysInStep(d.stock, s, l);
      case Reprice(_, _) =>
    }
  }

  /** Over every run in which the line itself is not marked after its delivery. */
  lemma {:induction false} DeskStaysInStep(d: Desk, steps: seq<DeskStep>, end: Desk, l: LineId)
    requires BookLegal(d.stock.accounts) && InStep(d.stock, l) && DeskRuns(d, steps, end) && NoDeskLateMark(d, steps, l)
    ensures BookLegal(end.stock.accounts) && InStep(end.stock, l)
    decreases |steps|
  {
    hide BookLegal, InStep, After, DeskLateMark, Ready, FreshUuids;
    if steps != [] {
      DeskStepStaysInStep(d, steps[0], l);
      DeskStaysInStep(After(d, steps[0]), steps[1..], end, l);
    }
  }
}
