/** The condition service over its stock and ledger services. */
module ReturnService {
  import opened Basics
  import opened OrderStock
  import opened StockService
  import opened OrderLedger
  import opened ReturnDesk
  import opened ReturnStock
  import ReturnRuns
  import Conditions = ReturnConditions

  class OrderConditionService {
    const stock: OrderStockService
    const ledger: OrderLedgerService
    const order: set<LineId>
    var prices: map<LineId, real>
    var rate: real
    var saved: map<LineId, Snapshot>

    ghost function Model(): Desk
      reads this, stock, ledger
    {
      Desk(order, stock.Model(), prices, rate, saved, ledger.events)
    }

    ghost predicate Valid()
      reads this, stock, ledger
    {
      stock.Valid() && ledger.Valid() && Ready(Model())
    }

    constructor (stock: OrderStockService, ledger: OrderLedgerService, order: set<LineId>, prices: map<LineId, real>,
                 rate: real, saved: map<LineId, Snapshot>)
      requires stock.Valid() && ledger.Valid() && Ready(Desk(order, stock.Model(), prices, rate, saved, ledger.events))
      ensures Valid() && this.stock == stock && this.ledger == ledger
      ensures Model() == Desk(order, stock.Model(), prices, rate, saved, ledger.events)
    {
      this.stock, this.ledger, this.order := stock, ledger, order;
      this.prices, this.rate, this.saved := prices, rate, saved;
    }

    /** Prices change with platform updates, and the rate is fetched anew for each submission. */
    method Reprice(prices: map<LineId, real>, rate: real)
      requires Valid() && Ready(Model().(prices := prices, rate := rate))
      modifies this
      ensures Valid()
      ensures Model() == old(Model()).(prices := prices, rate := rate)
    {
      this.prices, this.rate := prices, rate;
    }

    /** Prepares every line before the first write, then commits them all. */
    method RecordConditions(inputs: seq<Input>, uuids: LineId -> nat) returns (error: Option<Conditions.Error>)
      requires Valid()
      modifies this, stock, ledger
      ensures Valid()
      ensures (error, Model()) == Record(old(Model()), inputs, uuids)
    {
      ReturnRuns.RecordStaysReady(Model(), inputs, uuids);
      if exists x :: x in inputs && x.line !in order {
        return Some(Conditions.ForeignLine);
      }
      LinesHaveRows(inputs);
      var ids := LinesOf(inputs);
      var prepared: map<LineId, Prepared>;
      error, prepared := PrepareAll(inputs, ids);
      if error == None {
        CommitPrepared(Model(), inputs, ids, prepared, uuids);
      }
    }

    /** Stops at the first line that cannot be accepted. */
    method PrepareAll(inputs: seq<Input>, ids: seq<LineId>)
        returns (error: Option<Conditions.Error>, prepared: map<LineId, Prepared>)
      requires Valid() && Preparable(Model(), inputs, ids)
      ensures error == FirstError(Model(), inputs, ids)
      ensures error == None ==> forall l :: l in ids ==> l in prepared && prepared[l] == PrepareLine(Model(), inputs, l)
    {
      hide Prepare, Ready, RowsOf, ExpectedOf;
      prepared := map[];
      for k := 0 to |ids|
        invariant forall l :: l in ids[..k] ==> l in prepared && prepared[l] == PrepareLine(Model(), inputs, l)
        invariant Preparable(Model(), inputs, ids[k..])
        invariant FirstError(Model(), inputs, ids[k..]) == FirstError(Model(), inputs, ids)
      {
        assert ids[k..][0] == ids[k] && ids[k..][1..] == ids[k + 1..] && ids[..k + 1] == ids[..k] + [ids[k]];
        var p := PrepareOne(inputs, ids[k]);
        if p.Rejected? {
          return Some(p.error), prepared;
        }
        prepared := prepared[ids[k] := p];
      }
      error := None;
      assert ids[..|ids|] == ids;
    }

    method PrepareOne(inputs: seq<Input>, l: LineId) returns (p: Prepared)
      requires Ready(Model()) && l in order && RowsOf(inputs, l) != []
      ensures p == PrepareLine(Model(), inputs, l)
    {
      var line := stock.lines[l];
      var sold := Conditions.SoldLine(line.quantity, prices[l], line.variant, rate);
      p := Prepare(sold, if l in saved then Some(saved[l]) else None, line.revision, RowsOf(inputs, l),
                   ExpectedOf(inputs, l));
    }

    method CommitPrepared(ghost before: Desk, inputs: seq<Input>, ids: seq<LineId>, prepared: map<LineId, Prepared>,
                          uuids: LineId -> nat)
      requires stock.Valid() && ledger.Valid() && Model() == before && Preparable(before, inputs, ids)
      requires forall l :: l in ids ==> l in prepared && prepared[l] == PrepareLine(before, inputs, l)
      modifies this, stock, ledger
      ensures stock.Valid() && ledger.Valid()
      ensures Model() == CommitAll(before, inputs, ids, uuids)
    {
      hide Prepare, PrepareLine, Ready, RowsOf, ExpectedOf, Commit, BookLegal, WellBooked;
      for k := 0 to |ids|
        invariant stock.Valid() && ledger.Valid() && Preparable(before, inputs, ids[..k])
        invariant Model() == CommitAll(before, inputs, ids[..k], uuids)
      {
        var l := ids[k];
        assert ids[..k + 1] == ids[..k] + [l] && ids[..k + 1][..k] == ids[..k];
        match prepared[l] {
          case Replaces(s) =>
            ReturnRuns.LineIsCountable(before, inputs, l);
            CommitLine(l, s, uuids(l));
          case _ =>
        }
      }
      assert ids[..|ids|] == ids;
    }

    method CommitLine(l: LineId, s: Snapshot, uuid: nat)
      requires stock.Valid() && ledger.Valid() && l in stock.lines && ReturnRuns.Countable(s)
      modifies this, stock, ledger
      ensures stock.Valid() && ledger.Valid() && Model() == Commit(old(Model()), l, s, uuid)
    {
      hide ReconcileLine, ReturnRuns.Countable, SetLoss, TargetsOf, BookLegal, ReturnReported, WellBooked, LastOutcome,
           BookedLoss, Find;
      var delivered := stock.lines[l].status == Some(LineDelivered);
      ghost var d := Model();
      var targets := CollectTargets(s.entries, if l in saved then saved[l].entries else [], delivered);
      ReturnRuns.TargetsAllowed(s, SavedEntries(d, l), delivered, targets);
      var updated := stock.ReconcileReturnTargets(l, targets);
      saved := saved[l := s];
      ledger.SetLineLoss(l, s.loss, uuid);
    }
  }
}
