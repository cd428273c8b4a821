/** Applying the platform's current line items to an order without recreating its rows. A row is found by its
    platform line id, unique within the order. */
module OrderLines {
  import opened Basics
  import opened StockAccounts
  import opened Catalogue
  import opened OrderStock

  type ExternalId = nat

  /** The descriptive fields, copied as a whole: names, prices, currency, platform ids. */
  type Details = nat

  datatype Write = Write(external: ExternalId, quantity: int, details: Details, variant: Option<VariantId>)

  datatype LineRow = LineRow(id: LineId, quantity: int, details: Details, variant: Option<VariantId>,
                             status: Option<StockStatus>, conditioned: bool, returnLines: nat)

  type Rows = map<ExternalId, LineRow>

  /** Stock, condition or return history pins a row to the order. */
  predicate HasHistory(r: LineRow) { r.status.Some? || r.conditioned || r.returnLines > 0 }

  predicate Sent(writes: seq<Write>, e: ExternalId) { exists k :: 0 <= k < |writes| && writes[k].external == e }

  function Update(r: LineRow, w: Write): LineRow {
    r.(quantity := w.quantity, details := w.details, variant := if r.status == None then w.variant else r.variant)
  }

  function Create(id: LineId, w: Write): LineRow {
    LineRow(id, w.quantity, w.details, w.variant, None, false, 0)
  }

  class OrderRows {
    var rows: Rows

    constructor (rows: Rows)
      ensures this.rows == rows
    {
      this.rows := rows;
    }

    method ReplaceOrderLines(writes: seq<Write>, newId: ExternalId -> LineId)
      modifies this
      ensures rows == Replaced(old(rows), writes, newId)
    {
      hide First, Sent, HasHistory, Updated;
      var existing := rows;
      rows := rows - set e | e in existing && !Sent(writes, e) && !HasHistory(existing[e]);
      var created := UpdateExisting(existing, writes);
      CreatedRows(existing, writes);
      SentExternals(writes);
      CreateMissing(created, newId);
    }

    /** Updates the known lines in place and collects the others. */
    method UpdateExisting(existing: Rows, writes: seq<Write>) returns (created: seq<Write>)
      requires forall e :: e in rows ==> e in existing && rows[e] == existing[e]
      requires forall e :: e in existing && Sent(writes, e) ==> e in rows
      modifies this
      ensures rows.Keys == old(rows.Keys) && created == Unknown(existing, writes)
      ensures forall e :: e in rows ==> rows[e] == Updated(existing[e], writes, e)
    {
      hide Sent, Update;
      created := [];
      for k := 0 to |writes|
        invariant rows.Keys == old(rows.Keys) && created == Unknown(existing, writes[..k])
        invariant forall e :: e in rows ==> rows[e] == Updated(existing[e], writes[..k], e)
      {
        assert writes[..k + 1][..k] == writes[..k];
        var w := writes[k];
        if w.external !in existing {
          created := created + [w];
          continue;
        }
        SentAt(writes, k);
        rows := rows[w.external := Update(rows[w.external], w)];
      }
      assert writes[..|writes|] == writes;
    }

    /** Inserts the new lines; a repeated platform id is skipped. */
    method CreateMissing(created: seq<Write>, newId: ExternalId -> LineId)
      modifies this
      ensures forall e :: e in rows <==> e in old(rows) || Sent(created, e)
      ensures forall e :: e in rows ==>
                rows[e] == if e in old(rows) then old(rows)[e] else Create(newId(e), First(created, e))
    {
      hide Sent, First, Create;
      NothingSent();
      for k := 0 to |created|
        invariant forall e :: e in rows <==> e in old(rows) || Sent(created[..k], e)
        invariant forall e :: e in rows ==>
                    rows[e] == if e in old(rows) then old(rows)[e] else Create(newId(e), First(created[..k], e))
      {
        var w := created[k];
        SentNext(created, k);
        if w.external !in rows {
          rows := rows[w.external := Create(newId(w.external), w)];
        }
      }
      assert created[..|created|] == created;
    }
  }

  lemma SentAt(writes: seq<Write>, k: nat)
    requires k < |writes|
    ensures Sent(writes, writes[k].external)
  {
  }

  lemma NothingSent()
    ensures forall e :: !Sent([], e)
  {
  }

  lemma SentExternals(writes: seq<Write>)
    ensures forall e :: Sent(writes, e) ==> e in Externals(writes)
  {
    forall e | Sent(writes, e) ensures e in Externals(writes) {
      assert First(writes, e) in writes;
    }
  }

  lemma SentNext(writes: seq<Write>, k: nat)
    requires k < |writes|
    ensures forall e :: Sent(writes[..k + 1], e) <==> Sent(writes[..k], e) || writes[k].external == e
    ensures forall e :: Sent(writes[..k], e) ==> First(writes[..k + 1], e) == First(writes[..k], e)
    ensures !Sent(writes[..k], writes[k].external) ==> First(writes[..k + 1], writes[k].external) == writes[k]
  {
    var next := writes[..k + 1];
    assert next[..k] == writes[..k] && next[k] == writes[k];
    forall e ensures Sent(next, e) <==> Sent(writes[..k], e) || writes[k].external == e {
      if Sent(writes[..k], e) {
        var j :| 0 <= j < k && writes[..k][j].external == e;
        assert next[j].external == e;
      }
      if Sent(next, e) {
        var j :| 0 <= j <= k && next[j].external == e;
        assert j < k ==> writes[..k][j].external == e;
      }
    }
  }

  function First(writes: seq<Write>, e: ExternalId): (w: Write)
    requires Sent(writes, e)
    ensures w in writes && w.external == e
  {
    var rest := writes[..|writes| - 1];
    if Sent(rest, e) then First(rest, e)
    else
      assert forall k :: 0 <= k < |writes| - 1 ==> writes[k] == rest[k];
      writes[|writes| - 1]
  }

  function Last(writes: seq<Write>, e: ExternalId): (w: Write)
    requires Sent(writes, e)
    ensures w in writes && w.external == e
  {
    if writes[|writes| - 1].external == e then writes[|writes| - 1]
    else
      assert forall k :: 0 <= k < |writes| - 1 ==> writes[k] == writes[..|writes| - 1][k];
      Last(writes[..|writes| - 1], e)
  }

  /** A row after every write that names it. */
  function Updated(r: LineRow, writes: seq<Write>, e: ExternalId): LineRow {
    if writes == [] then r
    else
      var w := writes[|writes| - 1];
      var before := Updated(r, writes[..|writes| - 1], e);
      if w.external == e then Update(before, w) else before
  }

  function Unknown(existing: Rows, writes: seq<Write>): seq<Write> {
    if writes == [] then []
    else
      Unknown(existing, writes[..|writes| - 1]) +
      (if writes[|writes| - 1].external in existing then [] else [writes[|writes| - 1]])
  }

  lemma SentPrefix(writes: seq<Write>, e: ExternalId)
    requires writes != []
    ensures Sent(writes, e) <==> Sent(writes[..|writes| - 1], e) || writes[|writes| - 1].external == e
  {
    SentNext(writes, |writes| - 1);
    assert writes[..|writes|] == writes;
  }

  lemma {:induction false} UnknownSent(existing: Rows, writes: seq<Write>, e: ExternalId)
    ensures Sent(Unknown(existing, writes), e) <==> e !in existing && Sent(writes, e)
    ensures e !in existing && Sent(writes, e) ==> First(Unknown(existing, writes), e) == First(writes, e)
  {
    if writes != [] {
      var n := |writes| - 1;
      var unknown := Unknown(existing, writes);
      UnknownSent(existing, writes[..n], e);
      SentPrefix(writes, e);
      if writes[n].external !in existing {
        assert unknown[..|unknown| - 1] == Unknown(existing, writes[..n]) && unknown[|unknown| - 1] == writes[n];
        SentPrefix(unknown, e);
      } else {
        assert unknown == Unknown(existing, writes[..n]);
      }
    }
  }

  lemma CreatedRows(existing: Rows, writes: seq<Write>)
    ensures forall e :: Sent(Unknown(existing, writes), e) <==> e !in existing && Sent(writes, e)
    ensures forall e :: e !in existing && Sent(writes, e) ==> First(Unknown(existing, writes), e) == First(writes, e)
  {
    forall e
      ensures Sent(Unknown(existing, writes), e) <==> e !in existing && Sent(writes, e)
      ensures e !in existing && Sent(writes, e) ==> First(Unknown(existing, writes), e) == First(writes, e)
    {
      UnknownSent(existing, writes, e);
    }
  }

  function Externals(writes: seq<Write>): set<ExternalId> { set w | w in writes :: w.external }

  /** The rows afterwards. */
  function Replaced(rows: Rows, writes: seq<Write>, newId: ExternalId -> LineId): Rows {
    map e | e in rows.Keys + Externals(writes) && (Sent(writes, e) || (e in rows && HasHistory(rows[e]))) ::
      if e in rows then Updated(rows[e], writes, e) else Create(newId(e), First(writes, e))
  }

  // ---- What an update keeps ----

  lemma {:induction false} UpdatedIsLast(r: LineRow, writes: seq<Write>, e: ExternalId)
    ensures Updated(r, writes, e) == if Sent(writes, e) then Update(r, Last(writes, e)) else r
  {
    if writes != [] {
      UpdatedIsLast(r, writes[..|writes| - 1], e);
      SentPrefix(writes, e);
    }
  }

  /** A row disappears exactly when the platform dropped it and it has no history. A row that stays keeps its id,
      stock status, condition and return links, and its product once it has a stock status; the platform's
      last word on it decides everything else. */
  lemma RowsSurvive(rows: Rows, writes: seq<Write>, newId: ExternalId -> LineId, e: ExternalId)
    requires e in rows
    ensures var after := Replaced(rows, writes, newId);
            && (e in after <==>
                (exists k :: 0 <= k < |writes| && writes[k].external == e) ||
                rows[e].status.Some? || rows[e].conditioned || rows[e].returnLines > 0)
            && (e in after ==>
                  && after[e].id == rows[e].id && after[e].status == rows[e].status
                  && after[e].conditioned == rows[e].conditioned && after[e].returnLines == rows[e].returnLines
                  && (rows[e].status.Some? ==> after[e].variant == rows[e].variant)
                  && (if Sent(writes, e)
                      then exists k: nat ::
                             && IsLast(writes, k) && writes[k].external == e
                             && after[e].quantity == writes[k].quantity && after[e].details == writes[k].details
                             && (rows[e].status == None ==> after[e].variant == writes[k].variant)
                      else after[e] == rows[e]))
  {
    UpdatedIsLast(rows[e], writes, e);
    if Sent(writes, e) {
      var k := LastIs(writes, e);
      assert IsLast(writes, k);
    }
  }

  lemma {:induction false} FirstIs(writes: seq<Write>, e: ExternalId) returns (k: nat)
    requires Sent(writes, e)
    ensures k < |writes| && First(writes, e) == writes[k] && forall j :: 0 <= j < k ==> writes[j].external != e
  {
    var rest := writes[..|writes| - 1];
    if Sent(rest, e) {
      k := FirstIs(rest, e);
    } else {
      k := |writes| - 1;
      assert forall j :: 0 <= j < k ==> writes[j] == rest[j];
    }
  }

  lemma {:induction false} LastIs(writes: seq<Write>, e: ExternalId) returns (k: nat)
    requires Sent(writes, e)
    ensures k < |writes| && Last(writes, e) == writes[k] && forall j :: k < j < |writes| ==> writes[j].external != e
  {
    var n := |writes| - 1;
    if writes[n].external == e {
      k := n;
    } else {
      assert forall j :: 0 <= j < n ==> writes[j] == writes[..n][j];
      k := LastIs(writes[..n], e);
    }
  }

  /** The k-th write is the first about its line. */
  predicate IsFirst(writes: seq<Write>, k: nat) {
    k < |writes| && forall j :: 0 <= j < k ==> writes[j].external != writes[k].external
  }

  /** The k-th write is the last about its line. */
  predicate IsLast(writes: seq<Write>, k: nat) {
    k < |writes| && forall j :: k < j < |writes| ==> writes[j].external != writes[k].external
  }

  /** A line the platform names for the first time becomes a row with a fresh id, as first described, without stock
      status, condition or return links; nothing else appears. */
  lemma NewRows(rows: Rows, writes: seq<Write>, newId: ExternalId -> LineId, e: ExternalId)
    requires e !in rows
    ensures var after := Replaced(rows, writes, newId);
            && (e in after <==> exists k :: 0 <= k < |writes| && writes[k].external == e)
            && (e in after ==>
                  && after[e].id == newId(e)
                  && after[e].status == None && !after[e].conditioned && after[e].returnLines == 0
                  && exists k: nat ::
                       && IsFirst(writes, k) && writes[k].external == e && after[e].variant == writes[k].variant
                       && after[e].quantity == writes[k].quantity && after[e].details == writes[k].details)
  {
    if Sent(writes, e) {
      var k := FirstIs(writes, e);
      assert IsFirst(writes, k);
      assert writes[k] in writes;
    }
  }

  /** Lines whose first and last description differ within one update. */
  predicate RepeatedlyNew(rows: Rows, writes: seq<Write>, e: ExternalId) {
    e !in rows && Sent(writes, e) && First(writes, e) != Last(writes, e)
  }

  /** Applying the same update twice changes nothing more, exactly when no new line is described twice in different
      words: creation keeps the first description and updating the last. */
  lemma ReplacedTwiceExactly(rows: Rows, writes: seq<Write>, newId: ExternalId -> LineId)
    ensures Replaced(Replaced(rows, writes, newId), writes, newId) == Replaced(rows, writes, newId) <==>
            forall e :: !RepeatedlyNew(rows, writes, e)
  {
    var once := Replaced(rows, writes, newId);
    var twice := Replaced(once, writes, newId);
    forall e
      ensures e in twice <==> e in once
      ensures e in once ==> (twice[e] == once[e] <==> !RepeatedlyNew(rows, writes, e))
      ensures RepeatedlyNew(rows, writes, e) ==> e in once
    {
      if Sent(writes, e) {
        assert First(writes, e) in writes;
      }
      if e in rows {
        UpdatedIsLast(rows[e], writes, e);
      }
      if e in once {
        UpdatedIsLast(once[e], writes, e);
      }
    }
  }

  // ---- Stock after an update ----

  /** The row as the stock flows see it, its product looked up in the catalogue. */
  function StockLine(r: LineRow, catalogue: VariantId -> Variant, createdAt: int, revision: nat): OrderLine {
    OrderLine(r.quantity, if r.variant.Some? then Some(catalogue(r.variant.value)) else None, createdAt, r.status,
              revision)
  }

  /** A reserved, matched line survives every update of its order, also one that drops it, and of the catalogue,
      still deliverable; delivering or releasing it afterwards settles all it ever reserved. */
  lemma UpdatedOrderSettles(s: Store, rows: Rows, writes: seq<Write>, newId: ExternalId -> LineId, e: ExternalId,
                            catalogue: VariantId -> Variant, createdAt: int, revision: nat, deliveredAt: Option<int>)
    requires e in rows && rows[e].status == Some(LineReserved) && rows[e].variant.Some? && BookLegal(s.accounts)
    requires e in Replaced(rows, writes, newId) ==>
               rows[e].id in s.lines &&
               s.lines[rows[e].id] == StockLine(Replaced(rows, writes, newId)[e], catalogue, createdAt, revision)
    ensures var l := rows[e].id;
            && e in Replaced(rows, writes, newId)
            && DeliverLine(s, l, deliveredAt).lines[l].status == Some(LineDelivered)
            && ReleaseLine(s, l).lines[l].status == Some(LineReleased)
            && forall i ::
                 && NetReserved(AccountOf(DeliverLine(s, l, deliveredAt).accounts, i).log, l) == 0
                 && NetReserved(AccountOf(ReleaseLine(s, l).accounts, i).log, l) == 0
  {
    hide Replaced, DeliverUnits, DeliverOrphans, ReleaseEverywhere, Expand;
    RowsSurvive(rows, writes, newId, e);
    DeliverySettlesExactly(s, rows[e].id, deliveredAt);
    ReleaseWorks(s.accounts, rows[e].id);
  }
}
