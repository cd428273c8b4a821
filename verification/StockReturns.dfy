/** What recording a line's return does to the store: the line's net returns of every item move to their targets, and no
    other line notices. */
module StockReturns {
  import opened Basics
  import opened StockAccounts
  import opened StockFlows
  import opened OrderStock
  import opened StockRuns

  function TargetAt(targets: map<ItemId, Target>, i: ItemId): Target {
    if i in targets then targets[i] else Target(0, 0)
  }

  lemma {:induction false} NothingReturned(log: Log, l: LineId, k: Bucket)
    requires !HasReturn(log, l)
    ensures NetReturned(log, l, k) == 0
  {
    if log.Then? {
      NothingReturned(log.prior, l, k);
    }
  }

  /** Every item with a target or an earlier return of the line is reconciled after the line's release. */
  lemma ReturnAt(s: Store, l: LineId, targets: map<ItemId, Target>, i: ItemId)
    requires l in s.lines
    ensures var a := AccountOf(ReleaseLine(s, l).accounts, i);
            AccountOf(ReconcileLine(s, l, targets).accounts, i) ==
            if i in targets || HasReturn(a.log, l)
            then Reconcile(a, l, s.lines[l].revision + 1, TargetAt(targets, i)) else a
  {
    hide Reconcile, ReleaseEverywhere;
    ReturnIs(s, l, targets);
  }

  lemma ReleasedAccount(s: Store, l: LineId, i: ItemId)
    requires l in s.lines && s.lines[l].status == Some(LineReserved)
    ensures AccountOf(ReleaseLine(s, l).accounts, i) == Release(AccountOf(s.accounts, i), l)
  {
  }

  lemma FreshAfterRelease(s: Store, l: LineId, i: ItemId)
    requires BookLegal(s.accounts) && Numbered(s, l) && l in s.lines
    ensures var a := AccountOf(ReleaseLine(s, l).accounts, i);
            Legal(a) && FreshRevision(a, l, s.lines[l].revision + 1)
  {
    hide Legal, AccountOf, Works, ReleaseLine;
    var r := ReleaseLine(s, l);
    ReleaseIsFlow(s, l);
    WorksUse(s.accounts, r.accounts, l, {ReleaseKey(l)}, i);
    AccountLegal(r.accounts, i);
  }

  lemma Unmoved(v: View, t: Target)
    requires v.balance.Valid() && v.backOnHand == v.backDamaged == 0 && t == Target(0, 0)
    ensures MovedToward(v, v, t)
  {
  }

  /** After the line's release every item's net returns move toward their target and never past it, and reach it exactly
      when the balance it aims for is valid; items without a target go back to none. */
  lemma ReturnMovesToTargets(s: Store, l: LineId, targets: map<ItemId, Target>, i: ItemId)
    requires BookLegal(s.accounts) && Numbered(s, l) && l in s.lines
    requires forall j :: j in targets ==> targets[j].damaged >= 0
    ensures MovedToward(ViewOf(AccountOf(ReleaseLine(s, l).accounts, i), l),
                        ViewOf(AccountOf(ReconcileLine(s, l, targets).accounts, i), l), TargetAt(targets, i))
  {
    hide BookLegal, Numbered, AccountOf, Reconcile, MovedToward, ReconcileLine, ReleaseLine, HasReturn, FreshRevision;
    var a := AccountOf(ReleaseLine(s, l).accounts, i);
    FreshAfterRelease(s, l, i);
    ReturnAt(s, l, targets, i);
    if i in targets || HasReturn(a.log, l) {
      ReconcileConverges(a, l, s.lines[l].revision + 1, TargetAt(targets, i));
    } else {
      LegalIsValid(a);
      NothingReturned(a.log, l, OnHand);
      NothingReturned(a.log, l, Damaged);
      Unmoved(ViewOf(a, l), TargetAt(targets, i));
    }
  }

  ghost predicate AtTarget(s: Store, l: LineId, i: ItemId, t: Target) {
    var log := AccountOf(s.accounts, i).log;
    NetReturned(log, l, OnHand) == t.onHand && NetReturned(log, l, Damaged) == t.damaged
  }

  /** A recorded return brings every item of the line to its target exactly when, for every item, the balance aimed for
      is valid once the line is released. */
  lemma ReturnMeetsTargets(s: Store, l: LineId, targets: map<ItemId, Target>)
    requires BookLegal(s.accounts) && Numbered(s, l) && l in s.lines
    requires forall j :: j in targets ==> targets[j].damaged >= 0
    ensures (forall i :: AtTarget(ReconcileLine(s, l, targets), l, i, TargetAt(targets, i))) <==>
            forall i :: Aimed(ViewOf(AccountOf(ReleaseLine(s, l).accounts, i), l), TargetAt(targets, i)).Valid()
  {
    hide BookLegal, Numbered, AccountOf, ReconcileLine, ReleaseLine, NetReturned;
    forall i
      ensures AtTarget(ReconcileLine(s, l, targets), l, i, TargetAt(targets, i)) <==>
              Aimed(ViewOf(AccountOf(ReleaseLine(s, l).accounts, i), l), TargetAt(targets, i)).Valid()
    {
      ReturnMovesToTargets(s, l, targets, i);
    }
  }

  lemma ReleaseKeepsReturns(s: Store, l: LineId, i: ItemId, k: Bucket)
    requires BookLegal(s.accounts) && l in s.lines
    ensures NetReturned(AccountOf(ReleaseLine(s, l).accounts, i).log, l, k) ==
            NetReturned(AccountOf(s.accounts, i).log, l, k)
  {
    if s.lines[l].status == Some(LineReserved) {
      var a := AccountOf(s.accounts, i);
      ReleasedAccount(s, l, i);
      AccountLegal(s.accounts, i);
      ReleaseClears(a, l);
      assert ViewOf(Release(a, l), l).backOnHand == ViewOf(a, l).backOnHand;
      assert ViewOf(Release(a, l), l).backDamaged == ViewOf(a, l).backDamaged;
    }
  }

  /** Each item's usable part does not shrink: what was taken back stays or grows. */
  ghost predicate UsableGrows(s: Store, l: LineId, targets: map<ItemId, Target>) {
    forall i ::
      var log := AccountOf(s.accounts, i).log;
      TargetAt(targets, i).onHand - TargetAt(targets, i).damaged >=
      NetReturned(log, l, OnHand) - NetReturned(log, l, Damaged)
  }

  /** Reconciling to targets that are already met changes no account. */
  lemma MetTargetsMoveNothing(s: Store, l: LineId, targets: map<ItemId, Target>)
    requires l in s.lines && s.lines[l].status != Some(LineReserved) && targets.Keys <= s.accounts.Keys
    requires forall i :: AtTarget(s, l, i, TargetAt(targets, i))
    ensures ReconcileLine(s, l, targets).accounts == s.accounts
  {
    var after := ReconcileLine(s, l, targets).accounts;
    assert after.Keys == s.accounts.Keys;
    forall i | i in after ensures after[i] == s.accounts[i] {
      ReturnAt(s, l, targets, i);
      assert AtTarget(s, l, i, TargetAt(targets, i));
      assert AccountOf(after, i) == after[i] && AccountOf(s.accounts, i) == s.accounts[i];
    }
  }

  lemma TargetMet(s: Store, l: LineId, targets: map<ItemId, Target>, i: ItemId)
    requires BookLegal(s.accounts) && Numbered(s, l) && l in s.lines
    requires forall j :: j in targets ==> targets[j].damaged >= 0
    requires UsableGrows(s, l, targets)
    ensures AtTarget(ReconcileLine(s, l, targets), l, i, TargetAt(targets, i))
  {
    hide BookLegal, Numbered, AccountOf, Reconcile, ReconcileLine, ReleaseLine, HasReturn, FreshRevision, NetReturned;
    var a := AccountOf(ReleaseLine(s, l).accounts, i);
    FreshAfterRelease(s, l, i);
    ReturnAt(s, l, targets, i);
    ReleaseKeepsReturns(s, l, i, OnHand);
    ReleaseKeepsReturns(s, l, i, Damaged);
    if i in targets || HasReturn(a.log, l) {
      ReconcileReachesTargets(a, l, s.lines[l].revision + 1, TargetAt(targets, i));
    } else {
      NothingReturned(a.log, l, OnHand);
      NothingReturned(a.log, l, Damaged);
    }
  }

  /** Whatever earlier revisions did, targets that do not shrink the usable part of any item are all met, and recording
      the same targets again changes no account. */
  lemma ReturnReachesTargets(s: Store, l: LineId, targets: map<ItemId, Target>)
    requires BookLegal(s.accounts) && Numbered(s, l) && l in s.lines
    requires forall j :: j in targets ==> targets[j].damaged >= 0
    requires UsableGrows(s, l, targets)
    ensures var after := ReconcileLine(s, l, targets);
            && (forall i :: AtTarget(after, l, i, TargetAt(targets, i)))
            && ReconcileLine(after, l, targets).accounts == after.accounts
  {
    hide BookLegal, Numbered, UsableGrows, AtTarget, Reconcile;
    var after := ReconcileLine(s, l, targets);
    forall i ensures AtTarget(after, l, i, TargetAt(targets, i)) {
      TargetMet(s, l, targets, i);
    }
    MetTargetsMoveNothing(after, l, targets);
  }

  // ---- Other lines ----

  /** Other lines keep what they hold and have sent back. */
  ghost predicate OthersKept(bk: Book, bk': Book, other: LineId) {
    && (forall i :: NetReserved(AccountOf(bk', i).log, other) == NetReserved(AccountOf(bk, i).log, other))
    && forall i, k :: NetReturned(AccountOf(bk', i).log, other, k) == NetReturned(AccountOf(bk, i).log, other, k)
  }

  lemma WorksKeepsOthers(bk: Book, bk': Book, l: LineId, used: set<MoveKey>, other: LineId)
    requires Works(bk, bk', l, used) && other != l
    ensures OthersKept(bk, bk', other)
  {
    forall i ensures NetReserved(AccountOf(bk', i).log, other) == NetReserved(AccountOf(bk, i).log, other) {
      assert i in bk' ==> Touches(AccountOf(bk, i), bk'[i], l);
    }
    forall i, k ensures NetReturned(AccountOf(bk', i).log, other, k) == NetReturned(AccountOf(bk, i).log, other, k) {
      assert i in bk' ==> Touches(AccountOf(bk, i), bk'[i], l);
      assert i in bk' ==> Total(bk'[i].log, ReturnOf(other, k)) == Total(AccountOf(bk, i).log, ReturnOf(other, k));
    }
  }

  lemma KeptTrans(x: Book, y: Book, z: Book, other: LineId)
    requires OthersKept(x, y, other) && OthersKept(y, z, other)
    ensures OthersKept(x, z, other)
  {
    hide AccountOf, NetReserved, NetReturned;
  }

  lemma ReturnKeepsOthers(s: Store, l: LineId, targets: map<ItemId, Target>, other: LineId)
    requires BookLegal(s.accounts) && l in s.lines && forall i :: i in targets ==> targets[i].damaged >= 0
    requires other != l
    ensures OthersKept(s.accounts, ReconcileLine(s, l, targets).accounts, other)
  {
    hide BookLegal, Works, OthersKept, ReconcileLine;
    ReturnWorks(s, l, targets);
    WorksKeepsOthers(s.accounts, ReconcileLine(s, l, targets).accounts, l, ReturnKeys(l, s.lines[l].revision + 1),
                     other);
  }
}
