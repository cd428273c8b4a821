/** Cancelling duplicates against dispatching them: transactions that hold the store's lock between reading and
    committing, and everything else that may happen in between. */
module DuplicateReview {
  import opened Basics
  import opened DuplicateClustering
  import opened DuplicateReport

  datatype Decision = KEPT | CANCELLED
  datatype DispatchStatus = PENDING | DISPATCHED | FAILED | DELETED

  /** An order with its review, its dispatch, and the number of dispatch calls in flight for it. */
  datatype Order = Order(customer: Option<CustomerId>, placedAt: int, keys: set<ProductKey>, manual: bool,
                         cancelled: bool, review: Option<Decision>, dispatch: Option<DispatchStatus>, inFlight: nat)

  type Orders = map<OrderId, Order>

  const DAY := 86400000
  const LOOKBACK := 7 * DAY
  const WINDOW := DAY

  // ---- Detection ----

  function CandidateOf(id: OrderId, o: Order): Candidate
    requires o.customer.Some?
  {
    Candidate(id, o.customer.value, o.placedAt, o.keys)
  }

  predicate IsLive(o: Order, customers: set<CustomerId>, from: int, to: int) {
    !o.cancelled && o.review == None && from <= o.placedAt < to && o.customer.Some? && o.customer.value in customers
  }

  function Live(orders: Orders, customers: set<CustomerId>, from: int, to: int): set<Candidate> {
    set id | id in orders && IsLive(orders[id], customers, from, to) :: CandidateOf(id, orders[id])
  }

  function Earliest(orders: Orders, ids: seq<OrderId>): int
    requires ids != [] && forall id :: id in ids ==> id in orders
  {
    if |ids| == 1 then orders[ids[0]].placedAt
    else
      assert ids[|ids| - 1] in ids && forall id :: id in ids[..|ids| - 1] ==> id in ids;
      Min(Earliest(orders, ids[..|ids| - 1]), orders[ids[|ids| - 1]].placedAt)
  }

  function Newest(orders: Orders, ids: seq<OrderId>): int
    requires ids != [] && forall id :: id in ids ==> id in orders
  {
    if |ids| == 1 then orders[ids[0]].placedAt
    else
      assert ids[|ids| - 1] in ids && forall id :: id in ids[..|ids| - 1] ==> id in ids;
      Max(Newest(orders, ids[..|ids| - 1]), orders[ids[|ids| - 1]].placedAt)
  }

  /** The live orders a review of these orders looks at. */
  function Considered(orders: Orders, ids: seq<OrderId>): set<Candidate>
    requires forall id :: id in ids ==> id in orders
  {
    if ids == [] then {}
    else
      var customers := set id | id in ids && orders[id].customer.Some? :: orders[id].customer.value;
      Live(orders, customers, Earliest(orders, ids) - LOOKBACK, Newest(orders, ids) + LOOKBACK)
  }

  /** A query result: those orders, in any order. */
  ghost predicate Reads(orders: Orders, ids: seq<OrderId>, rows: seq<Candidate>) {
    && (forall id :: id in ids ==> id in orders)
    && DistinctIds(rows)
    && (set m | m in rows) == Considered(orders, ids)
  }

  function ClustersOf(rows: seq<Candidate>, matches: Matching): seq<Cluster> {
    Report(rows, Customers(rows), WINDOW, matches)
  }

  function MembersOf(c: Cluster): seq<Candidate> { [c.main] + c.duplicates }

  predicate Survives(c: Cluster, ids: seq<OrderId>) { exists m :: m in MembersOf(c) && m.id !in ids }

  predicate InCluster(c: Cluster, id: OrderId) { exists m :: m in MembersOf(c) && m.id == id }

  datatype ReviewError = OrderNotFound | KeepAtLeastOne | NotInGroup | AlreadySent | GroupNotFound | NotShippable

  predicate Distinct(ids: seq<OrderId>) { forall j, k :: 0 <= j < k < |ids| ==> ids[j] != ids[k] }

  /** The checks on a selection, before any order is touched. */
  function SelectionError(clusters: seq<Cluster>, ids: seq<OrderId>): Option<ReviewError> {
    if exists c :: c in clusters && !Survives(c, ids) then Some(KeepAtLeastOne)
    else if exists id :: id in ids && forall c :: c in clusters ==> !InCluster(c, id) then Some(NotInGroup)
    else None
  }

  /** A selection passes exactly when each group keeps an order that is not selected and each selected order is
      in one. */
  lemma SelectionPasses(clusters: seq<Cluster>, ids: seq<OrderId>)
    ensures SelectionError(clusters, ids) == None <==>
            && (forall c :: c in clusters ==> exists m :: m in [c.main] + c.duplicates && m.id !in ids)
            && (forall id :: id in ids ==> exists c, m :: c in clusters && m in [c.main] + c.duplicates && m.id == id)
  {
    if SelectionError(clusters, ids) == None {
      forall id | id in ids ensures exists c, m :: c in clusters && m in [c.main] + c.duplicates && m.id == id {
        var c :| c in clusters && InCluster(c, id);
      }
    } else {
      if c :| c in clusters && !Survives(c, ids) {
        assert forall m :: m in [c.main] + c.duplicates ==> m in MembersOf(c);
      }
      if id :| id in ids && forall c :: c in clusters ==> !InCluster(c, id) {
        forall c, m | c in clusters && m in [c.main] + c.duplicates ensures m.id != id {
          assert m in MembersOf(c) && !InCluster(c, id);
        }
      }
    }
  }

  lemma {:induction false} EarliestIs(orders: Orders, ids: seq<OrderId>, t: int)
    requires ids != [] && forall id :: id in ids ==> id in orders
    ensures t >= Earliest(orders, ids) <==> exists id :: id in ids && t >= orders[id].placedAt
  {
    var n := |ids| - 1;
    assert ids == ids[..n] + [ids[n]];
    if n > 0 {
      assert forall id :: id in ids[..n] ==> id in ids;
      EarliestIs(orders, ids[..n], t);
    }
  }

  lemma {:induction false} NewestIs(orders: Orders, ids: seq<OrderId>, t: int)
    requires ids != [] && forall id :: id in ids ==> id in orders
    ensures t < Newest(orders, ids) <==> exists id :: id in ids && t < orders[id].placedAt
  {
    var n := |ids| - 1;
    assert ids == ids[..n] + [ids[n]];
    if n > 0 {
      assert forall id :: id in ids[..n] ==> id in ids;
      NewestIs(orders, ids[..n], t);
    }
  }

  /** Which orders a review looks at: those of the selected orders' customers, neither cancelled nor reviewed, placed
      from seven days before one of the selected orders until less than seven days after one. */
  lemma ConsideredExactly(orders: Orders, ids: seq<OrderId>, id: OrderId)
    requires (forall s :: s in ids ==> s in orders) && id in orders && orders[id].customer.Some?
    ensures var o := orders[id];
            Candidate(id, o.customer.value, o.placedAt, o.keys) in Considered(orders, ids) <==>
            && !o.cancelled && o.review == None
            && (exists s :: s in ids && orders[s].customer == o.customer)
            && (exists s :: s in ids && o.placedAt >= orders[s].placedAt - 604800000)
            && (exists s :: s in ids && o.placedAt < orders[s].placedAt + 604800000)
  {
    hide Earliest, Newest;
    if ids != [] {
      EarliestIs(orders, ids, orders[id].placedAt + LOOKBACK);
      NewestIs(orders, ids, orders[id].placedAt - LOOKBACK);
      var customers := set s | s in ids && orders[s].customer.Some? :: orders[s].customer.value;
      assert orders[id].customer.value in customers <==>
             exists s :: s in ids && orders[s].customer == orders[id].customer;
    }
  }

  /** A group under review is of one customer, its duplicates placed within a day of the main order. */
  lemma ReviewedGroup(rows: seq<Candidate>, matches: Matching, c: Cluster)
    requires DistinctIds(rows) && c in ClustersOf(rows, matches)
    ensures forall d :: d in c.duplicates ==>
              d.customer == c.main.customer && c.main.placedAt <= d.placedAt <= c.main.placedAt + 86400000
  {
    hide Report, CustomerGroups, DistinctIds, Customers, InOrder;
    var customer := ReportedClusters(rows, WINDOW, matches, c);
    var g := [c.main] + c.duplicates;
    assert g[0] == c.main && c.main in g;
    forall d | d in c.duplicates
      ensures d.customer == c.main.customer && c.main.placedAt <= d.placedAt <= c.main.placedAt + 86400000
    {
      var k :| 0 <= k < |c.duplicates| && c.duplicates[k] == d;
      assert g[k + 1] == d && d in g;
      FirstIsEarliest(g, k + 1);
    }
  }

  lemma FirstIsEarliest(g: Group, k: nat)
    requires InOrder(g) && 0 < k < |g|
    ensures g[0].placedAt <= g[k].placedAt
  {
  }

  // ---- The shop and its lock ----

  datatype Transaction =
    | Cancelling(ids: seq<OrderId>, clusters: seq<Cluster>, checked: bool)
    | Keeping(cluster: Cluster)
    | Claiming(id: OrderId, retry: bool)

  /** Who holds the lock, and the orders whose status was changed from outside since it was taken. */
  datatype Shop = Shop(orders: Orders, lock: Option<Transaction>, outside: set<OrderId>)

  predicate Unsent(o: Order) { o.dispatch == None || o.dispatch == Some(FAILED) }

  datatype Step =
    | BeginCancel(ids: seq<OrderId>, rows: seq<Candidate>)
    | CheckDispatches
    | CommitCancel
    | BeginKeep(main: OrderId, rows: seq<Candidate>)
    | CommitKeep
    | BeginClaim(id: OrderId)
    | CommitClaim
    | Finish(id: OrderId)
    | Fail(id: OrderId)
    | Crash(id: OrderId)
    | DeleteParcel(id: OrderId)
    | SetStatus(id: OrderId, cancelled: bool)
    | NewOrder(id: OrderId, order: Order)

  ghost predicate Enabled(s: Shop, step: Step) {
    match step
    case BeginCancel(ids, rows) =>
      s.lock == None && (Distinct(ids) && (forall id :: id in ids ==> id in s.orders) ==> Reads(s.orders, ids, rows))
    case CheckDispatches => s.lock.Some? && s.lock.value.Cancelling? && !s.lock.value.checked
    case CommitCancel => s.lock.Some? && s.lock.value.Cancelling? && s.lock.value.checked
    case BeginKeep(main, rows) => s.lock == None && (main in s.orders ==> Reads(s.orders, [main], rows))
    case CommitKeep => s.lock.Some? && s.lock.value.Keeping?
    case BeginClaim(id) => s.lock == None
    case CommitClaim => s.lock.Some? && s.lock.value.Claiming?
    case Finish(id) => id in s.orders && s.orders[id].inFlight > 0
    case Fail(id) => id in s.orders && s.orders[id].inFlight > 0
    case Crash(id) => id in s.orders && s.orders[id].inFlight > 0
    case DeleteParcel(id) => id in s.orders && s.orders[id].dispatch.Some?
    case SetStatus(id, _) => id in s.orders
    case NewOrder(id, o) => id !in s.orders && o.review == None && o.dispatch == None && o.inFlight == 0
  }

  function Unlocked(s: Shop): Shop { s.(lock := None) }

  function CancelOrders(orders: Orders, ids: seq<OrderId>): Orders {
    map id | id in orders ::
      if id in ids then orders[id].(review := Some(CANCELLED), cancelled := orders[id].cancelled || orders[id].manual)
      else orders[id]
  }

  function KeepOrders(orders: Orders, duplicates: seq<Candidate>): Orders {
    map id | id in orders ::
      if orders[id].review == None && (exists d :: d in duplicates && d.id == id) then orders[id].(review := Some(KEPT))
      else orders[id]
  }

  predicate Claimable(o: Order) { !o.cancelled && o.review != Some(CANCELLED) && Unsent(o) }

  function Claim(o: Order): Order { o.(dispatch := Some(PENDING), inFlight := o.inFlight + 1) }

  function Dispatching(s: Shop, id: OrderId, status: Option<DispatchStatus>): Shop
    requires id in s.orders
  {
    s.(orders := s.orders[id := s.orders[id].(dispatch := status, inFlight := Max(s.orders[id].inFlight - 1, 0))])
  }

  /** Failed checks leave everything as it was, the lock free. */
  function Next(s: Shop, step: Step, matches: Matching): Shop {
    match step
    case BeginCancel(ids, rows) =>
      if !Distinct(ids) || (exists id :: id in ids && id !in s.orders) then s
      else
        var clusters := ClustersOf(rows, matches);
        if SelectionError(clusters, ids).Some? then s
        else Shop(s.orders, Some(Cancelling(ids, clusters, false)), {})
    case CheckDispatches =>
      if s.lock.Some? && s.lock.value.Cancelling? &&
         (forall id :: id in s.lock.value.ids ==> id in s.orders && Unsent(s.orders[id]))
      then s.(lock := Some(s.lock.value.(checked := true)))
      else Unlocked(s)
    case CommitCancel =>
      if s.lock.Some? && s.lock.value.Cancelling?
      then Unlocked(s.(orders := CancelOrders(s.orders, s.lock.value.ids)))
      else s
    case BeginKeep(main, rows) =>
      if main !in s.orders || !exists c :: c in ClustersOf(rows, matches) && c.main.id == main then s
      else
        var k := FirstWithMain(ClustersOf(rows, matches), main);
        Shop(s.orders, Some(Keeping(ClustersOf(rows, matches)[k])), {})
    case CommitKeep =>
      if s.lock.Some? && s.lock.value.Keeping?
      then Unlocked(s.(orders := KeepOrders(s.orders, s.lock.value.cluster.duplicates)))
      else s
    case BeginClaim(id) =>
      if id !in s.orders || !Claimable(s.orders[id]) then s
      else Shop(s.orders, Some(Claiming(id, s.orders[id].dispatch == Some(FAILED))), {})
    case CommitClaim =>
      if s.lock.Some? && s.lock.value.Claiming? && s.lock.value.id in s.orders &&
         s.orders[s.lock.value.id].dispatch == (if s.lock.value.retry then Some(FAILED) else None)
      then Unlocked(s.(orders := s.orders[s.lock.value.id := Claim(s.orders[s.lock.value.id])]))
      else Unlocked(s)
    case Finish(id) => if id in s.orders then Dispatching(s, id, Some(DISPATCHED)) else s
    case Fail(id) =>
      if id in s.orders
      then Dispatching(s, id, if s.orders[id].dispatch == Some(PENDING) then Some(FAILED) else s.orders[id].dispatch)
      else s
    case Crash(id) => if id in s.orders then Dispatching(s, id, s.orders[id].dispatch) else s
    case DeleteParcel(id) =>
      if id in s.orders then s.(orders := s.orders[id := s.orders[id].(dispatch := Some(DELETED))]) else s
    case SetStatus(id, cancelled) =>
      if id in s.orders
      then s.(orders := s.orders[id := s.orders[id].(cancelled := cancelled)], outside := s.outside + {id})
      else s
    case NewOrder(id, o) => s.(orders := s.orders[id := o])
  }

  function FirstWithMain(clusters: seq<Cluster>, main: OrderId): (k: nat)
    requires exists c :: c in clusters && c.main.id == main
    ensures k < |clusters| && clusters[k].main.id == main
  {
    if clusters[0].main.id == main then 0 else 1 + FirstWithMain(clusters[1..], main)
  }

  ghost predicate Runs(s: Shop, steps: seq<Step>, end: Shop, matches: Matching)
    decreases |steps|
  {
    if steps == [] then end == s
    else Enabled(s, steps[0]) && Runs(Next(s, steps[0], matches), steps[1..], end, matches)
  }

  // ---- Exclusion ----

  /** A cancelled duplicate is not on its way, and a dispatch in flight is the only one of its order. */
  ghost predicate OrderSafe(o: Order) {
    && (o.review == Some(CANCELLED) ==>
        o.inFlight == 0 && o.dispatch != Some(PENDING) && o.dispatch != Some(DISPATCHED))
    && o.inFlight <= 1
    && (o.inFlight > 0 ==> o.dispatch.Some? && o.dispatch != Some(FAILED))
  }

  /** What a transaction has read still holds where nobody but a lock holder can change it. */
  ghost predicate LockSafe(s: Shop) {
    match s.lock
    case None => true
    case Some(Cancelling(ids, clusters, checked)) =>
      && SelectionError(clusters, ids) == None
      && (forall c, m :: c in clusters && m in MembersOf(c) ==>
            m.id in s.orders && s.orders[m.id].review == None && (s.orders[m.id].cancelled ==> m.id in s.outside))
      && (checked ==> forall id :: id in ids ==>
            id in s.orders && s.orders[id].inFlight == 0 &&
            s.orders[id].dispatch != Some(PENDING) && s.orders[id].dispatch != Some(DISPATCHED))
    case Some(Keeping(_)) => true
    case Some(Claiming(id, _)) => id in s.orders && s.orders[id].review != Some(CANCELLED) && s.orders[id].inFlight == 0
  }

  ghost predicate Safe(s: Shop) { (forall id :: id in s.orders ==> OrderSafe(s.orders[id])) && LockSafe(s) }

  lemma ClustersAreLive(orders: Orders, ids: seq<OrderId>, rows: seq<Candidate>, matches: Matching, c: Cluster,
                        m: Candidate)
    requires Reads(orders, ids, rows) && c in ClustersOf(rows, matches) && m in MembersOf(c)
    ensures m.id in orders && orders[m.id].review == None && !orders[m.id].cancelled
  {
    hide Report, CustomerGroups, Linked, Reads, DistinctIds, Customers;
    RowsAreLive(orders, ids, rows);
    var customer := ReportedClusters(rows, WINDOW, matches, c);
  }

  lemma RowsAreLive(orders: Orders, ids: seq<OrderId>, rows: seq<Candidate>)
    requires Reads(orders, ids, rows)
    ensures DistinctIds(rows)
    ensures forall m :: m in rows ==> m.id in orders && orders[m.id].review == None && !orders[m.id].cancelled
  {
    hide DistinctIds, Earliest, Newest;
    forall m | m in rows ensures m.id in orders && orders[m.id].review == None && !orders[m.id].cancelled {
      assert m in set x | x in rows;
      ConsideredAreLive(orders, ids, m);
    }
  }

  lemma ConsideredAreLive(orders: Orders, ids: seq<OrderId>, m: Candidate)
    requires (forall id :: id in ids ==> id in orders) && m in Considered(orders, ids)
    ensures m.id in orders && orders[m.id].review == None && !orders[m.id].cancelled
  {
  }

  lemma CancelBegins(s: Shop, ids: seq<OrderId>, rows: seq<Candidate>, matches: Matching)
    requires Safe(s) && Enabled(s, BeginCancel(ids, rows))
    ensures Safe(Next(s, BeginCancel(ids, rows), matches))
  {
    hide ClustersOf, SelectionError, OrderSafe;
    if Distinct(ids) && forall id :: id in ids ==> id in s.orders {
      forall c, m | c in ClustersOf(rows, matches) && m in MembersOf(c)
        ensures m.id in s.orders && s.orders[m.id].review == None && !s.orders[m.id].cancelled
      {
        ClustersAreLive(s.orders, ids, rows, matches, c, m);
      }
    }
  }

  predicate IsLocking(step: Step) {
    || step.CheckDispatches? || step.CommitCancel?
    || step.BeginKeep? || step.CommitKeep? || step.BeginClaim? || step.CommitClaim?
  }

  lemma LockingStaysSafe(s: Shop, step: Step, matches: Matching)
    requires Safe(s) && Enabled(s, step) && IsLocking(step)
    ensures Safe(Next(s, step, matches))
  {
    hide ClustersOf, SelectionError, Reads, MembersOf;
  }

  lemma OutsideStaysSafe(s: Shop, step: Step, matches: Matching)
    requires Safe(s) && Enabled(s, step) && !IsLocking(step) && !step.BeginCancel?
    ensures Safe(Next(s, step, matches))
  {
    hide ClustersOf, SelectionError, Reads, MembersOf;
  }

  /** Every step keeps the exclusion. */
  lemma StepStaysSafe(s: Shop, step: Step, matches: Matching)
    requires Safe(s) && Enabled(s, step)
    ensures Safe(Next(s, step, matches))
  {
    hide Safe, Enabled, Next;
    if step.BeginCancel? {
      CancelBegins(s, step.ids, step.rows, matches);
    } else if IsLocking(step) {
      LockingStaysSafe(s, step, matches);
    } else {
      OutsideStaysSafe(s, step, matches);
    }
  }

  lemma {:induction false} RunsStaySafe(s: Shop, steps: seq<Step>, end: Shop, matches: Matching)
    requires Safe(s) && Runs(s, steps, end, matches)
    ensures Safe(end)
    decreases |steps|
  {
    hide Safe, Enabled, Next;
    if steps != [] {
      StepStaysSafe(s, steps[0], matches);
      RunsStaySafe(Next(s, steps[0], matches), steps[1..], end, matches);
    }
  }

  /** A shop without reviews, dispatches or transactions. */
  ghost predicate Fresh(s: Shop) {
    s.lock == None &&
    forall id :: id in s.orders ==>
      s.orders[id].review == None && s.orders[id].dispatch == None && s.orders[id].inFlight == 0
  }

  lemma FreshIsSafe(s: Shop)
    requires Fresh(s)
    ensures Safe(s)
  {
  }

  /** From a fresh shop, over every interleaving of cancelling, keeping and claiming transactions with dispatch calls
      ending, crashing, parcels being deleted and statuses changing: an order reviewed as cancelled is neither pending
      nor dispatched, and no order has two dispatches in flight. */
  lemma CancelExcludesDispatch(s: Shop, steps: seq<Step>, end: Shop, matches: Matching, id: OrderId)
    requires Fresh(s) && Runs(s, steps, end, matches) && id in end.orders
    ensures var o := end.orders[id];
            && !(o.review == Some(CANCELLED) && (o.dispatch == Some(PENDING) || o.dispatch == Some(DISPATCHED)))
            && !(o.review == Some(CANCELLED) && o.inFlight > 0)
            && o.inFlight <= 1
  {
    hide Runs;
    FreshIsSafe(s);
    RunsStaySafe(s, steps, end, matches);
  }

  /** What a cancellation does, whatever happened since it read the groups: each selected order is reviewed as
      cancelled, and cancelled itself when it was entered by hand, nothing else about it and nothing about any other
      order changes; and it was in a group that keeps an order nobody reviewed and that is not cancelled, unless its
      platform cancelled it meanwhile. */
  lemma CancellationLeavesOne(s: Shop, matches: Matching, id: OrderId) returns (c: Cluster)
    requires Safe(s) && Enabled(s, CommitCancel) && id in s.lock.value.ids
    ensures var after := Next(s, CommitCancel, matches);
            && after.lock == None && after.orders.Keys == s.orders.Keys && id in s.orders
            && (var o := s.orders[id];
                after.orders[id] == o.(review := Some(CANCELLED), cancelled := if o.manual then true else o.cancelled))
            && (forall other :: other in s.orders && other !in s.lock.value.ids ==>
                  after.orders[other] == s.orders[other])
            && c in s.lock.value.clusters && (exists m :: m in [c.main] + c.duplicates && m.id == id)
            && exists m :: m in [c.main] + c.duplicates && m.id !in s.lock.value.ids && m.id in after.orders &&
                 after.orders[m.id].review == None && (after.orders[m.id].cancelled ==> m.id in s.outside)
  {
    var ids, clusters := s.lock.value.ids, s.lock.value.clusters;
    SelectionPasses(clusters, ids);
    var m: Candidate;
    c, m :| c in clusters && m in [c.main] + c.duplicates && m.id == id;
    var k :| k in [c.main] + c.duplicates && k.id !in ids;
    assert k in MembersOf(c) && CancelOrders(s.orders, ids)[k.id] == s.orders[k.id];
  }

  /** Keeping a group decides nothing that was already decided. */
  lemma KeepingRespectsReviews(s: Shop, matches: Matching, id: OrderId)
    requires Safe(s) && Enabled(s, CommitKeep) && id in s.orders
    ensures var before, after := s.orders[id], Next(s, CommitKeep, matches).orders[id];
            && after == before.(review := after.review)
            && (before.review.Some? ==> after.review == before.review)
            && (before.review == None && (exists d :: d in s.lock.value.cluster.duplicates && d.id == id) ==>
                  after.review == Some(KEPT))
            && (after.review != before.review ==>
                  after.review == Some(KEPT) && exists d :: d in s.lock.value.cluster.duplicates && d.id == id)
  {
  }

  /** When a cancellation goes on: it begins with existing orders, each selected once, whose selection passes; and it is
      checked exactly when none of them was ever sent, or its sending failed. Refused, it changes nothing and frees the
      lock. */
  lemma CancellationsAreGuarded(s: Shop, ids: seq<OrderId>, rows: seq<Candidate>, matches: Matching)
    requires s.lock == None
    ensures var begun := Next(s, BeginCancel(ids, rows), matches);
            && (begun.lock.Some? <==>
                  && (forall j, k :: 0 <= j < k < |ids| ==> ids[j] != ids[k])
                  && (forall id :: id in ids ==> id in s.orders)
                  && SelectionError(ClustersOf(rows, matches), ids) == None)
            && begun.orders == s.orders
            && (begun.lock.Some? ==> begun.lock.value == Cancelling(ids, ClustersOf(rows, matches), false))
    ensures forall t: Shop, clusters :: t.lock == Some(Cancelling(ids, clusters, false)) ==>
              var checked := Next(t, CheckDispatches, matches);
              checked.orders == t.orders &&
              if forall id :: id in ids ==>
                   id in t.orders && (t.orders[id].dispatch == None || t.orders[id].dispatch == Some(FAILED))
              then checked.lock == Some(Cancelling(ids, clusters, true)) else checked.lock == None
  {
    hide ClustersOf, SelectionError;
  }

  /** Keeping begins exactly when the order is the main order of a group. */
  lemma KeepingIsGuarded(s: Shop, main: OrderId, rows: seq<Candidate>, matches: Matching)
    requires s.lock == None
    ensures var begun := Next(s, BeginKeep(main, rows), matches);
            && begun.orders == s.orders
            && (begun.lock.Some? <==>
                main in s.orders && exists c :: c in ClustersOf(rows, matches) && c.main.id == main)
            && (begun.lock.Some? ==> begun.lock.value.Keeping? && begun.lock.value.cluster.main.id == main &&
                                     begun.lock.value.cluster in ClustersOf(rows, matches))
  {
    hide ClustersOf;
  }

  /** When a dispatch may be claimed: the order is neither cancelled nor reviewed as cancelled, and was never sent or
      failed to be. Once claimed it is pending with one call in flight more, unless its dispatch changed meanwhile. */
  lemma ClaimsAreGuarded(s: Shop, matches: Matching, id: OrderId)
    requires id in s.orders && s.lock == None
    ensures var o, claiming := s.orders[id], Next(s, BeginClaim(id), matches);
            && (claiming.lock.Some? <==>
                !o.cancelled && o.review != Some(CANCELLED) && (o.dispatch == None || o.dispatch == Some(FAILED)))
            && claiming.orders == s.orders
            && (claiming.lock.Some? ==>
                  Next(claiming, CommitClaim, matches) ==
                  Shop(s.orders[id := o.(dispatch := Some(PENDING), inFlight := o.inFlight + 1)], None, {}))
    ensures forall t: Shop ::
              t.lock == Some(Claiming(id, s.orders[id].dispatch == Some(FAILED))) && id in t.orders &&
              t.orders[id].dispatch != s.orders[id].dispatch &&
              (s.orders[id].dispatch == None || s.orders[id].dispatch == Some(FAILED)) ==>
                Next(t, CommitClaim, matches) == t.(lock := None)
  {
  }

  /** How a dispatch call ends: well, it is dispatched; failing, it may be tried again, unless the parcel was deleted
      meanwhile; crashing, it stays as it is, so that nobody sends the order twice. */
  lemma DispatchEnds(s: Shop, matches: Matching, id: OrderId)
    requires id in s.orders && s.orders[id].inFlight > 0
    ensures var o := s.orders[id].(inFlight := s.orders[id].inFlight - 1);
            && Next(s, Finish(id), matches) == s.(orders := s.orders[id := o.(dispatch := Some(DISPATCHED))])
            && Next(s, Crash(id), matches) == s.(orders := s.orders[id := o])
            && Next(s, Fail(id), matches) ==
               s.(orders := s.orders[id := if o.dispatch == Some(PENDING) then o.(dispatch := Some(FAILED)) else o])
            && !Claimable(s.orders[id].(dispatch := Some(PENDING)))
  {
  }

  /** A dispatch claim with all its checks but without the lock. */
  function UnlockedClaim(s: Shop, id: OrderId): Shop
    requires id in s.orders
  {
    if Claimable(s.orders[id]) then s.(orders := s.orders[id := Claim(s.orders[id])]) else s
  }

  /** Why claims take the lock too: one that did not could commit between a cancellation's check and its commit, and
      then both stand. It does so exactly when the order is still claimable. */
  lemma UnlockedClaimBreaksExclusion(s: Shop, id: OrderId, matches: Matching)
    requires Safe(s) && Enabled(s, CommitCancel) && id in s.lock.value.ids && id in s.orders
    ensures var o := Next(UnlockedClaim(s, id), CommitCancel, matches).orders[id];
            && o.review == Some(CANCELLED)
            && (o.dispatch == Some(PENDING) && o.inFlight > 0 <==> Claimable(s.orders[id]))
  {
  }

  // ---- The bodies of the transactions ----

  class ReviewDesk {
    var orders: Orders

    constructor (orders: Orders)
      ensures this.orders == orders
    {
      this.orders := orders;
    }

    /** Every group keeps an order, and every selected order is in a group. */
    method CheckSelection(clusters: seq<Cluster>, ids: seq<OrderId>) returns (error: Option<ReviewError>)
      ensures error == SelectionError(clusters, ids)
    {
      var grouped: set<OrderId> := {};
      for k := 0 to |clusters|
        invariant forall c :: c in clusters[..k] ==> Survives(c, ids)
        invariant forall id :: id in grouped <==> id in ids && exists c :: c in clusters[..k] && InCluster(c, id)
      {
        var c := clusters[k];
        assert clusters[..k + 1] == clusters[..k] + [c];
        grouped := grouped + set id | id in ids && InCluster(c, id);
        if !Survives(c, ids) {
          return Some(KeepAtLeastOne);
        }
      }
      assert clusters[..|clusters|] == clusters;
      if exists id :: id in ids && id !in grouped {
        return Some(NotInGroup);
      }
      error := None;
    }

    /** Cancels order by order; one that was sent undoes the whole selection. */
    method CancelSelected(ids: seq<OrderId>) returns (error: Option<ReviewError>)
      requires forall id :: id in ids ==> id in orders
      modifies this
      ensures error == None || error == Some(AlreadySent)
      ensures error == None <==>
              forall id :: id in ids ==> old(orders)[id].dispatch == None || old(orders)[id].dispatch == Some(FAILED)
      ensures orders == (if error == None then CancelOrders(old(orders), ids) else old(orders))
    {
      var before := orders;
      for k := 0 to |ids|
        invariant forall id :: id in ids[..k] ==> Unsent(before[id])
        invariant orders == CancelOrders(before, ids[..k])
      {
        var id := ids[k];
        assert ids[..k + 1] == ids[..k] + [id];
        if !Unsent(orders[id]) {
          orders := before;
          return Some(AlreadySent);
        }
        var o := orders[id];
        orders := orders[id := o.(review := Some(CANCELLED), cancelled := o.cancelled || o.manual)];
      }
      assert ids[..|ids|] == ids;
      error := None;
    }

    method KeepGroup(duplicates: seq<Candidate>) returns (kept: nat)
      modifies this
      ensures orders == KeepOrders(old(orders), duplicates)
      ensures kept == |Changed(old(orders), orders)|
    {
      hide KeepOrders, Changed;
      var before := orders;
      kept := 0;
      NothingKept(before);
      for k := 0 to |duplicates|
        invariant orders == KeepOrders(before, duplicates[..k]) && kept == |Changed(before, orders)|
      {
        var id := duplicates[k].id;
        KeepNext(before, duplicates, k);
        if id in orders && orders[id].review == None {
          orders := orders[id := orders[id].(review := Some(KEPT))];
          kept := kept + 1;
        }
      }
      assert duplicates[..|duplicates|] == duplicates;
    }
  }

  function Changed(before: Orders, after: Orders): set<OrderId> {
    set id | id in before && id in after && after[id] != before[id]
  }

  lemma NothingKept(orders: Orders)
    ensures KeepOrders(orders, []) == orders && Changed(orders, orders) == {}
  {
  }

  lemma KeepNext(before: Orders, duplicates: seq<Candidate>, k: nat)
    requires k < |duplicates|
    ensures var orders, id := KeepOrders(before, duplicates[..k]), duplicates[k].id;
            var after := KeepOrders(before, duplicates[..k + 1]);
            if id in orders && orders[id].review == None
            then after == orders[id := orders[id].(review := Some(KEPT))] &&
                 |Changed(before, after)| == |Changed(before, orders)| + 1
            else after == orders
  {
    var orders, id := KeepOrders(before, duplicates[..k]), duplicates[k].id;
    var after := KeepOrders(before, duplicates[..k + 1]);
    assert duplicates[..k + 1] == duplicates[..k] + [duplicates[k]];
    assert orders.Keys == before.Keys == after.Keys;
    if id in orders && orders[id].review == None {
      assert after == orders[id := orders[id].(review := Some(KEPT))];
      assert Changed(before, after) == Changed(before, orders) + {id};
    } else {
      assert after == orders;
    }
  }
}
