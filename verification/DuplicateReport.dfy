/** The clustering loop as it runs: orders by customer, sorted, placed into open groups with their product keys. */
module DuplicateReport {
  import opened Basics
  import opened DuplicateClustering

  datatype Cluster = Cluster(main: Candidate, duplicates: seq<Candidate>)

  // ---- What the loop computes ----

  function OrdersOf(orders: seq<Candidate>, c: CustomerId): seq<Candidate> {
    if orders == [] then []
    else
      OrdersOf(orders[..|orders| - 1], c) + (if orders[|orders| - 1].customer == c then [orders[|orders| - 1]] else [])
  }

  /** In order of first appearance. */
  function Customers(orders: seq<Candidate>): seq<CustomerId> {
    if orders == [] then []
    else
      var cs, c := Customers(orders[..|orders| - 1]), orders[|orders| - 1].customer;
      if c in cs then cs else cs + [c]
  }

  function InsertByTime(sorted: seq<Candidate>, o: Candidate): seq<Candidate> {
    if sorted == [] || Before(o, sorted[0]) then [o] + sorted else [sorted[0]] + InsertByTime(sorted[1..], o)
  }

  function ByTime(orders: seq<Candidate>): seq<Candidate> {
    if orders == [] then [] else InsertByTime(ByTime(orders[..|orders| - 1]), orders[|orders| - 1])
  }

  function WithDuplicates(groups: seq<Group>): seq<Cluster> {
    if groups == [] then []
    else
      var g := groups[|groups| - 1];
      WithDuplicates(groups[..|groups| - 1]) + (if |g| > 1 then [Cluster(g[0], g[1..])] else [])
  }

  function CustomerGroups(orders: seq<Candidate>, c: CustomerId, window: int, matches: Matching): seq<Group> {
    Groups(ByTime(OrdersOf(orders, c)), window, matches)
  }

  function Report(orders: seq<Candidate>, customers: seq<CustomerId>, window: int, matches: Matching): seq<Cluster> {
    if customers == [] then []
    else
      Report(orders, customers[..|customers| - 1], window, matches) +
      WithDuplicates(CustomerGroups(orders, customers[|customers| - 1], window, matches))
  }

  /** The caller's matching, or sharing a product key. */
  function Effective(matches: Option<Matching>): (f: Matching)
    ensures matches.Some? ==> f == matches.value
    ensures matches == None ==> forall a, b :: f(a, b) <==> a.keys * b.keys != {}
  {
    if matches.Some? then matches.value else (a, b) => SharesKey(a, b)
  }

  // ---- The loop ----

  /** An open group as the loop keeps it, with the product keys of its members so far. */
  datatype OpenGroup = OpenGroup(main: Candidate, duplicates: seq<Candidate>, keys: set<ProductKey>)

  function KeysOf(g: Group): set<ProductKey> {
    if g == [] then {} else KeysOf(g[..|g| - 1]) + g[|g| - 1].keys
  }

  predicate Represents(open: seq<OpenGroup>, groups: seq<Group>) {
    && |open| == |groups|
    && forall i :: 0 <= i < |open| ==>
         [open[i].main] + open[i].duplicates == groups[i] && open[i].keys == KeysOf(groups[i])
  }

  /** Testing the accumulated keys is testing every member. */
  lemma {:induction false} KeysAreMembers(g: Group, o: Candidate)
    ensures o.keys * KeysOf(g) != {} <==> exists m :: m in g && SharesKey(o, m)
  {
    if g != [] {
      var rest, last := g[..|g| - 1], g[|g| - 1];
      assert g == rest + [last];
      KeysAreMembers(rest, o);
      assert o.keys * KeysOf(g) == o.keys * KeysOf(rest) + o.keys * last.keys;
      assert o.keys * KeysOf(g) != {} <==> o.keys * KeysOf(rest) != {} || SharesKey(o, last);
      assert forall m :: m in g <==> m in rest || m == last;
    }
  }

  method Admitted(g: OpenGroup, o: Candidate, window: int, matches: Option<Matching>) returns (yes: bool)
    requires g.keys == KeysOf([g.main] + g.duplicates)
    ensures yes == Admits([g.main] + g.duplicates, o, window, Effective(matches))
  {
    if o.placedAt - g.main.placedAt > window {
      return false;
    }
    match matches {
      case Some(f) => yes := exists m :: m in [g.main] + g.duplicates && f(o, m);
      case None =>
        KeysAreMembers([g.main] + g.duplicates, o);
        yes := o.keys * g.keys != {};
    }
  }

  method FindOpen(open: seq<OpenGroup>, o: Candidate, window: int, matches: Option<Matching>, ghost groups: seq<Group>)
      returns (k: nat)
    requires Represents(open, groups)
    ensures k == FirstFit(groups, o, window, Effective(matches))
  {
    k := 0;
    while k < |open|
      invariant k <= |open|
      invariant forall i :: 0 <= i < k ==> !Admits(groups[i], o, window, Effective(matches))
    {
      var yes := Admitted(open[k], o, window, matches);
      if yes {
        break;
      }
      k := k + 1;
    }
  }

  lemma JoinedRepresents(open: seq<OpenGroup>, groups: seq<Group>, k: nat, o: Candidate)
    requires Represents(open, groups) && k < |open|
    ensures Represents(open[k := OpenGroup(open[k].main, open[k].duplicates + [o], open[k].keys + o.keys)],
                       groups[k := groups[k] + [o]])
  {
    assert [open[k].main] + (open[k].duplicates + [o]) == groups[k] + [o];
    assert (groups[k] + [o])[..|groups[k]|] == groups[k];
  }

  lemma OpenedRepresents(open: seq<OpenGroup>, groups: seq<Group>, o: Candidate)
    requires Represents(open, groups)
    ensures Represents(open + [OpenGroup(o, [], o.keys)], groups + [[o]])
  {
    assert [o][..0] == [] && [o] + [] == [o];
  }

  lemma NothingOpen()
    ensures Represents([], [])
  {
  }

  lemma SameNumber(open: seq<OpenGroup>, groups: seq<Group>)
    requires Represents(open, groups)
    ensures |open| == |groups|
  {
  }

  method ClusterCustomer(list: seq<Candidate>, window: int, matches: Option<Matching>) returns (open: seq<OpenGroup>)
    ensures Represents(open, Groups(list, window, Effective(matches)))
  {
    hide Represents, FirstFit;
    open := [];
    NothingOpen();
    for n := 0 to |list|
      invariant Represents(open, Groups(list[..n], window, Effective(matches)))
    {
      assert list[..n + 1][..n] == list[..n];
      ghost var groups := Groups(list[..n], window, Effective(matches));
      var o := list[n];
      var k := FindOpen(open, o, window, matches, groups);
      SameNumber(open, groups);
      if k < |open| {
        JoinedRepresents(open, groups, k, o);
        open := open[k := OpenGroup(open[k].main, open[k].duplicates + [o], open[k].keys + o.keys)];
      } else {
        OpenedRepresents(open, groups, o);
        open := open + [OpenGroup(o, [], o.keys)];
      }
    }
    assert list[..|list|] == list;
  }

  method SplitByCustomer(orders: seq<Candidate>)
      returns (byCustomer: map<CustomerId, seq<Candidate>>, customers: seq<CustomerId>)
    ensures customers == Customers(orders)
    ensures forall c :: c in customers ==> c in byCustomer && byCustomer[c] == OrdersOf(orders, c)
  {
    byCustomer, customers := map[], [];
    for n := 0 to |orders|
      invariant customers == Customers(orders[..n])
      invariant forall c :: c in byCustomer <==> c in customers
      invariant forall c :: (if c in byCustomer then byCustomer[c] else []) == OrdersOf(orders[..n], c)
    {
      assert orders[..n + 1][..n] == orders[..n];
      var o := orders[n];
      if o.customer !in byCustomer {
        customers := customers + [o.customer];
      }
      byCustomer := byCustomer[o.customer := (if o.customer in byCustomer then byCustomer[o.customer] else []) + [o]];
    }
    assert orders[..|orders|] == orders;
  }

  /** Keeps the open groups that found a duplicate. */
  method KeepDuplicates(open: seq<OpenGroup>, ghost groups: seq<Group>) returns (clusters: seq<Cluster>)
    requires Represents(open, groups)
    ensures clusters == WithDuplicates(groups)
  {
    clusters := [];
    for k := 0 to |open|
      invariant clusters == WithDuplicates(groups[..k])
    {
      assert groups[..k + 1][..k] == groups[..k];
      assert groups[k] == [open[k].main] + open[k].duplicates;
      if open[k].duplicates != [] {
        clusters := clusters + [Cluster(open[k].main, open[k].duplicates)];
      }
    }
    assert groups[..|groups|] == groups;
  }

  method ClusterDuplicateOrders(orders: seq<Candidate>, window: int, matches: Option<Matching>)
      returns (clusters: seq<Cluster>)
    ensures clusters == Report(orders, Customers(orders), window, Effective(matches))
    ensures matches.Some? ==> clusters == Report(orders, Customers(orders), window, matches.value)
  {
    hide Represents, WithDuplicates, Customers, OrdersOf, ByTime;
    var byCustomer, customers := SplitByCustomer(orders);
    clusters := [];
    for n := 0 to |customers|
      invariant clusters == Report(orders, customers[..n], window, Effective(matches))
    {
      assert customers[..n + 1][..n] == customers[..n];
      var open := ClusterCustomer(ByTime(byCustomer[customers[n]]), window, matches);
      var found := KeepDuplicates(open, CustomerGroups(orders, customers[n], window, Effective(matches)));
      clusters := clusters + found;
    }
    assert customers[..|customers|] == customers;
  }

  // ---- What the report means ----

  lemma {:induction false} InsertByTimeAdds(sorted: seq<Candidate>, o: Candidate)
    ensures multiset(InsertByTime(sorted, o)) == multiset(sorted) + multiset{o}
  {
    if sorted != [] {
      assert sorted == [sorted[0]] + sorted[1..];
      if !Before(o, sorted[0]) {
        InsertByTimeAdds(sorted[1..], o);
      }
    }
  }

  lemma {:induction false} ByTimeKeeps(orders: seq<Candidate>)
    ensures multiset(ByTime(orders)) == multiset(orders)
  {
    if orders != [] {
      assert orders == orders[..|orders| - 1] + [orders[|orders| - 1]];
      ByTimeKeeps(orders[..|orders| - 1]);
      InsertByTimeAdds(ByTime(orders[..|orders| - 1]), orders[|orders| - 1]);
    }
  }

  ghost predicate DistinctIds(orders: seq<Candidate>) {
    forall j, k :: 0 <= j < k < |orders| ==> orders[j].id != orders[k].id
  }

  lemma OrderTail(sorted: seq<Candidate>)
    requires sorted != [] && InOrder(sorted)
    ensures InOrder(sorted[1..]) && forall m :: m in sorted[1..] ==> Before(sorted[0], m)
  {
    forall m | m in sorted[1..] ensures Before(sorted[0], m) {
      var k :| 0 <= k < |sorted| - 1 && sorted[1..][k] == m;
      assert sorted[k + 1] == m;
    }
  }

  lemma OrderPrepend(o: Candidate, rest: seq<Candidate>)
    requires InOrder(rest) && forall m :: m in rest ==> Before(o, m)
    ensures InOrder([o] + rest)
  {
    var all := [o] + rest;
    forall j, k | 0 <= j < k < |all| ensures Before(all[j], all[k]) {
      assert all[k] in rest;
    }
  }

  lemma {:induction false} InsertKeepsOrder(sorted: seq<Candidate>, o: Candidate)
    requires InOrder(sorted) && forall m :: m in sorted ==> m.id != o.id
    ensures InOrder(InsertByTime(sorted, o))
  {
    hide InOrder;
    if sorted == [] {
      OrderPrepend(o, []);
      assert [o] + [] == [o];
      return;
    }
    OrderTail(sorted);
    assert sorted == [sorted[0]] + sorted[1..];
    if Before(o, sorted[0]) {
      OrderPrepend(o, sorted);
    } else {
      assert sorted[0] in sorted;
      InsertKeepsOrder(sorted[1..], o);
      InsertByTimeAdds(sorted[1..], o);
      assert forall m :: m in InsertByTime(sorted[1..], o) ==> m in multiset(sorted[1..]) + multiset{o};
      OrderPrepend(sorted[0], InsertByTime(sorted[1..], o));
    }
  }

  lemma {:induction false} ByTimeIsInOrder(orders: seq<Candidate>)
    requires DistinctIds(orders)
    ensures InOrder(ByTime(orders))
  {
    if orders != [] {
      var rest, o := orders[..|orders| - 1], orders[|orders| - 1];
      ByTimeIsInOrder(rest);
      ByTimeKeeps(rest);
      forall m | m in ByTime(rest) ensures m.id != o.id {
        assert m in multiset(rest);
      }
      InsertKeepsOrder(ByTime(rest), o);
    }
  }

  lemma {:induction false} OrdersOfCustomer(orders: seq<Candidate>, c: CustomerId)
    ensures forall o :: multiset(OrdersOf(orders, c))[o] == if o.customer == c then multiset(orders)[o] else 0
  {
    if orders != [] {
      OrdersOfCustomer(orders[..|orders| - 1], c);
      assert orders == orders[..|orders| - 1] + [orders[|orders| - 1]];
    }
  }

  lemma {:induction false} OwnOrdersDistinct(orders: seq<Candidate>, c: CustomerId)
    requires DistinctIds(orders)
    ensures DistinctIds(OrdersOf(orders, c)) && forall o :: o in OrdersOf(orders, c) ==> o in orders
  {
    if orders != [] {
      var rest, o := orders[..|orders| - 1], orders[|orders| - 1];
      assert orders == rest + [o];
      OwnOrdersDistinct(rest, c);
      forall m | m in rest ensures m.id != o.id {
        var k :| 0 <= k < |rest| && rest[k] == m;
        assert orders[k].id != orders[|rest|].id;
      }
    }
  }

  lemma {:induction false} CustomersAreThose(orders: seq<Candidate>)
    ensures forall c :: c in Customers(orders) <==> exists o :: o in orders && o.customer == c
  {
    if orders != [] {
      assert orders == orders[..|orders| - 1] + [orders[|orders| - 1]];
      CustomersAreThose(orders[..|orders| - 1]);
    }
  }

  predicate ClusterAt(groups: seq<Group>, cluster: Cluster, k: nat) {
    k < |groups| && |groups[k]| > 1 && cluster == Cluster(groups[k][0], groups[k][1..])
  }

  lemma {:induction false} ClustersAreGroups(groups: seq<Group>, cluster: Cluster)
    ensures cluster in WithDuplicates(groups) <==> exists k: nat :: ClusterAt(groups, cluster, k)
  {
    if groups != [] {
      var n := |groups| - 1;
      ClustersAreGroups(groups[..n], cluster);
      assert forall k: nat :: ClusterAt(groups[..n], cluster, k) ==> ClusterAt(groups, cluster, k);
      assert forall k: nat :: ClusterAt(groups, cluster, k) && k < n ==> ClusterAt(groups[..n], cluster, k);
      assert ClusterAt(groups, cluster, n) <==> |groups[n]| > 1 && cluster == Cluster(groups[n][0], groups[n][1..]);
    }
  }

  lemma {:induction false} ReportCollects(orders: seq<Candidate>, customers: seq<CustomerId>, window: int,
                                          matches: Matching, cluster: Cluster)
    ensures cluster in Report(orders, customers, window, matches) <==>
            exists c :: c in customers && cluster in WithDuplicates(CustomerGroups(orders, c, window, matches))
  {
    if customers != [] {
      var n := |customers| - 1;
      assert customers == customers[..n] + [customers[n]];
      ReportCollects(orders, customers[..n], window, matches, cluster);
    }
  }

  /** A reported cluster is a whole group of one customer: its main order is its earliest, every duplicate is within the
      window of it and matched someone already there. */
  lemma ReportedClusters(orders: seq<Candidate>, window: int, matches: Matching, cluster: Cluster)
      returns (c: CustomerId)
    requires DistinctIds(orders) && cluster in Report(orders, Customers(orders), window, matches)
    ensures var g := [cluster.main] + cluster.duplicates;
            && cluster.duplicates != [] && Linked(g, window, matches)
            && g in CustomerGroups(orders, c, window, matches)
            && forall m :: m in g ==> m in orders && m.customer == c
  {
    ReportCollects(orders, Customers(orders), window, matches, cluster);
    c :| c in Customers(orders) && cluster in WithDuplicates(CustomerGroups(orders, c, window, matches));
    ClusterOfCustomer(orders, window, matches, cluster, c);
  }

  lemma ClusterOfCustomer(orders: seq<Candidate>, window: int, matches: Matching, cluster: Cluster, c: CustomerId)
    requires DistinctIds(orders) && cluster in WithDuplicates(CustomerGroups(orders, c, window, matches))
    ensures var g := [cluster.main] + cluster.duplicates;
            && cluster.duplicates != [] && Linked(g, window, matches)
            && g in CustomerGroups(orders, c, window, matches)
            && forall m :: m in g ==> m in orders && m.customer == c
  {
    hide Linked, NotEarlier, WithDuplicates, Members, InOrder;
    var groups := CustomerGroups(orders, c, window, matches);
    ClustersAreGroups(groups, cluster);
    var k: nat :| ClusterAt(groups, cluster, k);
    var g := [cluster.main] + cluster.duplicates;
    assert g == groups[k];
    OwnOrdersDistinct(orders, c);
    ByTimeIsInOrder(OrdersOf(orders, c));
    GroupsAreFirstFit(ByTime(OrdersOf(orders, c)), window, matches);
    forall m | m in g ensures m in orders && m.customer == c {
      GroupMember(groups, k, m);
      GroupsHoldOrders(orders, c, window, matches, m);
    }
  }

  /** And every group of a customer that holds a duplicate is reported. */
  lemma GroupsAreReported(orders: seq<Candidate>, c: CustomerId, window: int, matches: Matching, g: Group)
    requires g in CustomerGroups(orders, c, window, matches) && |g| > 1
    ensures Cluster(g[0], g[1..]) in Report(orders, Customers(orders), window, matches)
  {
    var groups, cluster := CustomerGroups(orders, c, window, matches), Cluster(g[0], g[1..]);
    var k :| 0 <= k < |groups| && groups[k] == g;
    assert ClusterAt(groups, cluster, k);
    ClustersAreGroups(groups, cluster);
    GroupMember(groups, k, g[0]);
    GroupsHoldOrders(orders, c, window, matches, g[0]);
    CustomersAreThose(orders);
    ReportCollects(orders, Customers(orders), window, matches, cluster);
  }

  /** Every order of a customer is in exactly one of the customer's groups. */
  lemma CustomersPartition(orders: seq<Candidate>, c: CustomerId, window: int, matches: Matching)
    ensures Members(CustomerGroups(orders, c, window, matches)) == multiset(OrdersOf(orders, c))
    ensures forall o :: multiset(OrdersOf(orders, c))[o] == if o.customer == c then multiset(orders)[o] else 0
  {
    GroupsPartition(ByTime(OrdersOf(orders, c)), window, matches);
    ByTimeKeeps(OrdersOf(orders, c));
    OrdersOfCustomer(orders, c);
  }

  lemma GroupsHoldOrders(orders: seq<Candidate>, c: CustomerId, window: int, matches: Matching, m: Candidate)
    requires m in Members(CustomerGroups(orders, c, window, matches))
    ensures m in orders && m.customer == c
  {
    CustomersPartition(orders, c, window, matches);
    assert multiset(orders)[m] > 0;
  }

  // ---- The order in which orders are read does not matter ----

  lemma SameFirst(a: seq<Candidate>, b: seq<Candidate>)
    requires a != [] && b != [] && InOrder(a) && InOrder(b) && multiset(a) == multiset(b)
    ensures a[0] == b[0]
  {
    hide InOrder;
    assert a[0] in multiset(b) && b[0] in multiset(a);
    OrderTail(a);
    OrderTail(b);
    assert a == [a[0]] + a[1..] && b == [b[0]] + b[1..];
    assert b[0] in a && a[0] in b;
  }

  lemma {:induction false} TimeOrderIsUnique(a: seq<Candidate>, b: seq<Candidate>)
    requires InOrder(a) && InOrder(b) && multiset(a) == multiset(b)
    ensures a == b
  {
    hide InOrder;
    SameSize(a, b);
    if a != [] {
      SameFirst(a, b);
      OrderTail(a);
      OrderTail(b);
      SameTails(a, b);
      TimeOrderIsUnique(a[1..], b[1..]);
    }
  }

  lemma SameGroups(a: seq<Candidate>, b: seq<Candidate>, c: CustomerId, window: int, matches: Matching)
    requires DistinctIds(a) && DistinctIds(b) && multiset(a) == multiset(b)
    ensures CustomerGroups(a, c, window, matches) == CustomerGroups(b, c, window, matches)
  {
    hide DistinctIds, InOrder, OrdersOf, ByTime, Groups;
    SameOwn(a, b, c);
    SortedOwn(a, c);
    SortedOwn(b, c);
    TimeOrderIsUnique(ByTime(OrdersOf(a, c)), ByTime(OrdersOf(b, c)));
  }

  lemma SameOwn(a: seq<Candidate>, b: seq<Candidate>, c: CustomerId)
    requires multiset(a) == multiset(b)
    ensures multiset(OrdersOf(a, c)) == multiset(OrdersOf(b, c))
  {
    OrdersOfCustomer(a, c);
    OrdersOfCustomer(b, c);
  }

  /** As a set, the report does not depend on the order of the input. */
  lemma ReportIgnoresOrder(a: seq<Candidate>, b: seq<Candidate>, window: int, matches: Matching, cluster: Cluster)
    requires DistinctIds(a) && DistinctIds(b) && multiset(a) == multiset(b)
    ensures cluster in Report(a, Customers(a), window, matches) <==> cluster in Report(b, Customers(b), window, matches)
  {
    hide WithDuplicates, CustomerGroups;
    ReportCollects(a, Customers(a), window, matches, cluster);
    ReportCollects(b, Customers(b), window, matches, cluster);
    CustomersAreThose(a);
    CustomersAreThose(b);
    assert forall o :: o in a <==> o in multiset(a);
    assert forall o :: o in b <==> o in multiset(b);
    forall c ensures CustomerGroups(a, c, window, matches) == CustomerGroups(b, c, window, matches) {
      SameGroups(a, b, c, window, matches);
    }
  }

  // ---- Later orders and quiet periods, for the whole report ----

  lemma {:induction false} NoOrders(orders: seq<Candidate>, c: CustomerId)
    requires forall o :: o in orders ==> o.customer != c
    ensures OrdersOf(orders, c) == []
  {
    if orders != [] {
      assert orders[|orders| - 1] in orders;
      NoOrders(orders[..|orders| - 1], c);
    }
  }

  /** A cluster is reported exactly when it is one of some customer's groups. */
  lemma ReportIs(orders: seq<Candidate>, window: int, matches: Matching, cluster: Cluster)
    ensures cluster in Report(orders, Customers(orders), window, matches) <==>
            exists c :: cluster in WithDuplicates(CustomerGroups(orders, c, window, matches))
  {
    ReportCollects(orders, Customers(orders), window, matches, cluster);
    CustomersAreThose(orders);
    forall c | cluster in WithDuplicates(CustomerGroups(orders, c, window, matches)) ensures c in Customers(orders) {
      if forall o :: o in orders ==> o.customer != c {
        NoOrders(orders, c);
      }
    }
  }

  ghost predicate LatestOfCustomer(orders: seq<Candidate>, o: Candidate) {
    forall m :: m in orders && m.customer == o.customer ==> Before(m, o)
  }

  function IfOwn(o: Candidate, c: CustomerId): seq<Candidate> { if o.customer == c then [o] else [] }

  lemma OwnOrdersGrow(orders: seq<Candidate>, more: seq<Candidate>, o: Candidate, c: CustomerId)
    requires multiset(more) == multiset(orders) + multiset{o}
    ensures multiset(OrdersOf(more, c)) == multiset(OrdersOf(orders, c)) + multiset(IfOwn(o, c))
  {
    hide OrdersOf;
    var now, before := multiset(OrdersOf(more, c)), multiset(OrdersOf(orders, c));
    OrdersOfCustomer(orders, c);
    OrdersOfCustomer(more, c);
    forall x ensures now[x] == before[x] + multiset(IfOwn(o, c))[x] {
      assert multiset(more)[x] == multiset(orders)[x] + multiset{o}[x];
    }
  }

  lemma LatestGoesLast(orders: seq<Candidate>, o: Candidate, c: CustomerId)
    requires InOrder(ByTime(OrdersOf(orders, c))) && LatestOfCustomer(orders, o)
    ensures InOrder(ByTime(OrdersOf(orders, c)) + IfOwn(o, c))
  {
    hide InOrder, ByTime, OrdersOf, Before;
    var sorted := ByTime(OrdersOf(orders, c));
    if o.customer == c {
      forall m | m in sorted ensures Before(m, o) {
        SortedMember(orders, c, m);
      }
      InOrderNext(sorted, o);
    } else {
      assert sorted + [] == sorted;
    }
  }

  lemma SortedOwn(orders: seq<Candidate>, c: CustomerId)
    requires DistinctIds(orders)
    ensures InOrder(ByTime(OrdersOf(orders, c))) &&
            multiset(ByTime(OrdersOf(orders, c))) == multiset(OrdersOf(orders, c))
  {
    OwnOrdersDistinct(orders, c);
    ByTimeIsInOrder(OrdersOf(orders, c));
    ByTimeKeeps(OrdersOf(orders, c));
  }

  /** One more order, the latest of its customer, wherever the input lists it, goes to the end of that customer's
      list. */
  lemma OneMoreOrder(orders: seq<Candidate>, more: seq<Candidate>, o: Candidate, c: CustomerId)
    requires DistinctIds(orders) && DistinctIds(more) && multiset(more) == multiset(orders) + multiset{o}
    requires LatestOfCustomer(orders, o)
    ensures ByTime(OrdersOf(more, c)) == ByTime(OrdersOf(orders, c)) + IfOwn(o, c)
  {
    hide DistinctIds, InOrder, OrdersOf, ByTime, LatestOfCustomer, IfOwn;
    SortedOwn(orders, c);
    SortedOwn(more, c);
    OwnOrdersGrow(orders, more, o, c);
    LatestGoesLast(orders, o, c);
    TimeOrderIsUnique(ByTime(OrdersOf(more, c)), ByTime(OrdersOf(orders, c)) + IfOwn(o, c));
  }

  /** An order placed after all of its customer's never changes earlier memberships: every reported cluster is still
      reported, at most with the new order at its end, and every other cluster reported now contains the new order. */
  lemma LaterOrderKeepsClusters(orders: seq<Candidate>, more: seq<Candidate>, o: Candidate, window: int,
                                matches: Matching, cluster: Cluster)
    requires DistinctIds(orders) && DistinctIds(more) && multiset(more) == multiset(orders) + multiset{o}
    requires LatestOfCustomer(orders, o)
    ensures cluster in Report(orders, Customers(orders), window, matches) ==>
              || cluster in Report(more, Customers(more), window, matches)
              || cluster.(duplicates := cluster.duplicates + [o]) in Report(more, Customers(more), window, matches)
    ensures cluster in Report(more, Customers(more), window, matches) ==>
              cluster in Report(orders, Customers(orders), window, matches) || o in [cluster.main] + cluster.duplicates
  {
    hide Report, WithDuplicates, CustomerGroups, DistinctIds, LatestOfCustomer;
    var grown := cluster.(duplicates := cluster.duplicates + [o]);
    ReportIs(orders, window, matches, cluster);
    ReportIs(more, window, matches, cluster);
    ReportIs(more, window, matches, grown);
    forall c
      ensures var before, after := WithDuplicates(CustomerGroups(orders, c, window, matches)),
                                   WithDuplicates(CustomerGroups(more, c, window, matches));
              && (cluster in before ==> cluster in after || grown in after)
              && (cluster in after ==> cluster in before || o in [cluster.main] + cluster.duplicates)
    {
      OneMoreOrder(orders, more, o, c);
      GroupsOfMore(orders, more, o, c, window, matches);
      ClustersOfMore(CustomerGroups(orders, c, window, matches), CustomerGroups(more, c, window, matches), o, cluster);
    }
  }

  /** Groups after placing one order: the same, or one of them grown, or one opened. */
  ghost predicate GrownBy(before: seq<Group>, after: seq<Group>, o: Candidate) {
    && |before| <= |after|
    && (forall k :: 0 <= k < |before| ==> after[k] == before[k] || after[k] == before[k] + [o])
    && forall k :: |before| <= k < |after| ==> after[k] == [o]
  }

  lemma GroupsOfMore(orders: seq<Candidate>, more: seq<Candidate>, o: Candidate, c: CustomerId, window: int,
                     matches: Matching)
    requires ByTime(OrdersOf(more, c)) == ByTime(OrdersOf(orders, c)) + IfOwn(o, c)
    ensures GrownBy(CustomerGroups(orders, c, window, matches), CustomerGroups(more, c, window, matches), o)
  {
    var mine := ByTime(OrdersOf(orders, c));
    if o.customer == c {
      assert (mine + [o])[..|mine|] == mine;
      PlacedAt(Groups(mine, window, matches), o, window, matches);
    } else {
      assert mine + [] == mine;
    }
  }

  lemma ClustersOfMore(before: seq<Group>, after: seq<Group>, o: Candidate, cluster: Cluster)
    requires GrownBy(before, after, o)
    ensures cluster in WithDuplicates(before) ==>
              cluster in WithDuplicates(after) ||
              cluster.(duplicates := cluster.duplicates + [o]) in WithDuplicates(after)
    ensures cluster in WithDuplicates(after) ==>
              cluster in WithDuplicates(before) || o in [cluster.main] + cluster.duplicates
  {
    hide WithDuplicates;
    var grown := cluster.(duplicates := cluster.duplicates + [o]);
    ClustersAreGroups(before, cluster);
    ClustersAreGroups(after, cluster);
    ClustersAreGroups(after, grown);
    if k: nat :| ClusterAt(before, cluster, k) {
      assert after[k] == before[k] ==> ClusterAt(after, cluster, k);
      assert (before[k] + [o])[1..] == before[k][1..] + [o];
      assert after[k] == before[k] + [o] ==> ClusterAt(after, grown, k);
    }
    if k: nat :| ClusterAt(after, cluster, k) {
      assert [cluster.main] + cluster.duplicates == after[k];
      assert k < |before| && after[k] == before[k] ==> ClusterAt(before, cluster, k);
    }
  }

  lemma {:induction false} OrdersOfBoth(early: seq<Candidate>, late: seq<Candidate>, c: CustomerId)
    ensures OrdersOf(early + late, c) == OrdersOf(early, c) + OrdersOf(late, c)
  {
    if late == [] {
      assert early + late == early;
    } else {
      var n := |late| - 1;
      OrdersOfBoth(early, late[..n], c);
      assert (early + late)[..|early + late| - 1] == early + late[..n] && (early + late)[|early + late| - 1] == late[n];
    }
  }

  lemma OrderJoin(early: seq<Candidate>, late: seq<Candidate>)
    requires InOrder(early) && InOrder(late) && forall a, b :: a in early && b in late ==> Before(a, b)
    ensures InOrder(early + late)
  {
    var all := early + late;
    forall j, k | 0 <= j < k < |all| ensures Before(all[j], all[k]) {
      assert j < |early| ==> all[j] == early[j] && all[j] in early;
      assert k >= |early| ==> all[k] == late[k - |early|] && all[k] in late;
      assert j >= |early| ==> all[j] == late[j - |early|];
    }
  }

  /** Each customer's late orders were placed later than the early ones, by more than the window. */
  ghost predicate QuietBetween(early: seq<Candidate>, late: seq<Candidate>, window: int) {
    forall a, b :: a in early && b in late && a.customer == b.customer ==>
                     a.placedAt < b.placedAt && b.placedAt - a.placedAt > window
  }

  lemma SortedMember(orders: seq<Candidate>, c: CustomerId, m: Candidate)
    requires m in ByTime(OrdersOf(orders, c))
    ensures m in orders && m.customer == c
  {
    ByTimeKeeps(OrdersOf(orders, c));
    assert m in multiset(ByTime(OrdersOf(orders, c)));
    OwnMember(orders, c, m);
  }

  lemma {:induction false} OwnMember(orders: seq<Candidate>, c: CustomerId, m: Candidate)
    requires m in OrdersOf(orders, c)
    ensures m in orders && m.customer == c
  {
    var rest := orders[..|orders| - 1];
    assert orders == rest + [orders[|orders| - 1]];
    if m in OrdersOf(rest, c) {
      OwnMember(rest, c, m);
    }
  }

  lemma SortedBoth(early: seq<Candidate>, late: seq<Candidate>, c: CustomerId, window: int)
    requires QuietBetween(early, late, window)
    ensures forall a, b :: a in ByTime(OrdersOf(early, c)) && b in ByTime(OrdersOf(late, c)) ==>
                             Before(a, b) && b.placedAt - a.placedAt > window
  {
    hide ByTime, OrdersOf;
    forall a, b | a in ByTime(OrdersOf(early, c)) && b in ByTime(OrdersOf(late, c))
      ensures Before(a, b) && b.placedAt - a.placedAt > window
    {
      SortedMember(early, c, a);
      SortedMember(late, c, b);
    }
  }

  lemma CustomerGap(early: seq<Candidate>, late: seq<Candidate>, c: CustomerId, window: int, matches: Matching)
    requires DistinctIds(early) && DistinctIds(late) && DistinctIds(early + late) && QuietBetween(early, late, window)
    ensures CustomerGroups(early + late, c, window, matches) ==
            CustomerGroups(early, c, window, matches) + CustomerGroups(late, c, window, matches)
  {
    hide DistinctIds, InOrder, Groups, QuietBetween, Before, OrdersOf, ByTime;
    var first, second := ByTime(OrdersOf(early, c)), ByTime(OrdersOf(late, c));
    OrdersOfBoth(early, late, c);
    SortedOwn(early, c);
    SortedOwn(late, c);
    SortedOwn(early + late, c);
    SortedBoth(early, late, c, window);
    OrderJoin(first, second);
    TimeOrderIsUnique(ByTime(OrdersOf(early + late, c)), first + second);
    GapsSplit(first, second, window, matches);
  }

  lemma {:induction false} ClustersOfBoth(a: seq<Group>, b: seq<Group>)
    ensures WithDuplicates(a + b) == WithDuplicates(a) + WithDuplicates(b)
  {
    if b == [] {
      assert a + b == a;
    } else {
      var n := |b| - 1;
      ClustersOfBoth(a, b[..n]);
      assert (a + b)[..|a + b| - 1] == a + b[..n] && (a + b)[|a + b| - 1] == b[n];
    }
  }

  /** A quiet period splits the report: it holds exactly the clusters of the orders before and of those after. */
  lemma GapSplitsReport(early: seq<Candidate>, late: seq<Candidate>, window: int, matches: Matching, cluster: Cluster)
    requires DistinctIds(early) && DistinctIds(late) && DistinctIds(early + late) && QuietBetween(early, late, window)
    ensures cluster in Report(early + late, Customers(early + late), window, matches) <==>
            || cluster in Report(early, Customers(early), window, matches)
            || cluster in Report(late, Customers(late), window, matches)
  {
    hide Report, WithDuplicates, CustomerGroups, DistinctIds, QuietBetween, Customers;
    ReportIs(early + late, window, matches, cluster);
    ReportIs(early, window, matches, cluster);
    ReportIs(late, window, matches, cluster);
    forall c
      ensures WithDuplicates(CustomerGroups(early + late, c, window, matches)) ==
              WithDuplicates(CustomerGroups(early, c, window, matches)) +
              WithDuplicates(CustomerGroups(late, c, window, matches))
    {
      CustomerGap(early, late, c, window, matches);
      ClustersOfBoth(CustomerGroups(early, c, window, matches), CustomerGroups(late, c, window, matches));
    }
  }
}
