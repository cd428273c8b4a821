/** Grouping a store's orders into probable duplicates: first fit over each customer's orders in time order. */
module DuplicateClustering {
  import opened Basics

  type CustomerId = nat

  // ---- When two lines are the same product ----

  /** A line's identities. Empty text counts as absent; stock-keeping unit and name are trimmed, in lower case and with
      single spaces. */
  datatype Line = Line(warehouse: Option<nat>, product: Option<nat>, variant: Option<nat>, sku: Option<nat>,
                       name: Option<nat>)

  datatype ProductKey =
    | WarehouseKey(id: nat)
    | ProductIdKey(connection: nat, id: nat)
    | VariantIdKey(connection: nat, id: nat)
    | SkuKey(text: nat)
    | NameKey(text: nat)

  function LineProductKeys(l: Line, connection: nat): set<ProductKey> {
    (if l.warehouse.Some? then {WarehouseKey(l.warehouse.value)} else {}) +
    (if l.product.Some? then {ProductIdKey(connection, l.product.value)} else {}) +
    (if l.variant.Some? then {VariantIdKey(connection, l.variant.value)} else {}) +
    (if l.sku.Some? then {SkuKey(l.sku.value)} else {}) +
    (if l.name.Some? then {NameKey(l.name.value)} else {})
  }

  predicate DuplicateLinesMatch(a: Line, connectionA: nat, b: Line, connectionB: nat) {
    var same := connectionA == connectionB;
    if a.warehouse.Some? && b.warehouse.Some? then a.warehouse == b.warehouse
    else if same && a.variant.Some? && b.variant.Some? then a.variant == b.variant
    else if same && a.product.Some? && b.product.Some? && a.product != b.product then false
    else if a.sku.Some? && b.sku.Some? then a.sku == b.sku
    else if same && a.product.Some? && b.product.Some? then a.product == b.product
    else a.name.Some? && a.name == b.name
  }

  predicate Both(x: Option<nat>, y: Option<nat>) { x.Some? && y.Some? }

  /** Matching is symmetric and never claims more than a shared key. */
  lemma MatchingIsSound(a: Line, connectionA: nat, b: Line, connectionB: nat)
    ensures DuplicateLinesMatch(a, connectionA, b, connectionB) == DuplicateLinesMatch(b, connectionB, a, connectionA)
    ensures DuplicateLinesMatch(a, connectionA, b, connectionB) ==>
              LineProductKeys(a, connectionA) * LineProductKeys(b, connectionB) != {}
  {
    var shared := LineProductKeys(a, connectionA) * LineProductKeys(b, connectionB);
    if DuplicateLinesMatch(a, connectionA, b, connectionB) {
      assert (a.warehouse.Some? && WarehouseKey(a.warehouse.value) in shared) ||
             (a.variant.Some? && VariantIdKey(connectionA, a.variant.value) in shared) ||
             (a.product.Some? && ProductIdKey(connectionA, a.product.value) in shared) ||
             (a.sku.Some? && SkuKey(a.sku.value) in shared) || (a.name.Some? && NameKey(a.name.value) in shared);
    }
  }

  /** When lines match, in full: the first of these identities that both know decides, agreeing or in conflict, whatever
      the weaker ones say. They are the warehouse product, then within one connection the variant, then a conflict of
      platform products, then the stock-keeping unit, then agreeing platform products, and last the name. */
  lemma MatchingDecides(a: Line, connectionA: nat, b: Line, connectionB: nat)
    ensures var matching := DuplicateLinesMatch(a, connectionA, b, connectionB);
            var variants := connectionA == connectionB && Both(a.variant, b.variant);
            var products := connectionA == connectionB && Both(a.product, b.product);
            && (Both(a.warehouse, b.warehouse) ==> (matching <==> a.warehouse == b.warehouse))
            && (!Both(a.warehouse, b.warehouse) && variants ==> (matching <==> a.variant == b.variant))
            && (!Both(a.warehouse, b.warehouse) && !variants && products && a.product != b.product ==> !matching)
            && (!Both(a.warehouse, b.warehouse) && !variants && (!products || a.product == b.product) ==>
                  (Both(a.sku, b.sku) ==> (matching <==> a.sku == b.sku)) &&
                  (!Both(a.sku, b.sku) && products ==> matching))
            && (!Both(a.warehouse, b.warehouse) && !variants && !products && !Both(a.sku, b.sku) ==>
                  (matching <==> Both(a.name, b.name) && a.name == b.name))
  {
  }

  /** When lines share a product key: platform identities count within one connection only, the others across. */
  lemma SharedKeys(a: Line, connectionA: nat, b: Line, connectionB: nat)
    ensures LineProductKeys(a, connectionA) * LineProductKeys(b, connectionB) != {} <==>
            || (Both(a.warehouse, b.warehouse) && a.warehouse == b.warehouse)
            || (connectionA == connectionB && Both(a.product, b.product) && a.product == b.product)
            || (connectionA == connectionB && Both(a.variant, b.variant) && a.variant == b.variant)
            || (Both(a.sku, b.sku) && a.sku == b.sku)
            || (Both(a.name, b.name) && a.name == b.name)
  {
    hide LineProductKeys;
    var x, y := LineProductKeys(a, connectionA), LineProductKeys(b, connectionB);
    KeysOfLine(a, connectionA);
    KeysOfLine(b, connectionB);
    if Both(a.warehouse, b.warehouse) && a.warehouse == b.warehouse {
      assert WarehouseKey(a.warehouse.value) in x * y;
    } else if connectionA == connectionB && Both(a.product, b.product) && a.product == b.product {
      assert ProductIdKey(connectionA, a.product.value) in x * y;
    } else if connectionA == connectionB && Both(a.variant, b.variant) && a.variant == b.variant {
      assert VariantIdKey(connectionA, a.variant.value) in x * y;
    } else if Both(a.sku, b.sku) && a.sku == b.sku {
      assert SkuKey(a.sku.value) in x * y;
    } else if Both(a.name, b.name) && a.name == b.name {
      assert NameKey(a.name.value) in x * y;
    }
  }

  predicate HasProductKey(l: Line, connection: nat, key: ProductKey) {
    match key
    case WarehouseKey(id) => l.warehouse == Some(id)
    case ProductIdKey(c, id) => c == connection && l.product == Some(id)
    case VariantIdKey(c, id) => c == connection && l.variant == Some(id)
    case SkuKey(text) => l.sku == Some(text)
    case NameKey(text) => l.name == Some(text)
  }

  lemma KeysOfLine(l: Line, connection: nat)
    ensures forall key :: key in LineProductKeys(l, connection) <==> HasProductKey(l, connection, key)
  {
  }

  // ---- First fit ----

  datatype Candidate = Candidate(id: OrderId, customer: CustomerId, placedAt: int, keys: set<ProductKey>)

  type Matching = (Candidate, Candidate) -> bool

  predicate SharesKey(a: Candidate, b: Candidate) { a.keys * b.keys != {} }

  /** A group lists its members in the order they joined; the first is its main order. */
  type Group = seq<Candidate>

  predicate Admits(g: Group, o: Candidate, window: int, matches: Matching) {
    g != [] && o.placedAt - g[0].placedAt <= window && exists m :: m in g && matches(o, m)
  }

  /** The first group that admits the order; the number of groups if none does. */
  function FirstFit(groups: seq<Group>, o: Candidate, window: int, matches: Matching): (k: nat)
    ensures k <= |groups|
    ensures k < |groups| ==> Admits(groups[k], o, window, matches)
    ensures forall i :: 0 <= i < k ==> !Admits(groups[i], o, window, matches)
  {
    if groups == [] then 0
    else if Admits(groups[0], o, window, matches) then 0
    else 1 + FirstFit(groups[1..], o, window, matches)
  }

  function Place(groups: seq<Group>, o: Candidate, window: int, matches: Matching): seq<Group> {
    var k := FirstFit(groups, o, window, matches);
    if k < |groups| then groups[k := groups[k] + [o]] else groups + [[o]]
  }

  function Groups(orders: seq<Candidate>, window: int, matches: Matching): seq<Group> {
    if orders == [] then []
    else Place(Groups(orders[..|orders| - 1], window, matches), orders[|orders| - 1], window, matches)
  }

  predicate Before(a: Candidate, b: Candidate) {
    a.placedAt < b.placedAt || (a.placedAt == b.placedAt && a.id < b.id)
  }

  ghost predicate InOrder(orders: seq<Candidate>) {
    forall j, k :: 0 <= j < k < |orders| ==> Before(orders[j], orders[k])
  }

  // ---- What the groups are ----

  function Members(groups: seq<Group>): multiset<Candidate> {
    if groups == [] then multiset{} else multiset(groups[0]) + Members(groups[1..])
  }

  lemma {:induction false} MembersJoin(groups: seq<Group>, k: nat, o: Candidate)
    requires k < |groups|
    ensures Members(groups[k := groups[k] + [o]]) == Members(groups) + multiset{o}
  {
    if k > 0 {
      MembersJoin(groups[1..], k - 1, o);
      assert groups[k := groups[k] + [o]][1..] == groups[1..][k - 1 := groups[k] + [o]];
    } else {
      assert groups[0 := groups[0] + [o]][1..] == groups[1..];
    }
  }

  lemma {:induction false} MembersOpen(groups: seq<Group>, o: Candidate)
    ensures Members(groups + [[o]]) == Members(groups) + multiset{o}
  {
    if groups == [] {
      assert ([] + [[o]])[1..] == [];
    } else {
      MembersOpen(groups[1..], o);
      assert (groups + [[o]])[1..] == groups[1..] + [[o]];
    }
  }

  /** Every order is in exactly one group. */
  lemma {:induction false} GroupsPartition(orders: seq<Candidate>, window: int, matches: Matching)
    ensures Members(Groups(orders, window, matches)) == multiset(orders)
  {
    if orders != [] {
      var rest, o := orders[..|orders| - 1], orders[|orders| - 1];
      var groups := Groups(rest, window, matches);
      GroupsPartition(rest, window, matches);
      assert orders == rest + [o];
      if FirstFit(groups, o, window, matches) < |groups| {
        MembersJoin(groups, FirstFit(groups, o, window, matches), o);
      } else {
        MembersOpen(groups, o);
      }
    }
  }

  /** The main order comes first, everyone is within the window of it, and each duplicate matched someone who was
      already there. */
  ghost predicate Linked(g: Group, window: int, matches: Matching) {
    && g != []
    && InOrder(g)
    && forall k :: 0 < k < |g| ==>
         && g[k].placedAt - g[0].placedAt <= window
         && exists j :: 0 <= j < k && matches(g[k], g[j])
  }

  /** No order could have joined an earlier group: it was out of that group's window or matched none of the members
      placed before it. */
  ghost predicate NotEarlier(groups: seq<Group>, window: int, matches: Matching) {
    forall i, j, o, m :: 0 <= i < j < |groups| && o in groups[j] && m in groups[i] && groups[i] != [] &&
                         Before(m, o) ==>
      o.placedAt - groups[i][0].placedAt > window || !matches(o, m)
  }

  ghost predicate AllBefore(groups: seq<Group>, o: Candidate) {
    forall i, m :: 0 <= i < |groups| && m in groups[i] ==> Before(m, o)
  }

  lemma {:induction false} GroupMember(groups: seq<Group>, i: nat, m: Candidate)
    requires i < |groups| && m in groups[i]
    ensures m in Members(groups)
  {
    if i > 0 {
      GroupMember(groups[1..], i - 1, m);
    }
  }

  lemma PlacedLast(rest: seq<Candidate>, o: Candidate, window: int, matches: Matching)
    requires InOrder(rest + [o])
    ensures InOrder(rest) && AllBefore(Groups(rest, window, matches), o)
  {
    var groups, all := Groups(rest, window, matches), rest + [o];
    assert forall k :: 0 <= k < |rest| ==> rest[k] == all[k];
    GroupsPartition(rest, window, matches);
    forall i, m | 0 <= i < |groups| && m in groups[i] ensures Before(m, o) {
      GroupMember(groups, i, m);
      assert m in multiset(rest);
      var k :| 0 <= k < |rest| && rest[k] == m;
      assert all[k] == m && all[|rest|] == o;
    }
  }

  lemma InOrderNext(g: Group, o: Candidate)
    requires InOrder(g) && forall m :: m in g ==> Before(m, o)
    ensures InOrder(g + [o])
  {
    var all := g + [o];
    forall i, k | 0 <= i < k < |all| ensures Before(all[i], all[k]) {
      assert all[i] in g;
    }
  }

  lemma LinkedNext(g: Group, o: Candidate, window: int, matches: Matching)
    requires Linked(g, window, matches) && Admits(g, o, window, matches)
    requires forall m :: m in g ==> Before(m, o)
    ensures Linked(g + [o], window, matches)
  {
    hide InOrder, Before;
    InOrderNext(g, o);
    var m :| m in g && matches(o, m);
    var j :| 0 <= j < |g| && g[j] == m;
    var all := g + [o];
    forall k | 0 < k < |all|
      ensures all[k].placedAt - all[0].placedAt <= window && exists i :: 0 <= i < k && matches(all[k], all[i])
    {
      if k < |g| {
        var i :| 0 <= i < k && matches(g[k], g[i]);
        assert all[i] == g[i];
      } else {
        assert all[j] == m;
      }
    }
  }

  lemma NotEarlierNext(groups: seq<Group>, o: Candidate, window: int, matches: Matching)
    requires NotEarlier(groups, window, matches) && AllBefore(groups, o)
    requires forall g :: g in groups ==> Linked(g, window, matches)
    ensures NotEarlier(Place(groups, o, window, matches), window, matches)
  {
    var k: nat, after: seq<Group> := FirstFit(groups, o, window, matches), Place(groups, o, window, matches);
    forall i, j, p: Candidate, m: Candidate | 0 <= i < j < |after| && p in after[j] && m in after[i] &&
                                              after[i] != [] && Before(m, p)
      ensures p.placedAt - after[i][0].placedAt > window || !matches(p, m)
    {
      assert i < |groups| && after[i][0] == groups[i][0];
      if p == o {
        if !(j < |groups| && o in groups[j]) {
          assert j == k && !Admits(groups[i], o, window, matches);
        }
      } else if m == o {
        assert p in groups[j] && Before(p, o);
      }
    }
  }

  /** The groups of orders in time order, whatever counts as a match. */
  lemma {:induction false} GroupsAreFirstFit(orders: seq<Candidate>, window: int, matches: Matching)
    requires InOrder(orders)
    ensures forall g :: g in Groups(orders, window, matches) ==> Linked(g, window, matches)
    ensures NotEarlier(Groups(orders, window, matches), window, matches)
  {
    if orders != [] {
      var rest, o := orders[..|orders| - 1], orders[|orders| - 1];
      var groups := Groups(rest, window, matches);
      assert orders == rest + [o];
      PlacedLast(rest, o, window, matches);
      GroupsAreFirstFit(rest, window, matches);
      NotEarlierNext(groups, o, window, matches);
      var k := FirstFit(groups, o, window, matches);
      if k < |groups| {
        LinkedNext(groups[k], o, window, matches);
      }
    }
  }

  lemma PlacedAt(groups: seq<Group>, o: Candidate, window: int, matches: Matching)
    ensures var k, after := FirstFit(groups, o, window, matches), Place(groups, o, window, matches);
            && |after| == Max(|groups|, k + 1)
            && forall i :: 0 <= i < |after| ==>
                 after[i] == if i < |groups| then (if i == k then groups[i] + [o] else groups[i]) else [o]
  {
  }

  // ---- A quiet period splits the groups ----

  lemma {:induction false} FarGroupsDoNotAdmit(far: seq<Group>, near: seq<Group>, o: Candidate, window: int,
                                               matches: Matching)
    requires forall i :: 0 <= i < |far| ==> !Admits(far[i], o, window, matches)
    ensures FirstFit(far + near, o, window, matches) == |far| + FirstFit(near, o, window, matches)
  {
    if far == [] {
      assert far + near == near;
    } else {
      assert (far + near)[1..] == far[1..] + near;
      FarGroupsDoNotAdmit(far[1..], near, o, window, matches);
    }
  }

  lemma PlaceBeyond(far: seq<Group>, near: seq<Group>, o: Candidate, window: int, matches: Matching)
    requires forall i :: 0 <= i < |far| ==> !Admits(far[i], o, window, matches)
    ensures Place(far + near, o, window, matches) == far + Place(near, o, window, matches)
  {
    hide FirstFit, Admits;
    FarGroupsDoNotAdmit(far, near, o, window, matches);
  }

  lemma {:induction false} MainsAreOrders(orders: seq<Candidate>, window: int, matches: Matching)
    ensures forall i :: 0 <= i < |Groups(orders, window, matches)| ==>
                        Groups(orders, window, matches)[i] != [] && Groups(orders, window, matches)[i][0] in orders
  {
    if orders != [] {
      var rest, o := orders[..|orders| - 1], orders[|orders| - 1];
      assert orders == rest + [o];
      MainsAreOrders(rest, window, matches);
      PlacedAt(Groups(rest, window, matches), o, window, matches);
    }
  }

  /** When everything after a point was placed more than the window after everything before it, both sides are grouped
      on their own. */
  lemma {:induction false} GapsSplit(early: seq<Candidate>, late: seq<Candidate>, window: int, matches: Matching)
    requires forall a, b :: a in early && b in late ==> b.placedAt - a.placedAt > window
    ensures Groups(early + late, window, matches) == Groups(early, window, matches) + Groups(late, window, matches)
  {
    hide Place;
    if late == [] {
      assert early + late == early;
    } else {
      var rest, o := late[..|late| - 1], late[|late| - 1];
      assert (early + late)[..|early + late| - 1] == early + rest && (early + late)[|early + late| - 1] == o;
      assert late == rest + [o];
      GapsSplit(early, rest, window, matches);
      MainsAreOrders(early, window, matches);
      PlaceBeyond(Groups(early, window, matches), Groups(rest, window, matches), o, window, matches);
    }
  }

  // ---- First fit is the only grouping of this kind ----

  /** Groups as they appear: in the order of their main orders, with nobody who belongs earlier. */
  ghost predicate FirstFitGrouping(groups: seq<Group>, orders: seq<Candidate>, window: int, matches: Matching) {
    && Members(groups) == multiset(orders)
    && (forall g :: g in groups ==> Linked(g, window, matches))
    && MainsAscend(groups)
    && NotEarlier(groups, window, matches)
  }

  ghost predicate MainsAscend(groups: seq<Group>) {
    forall i, j :: 0 <= i < j < |groups| ==> groups[i] != [] && groups[j] != [] && Before(groups[i][0], groups[j][0])
  }

  lemma {:induction false} GroupsMainsAscend(orders: seq<Candidate>, window: int, matches: Matching)
    requires InOrder(orders)
    ensures MainsAscend(Groups(orders, window, matches))
  {
    if orders != [] {
      var rest, o := orders[..|orders| - 1], orders[|orders| - 1];
      assert orders == rest + [o];
      PlacedLast(rest, o, window, matches);
      GroupsMainsAscend(rest, window, matches);
      MainsAreOrders(rest, window, matches);
      PlacedAt(Groups(rest, window, matches), o, window, matches);
    }
  }

  lemma GroupsAreGrouping(orders: seq<Candidate>, window: int, matches: Matching)
    requires InOrder(orders)
    ensures FirstFitGrouping(Groups(orders, window, matches), orders, window, matches)
  {
    GroupsPartition(orders, window, matches);
    GroupsAreFirstFit(orders, window, matches);
    GroupsMainsAscend(orders, window, matches);
  }

  lemma {:induction false} MemberGroup(groups: seq<Group>, m: Candidate) returns (j: nat)
    requires m in Members(groups)
    ensures j < |groups| && m in groups[j]
  {
    if m in groups[0] {
      return 0;
    }
    var k := MemberGroup(groups[1..], m);
    return k + 1;
  }

  /** Every member of the groups was placed no later than the last order. */
  lemma NobodyAfter(groups: seq<Group>, rest: seq<Candidate>, o: Candidate)
    requires InOrder(rest + [o]) && Members(groups) == multiset(rest + [o])
    ensures forall i, m :: 0 <= i < |groups| && m in groups[i] ==> (m == o || Before(m, o)) && !Before(o, m)
  {
    var all := rest + [o];
    forall i, m | 0 <= i < |groups| && m in groups[i] ensures m == o || Before(m, o) {
      GroupMember(groups, i, m);
      assert m in multiset(all);
      var k :| 0 <= k < |all| && all[k] == m;
      assert all[|rest|] == o;
    }
  }

  lemma LastOfGroup(groups: seq<Group>, rest: seq<Candidate>, o: Candidate, window: int, matches: Matching, j: nat)
    requires InOrder(rest + [o]) && FirstFitGrouping(groups, rest + [o], window, matches)
    requires j < |groups| && o in groups[j]
    ensures groups[j] != [] && groups[j][|groups[j]| - 1] == o
    ensures |groups[j]| == 1 ==> j == |groups| - 1
  {
    hide Members, NotEarlier;
    var g, last := groups[j], groups[|groups| - 1];
    assert Linked(g, window, matches) && Linked(last, window, matches);
    NobodyAfter(groups, rest, o);
    var p :| 0 <= p < |g| && g[p] == o;
    assert g[|g| - 1] in g;
    assert j < |groups| - 1 ==> Before(groups[j][0], last[0]) && last[0] in last;
  }

  lemma OrderPrefix(g: Group)
    requires InOrder(g) && g != []
    ensures InOrder(g[..|g| - 1])
  {
    hide Before;
    assert forall k :: 0 <= k < |g| - 1 ==> g[..|g| - 1][k] == g[k];
  }

  lemma LinkedPrefix(g: Group, window: int, matches: Matching)
    requires Linked(g, window, matches) && |g| > 1
    ensures Linked(g[..|g| - 1], window, matches)
  {
    hide InOrder;
    var h := g[..|g| - 1];
    OrderPrefix(g);
    forall k | 0 < k < |h|
      ensures h[k].placedAt - h[0].placedAt <= window && exists i :: 0 <= i < k && matches(h[k], h[i])
    {
      assert h[k] == g[k] && h[0] == g[0];
      var i :| 0 <= i < k && matches(g[k], g[i]);
      assert h[i] == g[i];
    }
  }

  lemma LastWasAdmitted(g: Group, window: int, matches: Matching)
    requires Linked(g, window, matches) && |g| > 1
    ensures Admits(g[..|g| - 1], g[|g| - 1], window, matches)
  {
    var h := g[..|g| - 1];
    var i :| 0 <= i < |g| - 1 && matches(g[|g| - 1], g[i]);
    assert h[i] in h && h[i] == g[i];
  }

  /** The grouping before its last order was placed. */
  lemma Unplaced(groups: seq<Group>, rest: seq<Candidate>, o: Candidate, window: int, matches: Matching)
      returns (before: seq<Group>)
    requires InOrder(rest + [o]) && FirstFitGrouping(groups, rest + [o], window, matches)
    ensures FirstFitGrouping(before, rest, window, matches) && Place(before, o, window, matches) == groups
  {
    hide InOrder, Before, Linked, NotEarlier, Admits, FirstFit, Members;
    assert multiset(rest + [o]) == multiset(rest) + multiset{o};
    var j := MemberGroup(groups, o);
    LastOfGroup(groups, rest, o, window, matches, j);
    var g := groups[j];
    if |g| == 1 {
      before := Unopened(groups, rest, o, window, matches, j);
    } else {
      before := Unjoined(groups, rest, o, window, matches, j);
    }
  }

  lemma Unopened(groups: seq<Group>, rest: seq<Candidate>, o: Candidate, window: int, matches: Matching, j: nat)
      returns (before: seq<Group>)
    requires InOrder(rest + [o]) && FirstFitGrouping(groups, rest + [o], window, matches)
    requires j == |groups| - 1 && groups[j] == [o]
    ensures FirstFitGrouping(before, rest, window, matches) && Place(before, o, window, matches) == groups
  {
    hide InOrder, Before, Linked, Admits, FirstFit, Members;
    before := groups[..j];
    assert groups == before + [[o]];
    MembersOpen(before, o);
    OneMore(Members(before), rest, o);
    assert FirstFitGrouping(before, rest, window, matches);
    NoneEarlier(groups, before, rest, o, window, matches, j);
  }

  lemma Unjoined(groups: seq<Group>, rest: seq<Candidate>, o: Candidate, window: int, matches: Matching, j: nat)
      returns (before: seq<Group>)
    requires InOrder(rest + [o]) && FirstFitGrouping(groups, rest + [o], window, matches)
    requires j < |groups| && |groups[j]| > 1 && groups[j][|groups[j]| - 1] == o
    ensures FirstFitGrouping(before, rest, window, matches) && Place(before, o, window, matches) == groups
  {
    hide InOrder, Before, Linked, Admits, FirstFit, Members;
    var g := groups[j];
    var h := g[..|g| - 1];
    assert g == h + [o];
    before := groups[j := h];
    assert groups == before[j := before[j] + [o]];
    MembersJoin(before, j, o);
    OneMore(Members(before), rest, o);
    assert g in groups;
    LinkedPrefix(g, window, matches);
    LastWasAdmitted(g, window, matches);
    assert FirstFitGrouping(before, rest, window, matches);
    NoneEarlier(groups, before, rest, o, window, matches, j);
  }

  /** The last order is only in its own group, so no earlier group admitted it. */
  lemma NoneEarlier(groups: seq<Group>, before: seq<Group>, rest: seq<Candidate>, o: Candidate, window: int,
                    matches: Matching, j: nat)
    requires InOrder(rest + [o]) && FirstFitGrouping(groups, rest + [o], window, matches)
    requires j < |groups| && o in groups[j] && j <= |before| && Members(before) == multiset(rest)
    requires forall i :: 0 <= i < j ==> before[i] == groups[i]
    requires if j < |before| then Admits(before[j], o, window, matches) else true
    ensures FirstFit(before, o, window, matches) == j
  {
    hide Members;
    NobodyAfter(groups, rest, o);
    NotYetPlaced(rest, o);
    NotMember(before, o);
  }

  lemma NotYetPlaced(rest: seq<Candidate>, o: Candidate)
    requires InOrder(rest + [o])
    ensures o !in multiset(rest)
  {
    var all := rest + [o];
    assert forall k :: 0 <= k < |rest| ==> rest[k] == all[k] && Before(all[k], all[|rest|]);
  }

  lemma NotMember(groups: seq<Group>, m: Candidate)
    requires m !in Members(groups)
    ensures forall i :: 0 <= i < |groups| ==> m !in groups[i]
  {
    forall i | 0 <= i < |groups| ensures m !in groups[i] {
      if m in groups[i] {
        GroupMember(groups, i, m);
      }
    }
  }

  lemma OneMore(members: multiset<Candidate>, rest: seq<Candidate>, o: Candidate)
    requires members + multiset{o} == multiset(rest + [o])
    ensures members == multiset(rest)
  {
    assert multiset(rest + [o]) == multiset(rest) + multiset{o};
    assert members == members + multiset{o} - multiset{o};
    assert multiset(rest) == multiset(rest) + multiset{o} - multiset{o};
  }

  lemma FirstIsMember(groups: seq<Group>)
    ensures groups != [] && groups[0] != [] ==> groups[0][0] in Members(groups)
  {
  }

  lemma NoGroups(groups: seq<Group>, window: int, matches: Matching)
    requires FirstFitGrouping(groups, [], window, matches)
    ensures groups == []
  {
    hide Members, NotEarlier;
    FirstIsMember(groups);
    assert groups == [] || Linked(groups[0], window, matches);
  }

  /** Groups of this kind exist in only one way: the loop finds the grouping, not just a grouping. */
  lemma {:induction false} FirstFitIsUnique(groups: seq<Group>, orders: seq<Candidate>, window: int, matches: Matching)
    requires InOrder(orders) && FirstFitGrouping(groups, orders, window, matches)
    ensures groups == Groups(orders, window, matches)
    decreases |orders|
  {
    hide FirstFitGrouping, InOrder, Place;
    if orders == [] {
      NoGroups(groups, window, matches);
    } else {
      var rest, o := orders[..|orders| - 1], orders[|orders| - 1];
      assert orders == rest + [o];
      var before := Unplaced(groups, rest, o, window, matches);
      RestInOrder(rest, o);
      FirstFitIsUnique(before, rest, window, matches);
    }
  }

  lemma RestInOrder(rest: seq<Candidate>, o: Candidate)
    requires InOrder(rest + [o])
    ensures InOrder(rest)
  {
    assert forall k :: 0 <= k < |rest| ==> rest[k] == (rest + [o])[k];
  }
}
