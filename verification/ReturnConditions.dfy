/** Recording what came back of an order line: checking a submission, its canonical entries, when it covers the line,
    and how the line's price is split over it. Stored money is in ten-thousandths. */
module ReturnConditions {
  import opened Basics
  import opened Catalogue

  /** In the order of their names. */
  datatype ProductCondition = DAMAGED | GOOD | LOST | MISSING | RETURNED {
    function Rank(): nat {
      match this
      case DAMAGED => 0
      case GOOD => 1
      case LOST => 2
      case MISSING => 3
      case RETURNED => 4
    }
  }

  /** One row of a submission; the revisions the rows expect are kept beside them. */
  datatype Allocation = Allocation(component: Option<VariantId>, quantity: Option<int>, condition: ProductCondition,
                                   damageCost: Option<real>)

  /** An order line as a return sees it; costs are converted at the rate. */
  datatype SoldLine = SoldLine(quantity: int, totalPrice: real, variant: Option<Variant>, rate: real)

  datatype Error =
    | ForeignLine | ComponentMix | QuantityRequired | UnknownComponent | NegativeDamageCost | BadQuantity
    | OverCapacity | RepeatedCondition | RevisionConflict | LossOutOfRange

  const MAX_SAFE_INTEGER := 9007199254740991

  // ---- Checking a submission ----

  function Components(line: SoldLine): seq<Component> {
    if line.variant.Some? && line.variant.value.physical.bundle then line.variant.value.physical.components else []
  }

  function FindComponent(cs: seq<Component>, v: VariantId): (r: Option<Component>)
    ensures r.Some? ==> r.value in cs && r.value.variant == v
    ensures r == None <==> forall c :: c in cs ==> c.variant != v
  {
    if cs == [] then None else if cs[0].variant == v then Some(cs[0]) else FindComponent(cs[1..], v)
  }

  function Asked(line: SoldLine, a: Allocation): int { if a.quantity.Some? then a.quantity.value else line.quantity }

  /** What may be allocated to a component, or to the whole line. */
  function Capacity(line: SoldLine, key: Option<VariantId>): int {
    match key
    case None => line.quantity
    case Some(v) =>
      match FindComponent(Components(line), v)
      case None => 0
      case Some(c) => c.quantity * line.quantity
  }

  function Allocated(line: SoldLine, rows: seq<Allocation>, key: Option<VariantId>): int {
    if rows == [] then 0
    else
      Allocated(line, rows[..|rows| - 1], key) +
      (if rows[|rows| - 1].component == key then Asked(line, rows[|rows| - 1]) else 0)
  }

  predicate SameIdentity(a: Allocation, b: Allocation) { a.component == b.component && a.condition == b.condition }

  predicate Repeats(rows: seq<Allocation>, a: Allocation) { exists r :: r in rows && SameIdentity(r, a) }

  predicate RowSound(line: SoldLine, a: Allocation) {
    && (a.component.Some? ==> FindComponent(Components(line), a.component.value).Some?)
    && (a.damageCost.Some? ==> a.damageCost.value >= 0.0)
    && 1 <= Asked(line, a) <= MAX_SAFE_INTEGER
  }

  function CheckRow(line: SoldLine, prior: seq<Allocation>, a: Allocation): Option<Error> {
    if a.component.Some? && FindComponent(Components(line), a.component.value) == None then Some(UnknownComponent)
    else if a.damageCost.Some? && a.damageCost.value < 0.0 then Some(NegativeDamageCost)
    else if Asked(line, a) < 1 || Asked(line, a) > MAX_SAFE_INTEGER then Some(BadQuantity)
    else if Allocated(line, prior, a.component) + Asked(line, a) > Capacity(line, a.component) then Some(OverCapacity)
    else if Repeats(prior, a) then Some(RepeatedCondition)
    else None
  }

  function CheckRows(line: SoldLine, rows: seq<Allocation>): Option<Error> {
    if rows == [] then None
    else
      var earlier := CheckRows(line, rows[..|rows| - 1]);
      if earlier.Some? then earlier else CheckRow(line, rows[..|rows| - 1], rows[|rows| - 1])
  }

  predicate ComponentMode(rows: seq<Allocation>) { exists a :: a in rows && a.component.Some? }

  function Check(line: SoldLine, rows: seq<Allocation>): Option<Error> {
    if ComponentMode(rows) && (Components(line) == [] || exists a :: a in rows && a.component == None)
    then Some(ComponentMix)
    else if |rows| > 1 && exists a :: a in rows && a.quantity == None then Some(QuantityRequired)
    else CheckRows(line, rows)
  }

  /** The check as the service runs it, with running totals per component and the identities seen. */
  method CheckSubmission(line: SoldLine, rows: seq<Allocation>) returns (error: Option<Error>)
    ensures error == Check(line, rows)
  {
    var mode := exists a :: a in rows && a.component.Some?;
    if mode && (Components(line) == [] || exists a :: a in rows && a.component == None) {
      return Some(ComponentMix);
    }
    if |rows| > 1 && exists a :: a in rows && a.quantity == None {
      return Some(QuantityRequired);
    }
    error := CheckEachRow(line, rows);
  }

  method CheckEachRow(line: SoldLine, rows: seq<Allocation>) returns (error: Option<Error>)
    ensures error == CheckRows(line, rows)
  {
    hide FindComponent, Capacity, Asked, Allocated, Repeats, CheckRows;
    NoRows(line);
    var totals: map<Option<VariantId>, int> := map[];
    var identities: set<(Option<VariantId>, ProductCondition)> := {};
    for k := 0 to |rows|
      invariant CheckRows(line, rows[..k]) == None
      invariant forall key :: (if key in totals then totals[key] else 0) == Allocated(line, rows[..k], key)
      invariant forall a: Allocation :: (a.component, a.condition) in identities <==> Repeats(rows[..k], a)
    {
      var a := rows[k];
      NextRow(line, rows, k);
      if a.component.Some? && FindComponent(Components(line), a.component.value) == None {
        return Some(UnknownComponent);
      }
      if a.damageCost.Some? && a.damageCost.value < 0.0 {
        return Some(NegativeDamageCost);
      }
      var quantity := Asked(line, a);
      if quantity < 1 || quantity > MAX_SAFE_INTEGER {
        return Some(BadQuantity);
      }
      totals := totals[a.component := (if a.component in totals then totals[a.component] else 0) + quantity];
      if totals[a.component] > Capacity(line, a.component) {
        return Some(OverCapacity);
      }
      if (a.component, a.condition) in identities {
        return Some(RepeatedCondition);
      }
      identities := identities + {(a.component, a.condition)};
    }
    assert rows[..|rows|] == rows;
    return None;
  }

  lemma NoRows(line: SoldLine)
    ensures CheckRows(line, []) == None
    ensures forall key :: Allocated(line, [], key) == 0
    ensures forall a :: !Repeats([], a)
  {
  }

  lemma {:induction false} FirstErrorStays(line: SoldLine, rows: seq<Allocation>, k: nat)
    requires k <= |rows| && CheckRows(line, rows[..k]).Some?
    ensures CheckRows(line, rows) == CheckRows(line, rows[..k])
    decreases |rows|
  {
    if k < |rows| {
      assert rows[..|rows| - 1][..k] == rows[..k];
      FirstErrorStays(line, rows[..|rows| - 1], k);
    } else {
      assert rows[..k] == rows;
    }
  }

  lemma NextRow(line: SoldLine, rows: seq<Allocation>, k: nat)
    requires k < |rows| && CheckRows(line, rows[..k]) == None
    ensures CheckRows(line, rows[..k + 1]) == CheckRow(line, rows[..k], rows[k])
    ensures CheckRow(line, rows[..k], rows[k]).Some? ==> CheckRows(line, rows) == CheckRow(line, rows[..k], rows[k])
    ensures forall key :: Allocated(line, rows[..k + 1], key) ==
                          Allocated(line, rows[..k], key) +
                          (if rows[k].component == key then Asked(line, rows[k]) else 0)
    ensures forall a :: Repeats(rows[..k + 1], a) <==> Repeats(rows[..k], a) || SameIdentity(rows[k], a)
  {
    assert rows[..k + 1][..k] == rows[..k];
    assert rows[..k + 1] == rows[..k] + [rows[k]];
    if CheckRow(line, rows[..k], rows[k]).Some? {
      FirstErrorStays(line, rows, k + 1);
    }
  }

  // ---- What is accepted ----

  ghost predicate NoRepeats(rows: seq<Allocation>) {
    forall j, k :: 0 <= j < k < |rows| ==> !SameIdentity(rows[j], rows[k])
  }

  ghost predicate RowsAccepted(line: SoldLine, rows: seq<Allocation>) {
    && (forall a :: a in rows ==> RowSound(line, a))
    && (forall a :: a in rows ==> Allocated(line, rows, a.component) <= Capacity(line, a.component))
    && NoRepeats(rows)
  }

  ghost predicate Accepted(line: SoldLine, rows: seq<Allocation>) {
    && (ComponentMode(rows) ==> Components(line) != [] && forall a :: a in rows ==> a.component.Some?)
    && (|rows| > 1 ==> forall a :: a in rows ==> a.quantity.Some?)
    && RowsAccepted(line, rows)
  }

  lemma {:induction false} AllocatedGrows(line: SoldLine, rows: seq<Allocation>, key: Option<VariantId>)
    requires forall a :: a in rows ==> RowSound(line, a)
    ensures Allocated(line, rows, key) >= 0
    ensures (exists a :: a in rows && a.component == key) ==> Allocated(line, rows, key) > 0
  {
    if rows != [] {
      assert rows == rows[..|rows| - 1] + [rows[|rows| - 1]];
      assert rows[|rows| - 1] in rows;
      AllocatedGrows(line, rows[..|rows| - 1], key);
    }
  }

  lemma RepeatsNext(rows: seq<Allocation>, a: Allocation)
    ensures NoRepeats(rows + [a]) <==> NoRepeats(rows) && !Repeats(rows, a)
  {
    var all := rows + [a];
    assert forall j :: 0 <= j < |rows| ==> all[j] == rows[j] && all[j] in rows;
    if NoRepeats(all) {
      assert forall j :: 0 <= j < |rows| ==> !SameIdentity(all[j], all[|rows|]);
    }
  }

  lemma CapacitiesNext(line: SoldLine, rows: seq<Allocation>, a: Allocation)
    requires RowSound(line, a)
    ensures (forall r :: r in rows + [a] ==>
             Allocated(line, rows + [a], r.component) <= Capacity(line, r.component)) <==>
            && (forall r :: r in rows ==> Allocated(line, rows, r.component) <= Capacity(line, r.component))
            && Allocated(line, rows, a.component) + Asked(line, a) <= Capacity(line, a.component)
  {
    hide Capacity;
    var all := rows + [a];
    assert all[..|rows|] == rows;
    assert forall key :: Allocated(line, all, key) ==
                         Allocated(line, rows, key) + (if a.component == key then Asked(line, a) else 0);
    assert a in all && forall r :: r in rows ==> r in all;
  }

  lemma RowsAcceptedNext(line: SoldLine, rows: seq<Allocation>, a: Allocation)
    ensures RowsAccepted(line, rows + [a]) <==> RowsAccepted(line, rows) && CheckRow(line, rows, a) == None
  {
    hide Allocated, Capacity, Repeats, NoRepeats, FindComponent;
    RepeatsNext(rows, a);
    assert a in rows + [a];
    if RowSound(line, a) {
      CapacitiesNext(line, rows, a);
    }
  }

  lemma {:induction false} RowsAcceptedExactly(line: SoldLine, rows: seq<Allocation>)
    ensures CheckRows(line, rows) == None <==> RowsAccepted(line, rows)
  {
    if rows != [] {
      var rest, a := rows[..|rows| - 1], rows[|rows| - 1];
      RowsAcceptedExactly(line, rest);
      RowsAcceptedNext(line, rest, a);
      assert rest + [a] == rows;
    }
  }

  /** What may come back: of a component as many as a pack has, times the packs ordered; of the whole line its
      quantity. */
  lemma {:induction false} CapacityIs(line: SoldLine, cs: seq<Component>, c: Component)
    requires c in cs && forall j, k :: 0 <= j < k < |cs| ==> cs[j].variant != cs[k].variant
    ensures FindComponent(cs, c.variant) == Some(c)
    ensures Capacity(line, None) == line.quantity
    ensures cs == Components(line) ==> Capacity(line, Some(c.variant)) == c.quantity * line.quantity
  {
    if cs[0] != c {
      CapacityIs(line, cs[1..], c);
    }
  }

  /** A submission passes exactly when it is all about components of a pack or all about whole pieces, says each
      quantity when it has several rows, names known components with sound amounts, stays within every
      capacity, and does not repeat a condition for the same component. */
  lemma AcceptedExactly(line: SoldLine, rows: seq<Allocation>)
    ensures Check(line, rows) == None <==> Accepted(line, rows)
  {
    RowsAcceptedExactly(line, rows);
  }

  // ---- What is said about the others ----

  /** Why a row after these is not accepted. */
  ghost predicate Fails(line: SoldLine, prior: seq<Allocation>, a: Allocation, e: Error) {
    var asked := if a.quantity.Some? then a.quantity.value else line.quantity;
    match e
    case UnknownComponent => a.component.Some? && forall c :: c in Components(line) ==> c.variant != a.component.value
    case NegativeDamageCost => a.damageCost.Some? && a.damageCost.value < 0.0
    case BadQuantity => asked < 1 || asked > 9007199254740991
    case OverCapacity => Allocated(line, prior + [a], a.component) > Capacity(line, a.component)
    case RepeatedCondition => exists r :: r in prior && r.component == a.component && r.condition == a.condition
    case _ => false
  }

  lemma {:induction false} BadRow(line: SoldLine, rows: seq<Allocation>) returns (k: nat)
    requires CheckRows(line, rows).Some?
    ensures k < |rows| && RowsAccepted(line, rows[..k]) && Fails(line, rows[..k], rows[k], CheckRows(line, rows).value)
  {
    var n := |rows| - 1;
    if CheckRows(line, rows[..n]).Some? {
      k := BadRow(line, rows[..n]);
      assert rows[..n][..k] == rows[..k];
    } else {
      k := n;
      RowsAcceptedExactly(line, rows[..n]);
      assert (rows[..n] + [rows[n]])[..n] == rows[..n];
    }
  }

  /** A refused submission is told why: it mixes components with whole pieces or names them where there are none, leaves
      a quantity open among several rows, or its first bad row fails for the reason given. */
  lemma RefusedFor(line: SoldLine, rows: seq<Allocation>)
    requires Check(line, rows).Some?
    ensures match Check(line, rows).value
            case ComponentMix =>
              (exists a :: a in rows && a.component.Some?) &&
              (Components(line) == [] || exists a :: a in rows && a.component == None)
            case QuantityRequired => |rows| > 1 && exists a :: a in rows && a.quantity == None
            case e => exists k: nat :: k < |rows| && RowsAccepted(line, rows[..k]) && Fails(line, rows[..k], rows[k], e)
  {
    hide Fails, RowsAccepted, CheckRow;
    if CheckRows(line, rows).Some? {
      var k := BadRow(line, rows);
    }
  }
}
