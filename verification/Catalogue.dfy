/** The warehouse product behind an order line, and the units a line physically consumes. */
module Catalogue {
  import opened Basics
  import opened StockFlows

  datatype Component = Component(variant: VariantId, item: Option<ItemId>, quantity: int, cost: real)

  /** A variant's physical side: a bundle is its components, anything else is its own item. */
  datatype Physical = Physical(bundle: bool, item: Option<ItemId>, components: seq<Component>)

  datatype GiftRule = GiftRule(quantity: int, physical: Physical)

  datatype PackagingRule = PackagingRule(variant: Option<VariantId>, material: nat, item: Option<ItemId>, perUnit: int)

  datatype Variant = Variant(id: VariantId, cost: real, physical: Physical, gift: Option<GiftRule>,
                             packaging: seq<PackagingRule>)

  datatype Unit = Unit(item: ItemId, quantity: int, role: Role)

  // ---- Packaging rules: a variant's own rule for a material replaces the product's ----

  function SpecificRules(variant: VariantId, rules: seq<PackagingRule>): seq<PackagingRule> {
    if rules == [] then []
    else
      SpecificRules(variant, rules[..|rules| - 1]) +
      (if rules[|rules| - 1].variant == Some(variant) then [rules[|rules| - 1]] else [])
  }

  function GeneralRules(overridden: set<nat>, rules: seq<PackagingRule>): seq<PackagingRule> {
    if rules == [] then []
    else
      GeneralRules(overridden, rules[..|rules| - 1]) +
      (if rules[|rules| - 1].variant == None && rules[|rules| - 1].material !in overridden
       then [rules[|rules| - 1]] else [])
  }

  function PackagingFor(variant: VariantId, rules: seq<PackagingRule>): seq<PackagingRule> {
    var specific := SpecificRules(variant, rules);
    specific + GeneralRules(set r | r in specific :: r.material, rules)
  }

  lemma {:induction false} SpecificMembers(variant: VariantId, rules: seq<PackagingRule>, r: PackagingRule)
    ensures multiset(SpecificRules(variant, rules))[r] == if r.variant == Some(variant) then multiset(rules)[r] else 0
    ensures r in SpecificRules(variant, rules) <==> r in rules && r.variant == Some(variant)
  {
    if rules != [] {
      assert rules == rules[..|rules| - 1] + [rules[|rules| - 1]];
      SpecificMembers(variant, rules[..|rules| - 1], r);
    }
  }

  lemma {:induction false} GeneralMembers(overridden: set<nat>, rules: seq<PackagingRule>, r: PackagingRule)
    ensures multiset(GeneralRules(overridden, rules))[r] ==
            if r.variant == None && r.material !in overridden then multiset(rules)[r] else 0
    ensures r in GeneralRules(overridden, rules) <==> r in rules && r.variant == None && r.material !in overridden
  {
    if rules != [] {
      assert rules == rules[..|rules| - 1] + [rules[|rules| - 1]];
      GeneralMembers(overridden, rules[..|rules| - 1], r);
    }
  }

  /** A rule applies exactly when it is the variant's own, or the product's with no own rule for its material, and as
      often as it is listed. */
  lemma PackagingOverrides(variant: VariantId, rules: seq<PackagingRule>, r: PackagingRule)
    ensures var applies := r.variant == Some(variant) ||
                           (r.variant == None &&
                            !exists own :: own in rules && own.variant == Some(variant) && own.material == r.material);
            && (r in PackagingFor(variant, rules) <==> r in rules && applies)
            && multiset(PackagingFor(variant, rules))[r] == if applies then multiset(rules)[r] else 0
  {
    var specific := SpecificRules(variant, rules);
    forall own ensures own in specific <==> own in rules && own.variant == Some(variant) {
      SpecificMembers(variant, rules, own);
    }
    SpecificMembers(variant, rules, r);
    GeneralMembers(set own | own in specific :: own.material, rules, r);
  }

  // ---- Units ----

  function IndexOf(units: seq<Unit>, item: ItemId, role: Role): (k: nat)
    ensures k <= |units|
    ensures k < |units| ==> units[k].item == item && units[k].role == role
    ensures forall j :: 0 <= j < k ==> units[j].item != item || units[j].role != role
  {
    if units == [] then 0
    else
      var k := IndexOf(units[..|units| - 1], item, role);
      if k < |units| - 1 then k
      else if units[|units| - 1].item == item && units[|units| - 1].role == role then k
      else |units|
  }

  function Add(units: seq<Unit>, item: Option<ItemId>, quantity: int, role: Role): seq<Unit> {
    if item == None || quantity <= 0 then units
    else
      var k := IndexOf(units, item.value, role);
      if k < |units| then units[k := units[k].(quantity := units[k].quantity + quantity)]
      else units + [Unit(item.value, quantity, role)]
  }

  function AddComponents(units: seq<Unit>, components: seq<Component>, quantity: int, role: Role): seq<Unit> {
    if components == [] then units
    else
      var c := components[|components| - 1];
      Add(AddComponents(units, components[..|components| - 1], quantity, role), c.item, c.quantity * quantity, role)
  }

  function AddPhysical(units: seq<Unit>, p: Physical, quantity: int, role: Role): seq<Unit> {
    if p.bundle then AddComponents(units, p.components, quantity, role) else Add(units, p.item, quantity, role)
  }

  function AddPackaging(units: seq<Unit>, rules: seq<PackagingRule>, quantity: int): seq<Unit> {
    if rules == [] then units
    else
      var r := rules[|rules| - 1];
      Add(AddPackaging(units, rules[..|rules| - 1], quantity), r.item, r.perUnit * quantity, Packaging)
  }

  /** Everything a line consumes: product, gift and packaging, each scaled by the ordered quantity. */
  function Expand(quantity: int, variant: Option<Variant>): seq<Unit> {
    if variant == None || quantity <= 0 then []
    else
      var v := variant.value;
      var product := AddPhysical([], v.physical, quantity, Product);
      var withGift := match v.gift
                      case None => product
                      case Some(g) => AddPhysical(product, g.physical, g.quantity * quantity, Gift);
      AddPackaging(withGift, PackagingFor(v.id, v.packaging), quantity)
  }

  method ExpandOrderLine(quantity: int, variant: Option<Variant>) returns (units: seq<Unit>)
    ensures units == Expand(quantity, variant)
  {
    units := [];
    if variant == None || quantity <= 0 {
      return;
    }
    var v := variant.value;
    units := AddPhysicalUnits(units, v.physical, quantity, Product);
    if v.gift.Some? {
      units := AddPhysicalUnits(units, v.gift.value.physical, v.gift.value.quantity * quantity, Gift);
    }
    var rules, before := PackagingFor(v.id, v.packaging), units;
    for i := 0 to |rules|
      invariant units == AddPackaging(before, rules[..i], quantity)
    {
      assert rules[..i + 1][..i] == rules[..i];
      units := Add(units, rules[i].item, rules[i].perUnit * quantity, Packaging);
    }
    assert rules[..|rules|] == rules;
  }

  method AddPhysicalUnits(units: seq<Unit>, p: Physical, quantity: int, role: Role) returns (r: seq<Unit>)
    ensures r == AddPhysical(units, p, quantity, role)
  {
    r := units;
    if p.bundle {
      for i := 0 to |p.components|
        invariant r == AddComponents(units, p.components[..i], quantity, role)
      {
        assert p.components[..i + 1][..i] == p.components[..i];
        r := Add(r, p.components[i].item, p.components[i].quantity * quantity, role);
      }
      assert p.components[..|p.components|] == p.components;
    } else {
      r := Add(r, p.item, quantity, role);
    }
  }

  // ---- What the expansion means ----

  /** Units are positive and never repeat an item in the same role. */
  predicate Tidy(units: seq<Unit>) {
    && (forall i :: 0 <= i < |units| ==> units[i].quantity > 0)
    && forall i, j :: 0 <= i < j < |units| ==> units[i].item != units[j].item || units[i].role != units[j].role
  }

  /** All that the units ask of an item in a role. */
  function QuantityOf(units: seq<Unit>, item: ItemId, role: Role): int {
    if units == [] then 0
    else
      var u := units[|units| - 1];
      QuantityOf(units[..|units| - 1], item, role) + (if u.item == item && u.role == role then u.quantity else 0)
  }

  lemma {:induction false} QuantityUpdate(units: seq<Unit>, k: nat, x: int, i: ItemId, r: Role)
    requires k < |units|
    ensures QuantityOf(units[k := units[k].(quantity := units[k].quantity + x)], i, r) ==
            QuantityOf(units, i, r) + (if units[k].item == i && units[k].role == r then x else 0)
  {
    var n := |units| - 1;
    var after := units[k := units[k].(quantity := units[k].quantity + x)];
    if k < n {
      QuantityUpdate(units[..n], k, x, i, r);
      assert after[..n] == units[..n][k := after[k]];
    } else {
      assert after[..n] == units[..n];
    }
  }

  lemma AddMeaning(units: seq<Unit>, item: Option<ItemId>, quantity: int, role: Role, i: ItemId, r: Role)
    ensures QuantityOf(Add(units, item, quantity, role), i, r) ==
            QuantityOf(units, i, r) + (if item == Some(i) && role == r then Max(quantity, 0) else 0)
  {
    if item.Some? && quantity > 0 {
      var k := IndexOf(units, item.value, role);
      if k < |units| {
        QuantityUpdate(units, k, quantity, i, r);
      } else {
        assert (units + [Unit(item.value, quantity, role)])[..|units|] == units;
      }
    }
  }

  lemma AddTidy(units: seq<Unit>, item: Option<ItemId>, quantity: int, role: Role)
    requires Tidy(units)
    ensures Tidy(Add(units, item, quantity, role))
  {
    if item.Some? {
      var k := IndexOf(units, item.value, role);
    }
  }

  /** How much of an item one piece of a physical product contains. */
  function PerPiece(components: seq<Component>, item: ItemId): int {
    if components == [] then 0
    else
      var c := components[|components| - 1];
      PerPiece(components[..|components| - 1], item) + (if c.item == Some(item) then Max(c.quantity, 0) else 0)
  }

  function Contains(p: Physical, item: ItemId): int {
    if p.bundle then PerPiece(p.components, item) else if p.item == Some(item) then 1 else 0
  }

  function PackagedPerPiece(rules: seq<PackagingRule>, item: ItemId): int {
    if rules == [] then 0
    else
      var r := rules[|rules| - 1];
      PackagedPerPiece(rules[..|rules| - 1], item) + (if r.item == Some(item) then Max(r.perUnit, 0) else 0)
  }

  lemma Scaled(x: int, y: int, quantity: nat)
    ensures Max(x * quantity, 0) == Max(x, 0) * quantity
    ensures (y + Max(x, 0)) * quantity == y * quantity + Max(x * quantity, 0)
  {
  }

  lemma {:induction false} ComponentsMeaning(units: seq<Unit>, components: seq<Component>, quantity: int, role: Role,
                                             i: ItemId, r: Role)
    ensures role != r ==> QuantityOf(AddComponents(units, components, quantity, role), i, r) == QuantityOf(units, i, r)
    ensures role == r && quantity >= 0 ==>
              QuantityOf(AddComponents(units, components, quantity, role), i, r) ==
              QuantityOf(units, i, r) + PerPiece(components, i) * quantity
  {
    hide Add, Max, QuantityOf;
    if components != [] {
      var c, rest := components[|components| - 1], components[..|components| - 1];
      ComponentsMeaning(units, rest, quantity, role, i, r);
      AddMeaning(AddComponents(units, rest, quantity, role), c.item, c.quantity * quantity, role, i, r);
      if quantity >= 0 {
        Scaled(c.quantity, PerPiece(rest, i), quantity);
      }
    }
  }

  lemma {:induction false} PackagingMeaning(units: seq<Unit>, rules: seq<PackagingRule>, quantity: nat, i: ItemId,
                                            r: Role)
    ensures QuantityOf(AddPackaging(units, rules, quantity), i, r) ==
            QuantityOf(units, i, r) + (if r.Packaging? then PackagedPerPiece(rules, i) * quantity else 0)
  {
    hide Add, Max, QuantityOf;
    if rules != [] {
      var p, rest := rules[|rules| - 1], rules[..|rules| - 1];
      PackagingMeaning(units, rest, quantity, i, r);
      AddMeaning(AddPackaging(units, rest, quantity), p.item, p.perUnit * quantity, Packaging, i, r);
      Scaled(p.perUnit, PackagedPerPiece(rest, i), quantity);
    }
  }

  lemma PhysicalMeaning(units: seq<Unit>, p: Physical, quantity: int, role: Role, i: ItemId, r: Role)
    ensures role != r ==> QuantityOf(AddPhysical(units, p, quantity, role), i, r) == QuantityOf(units, i, r)
    ensures role == r && quantity >= 0 ==>
              QuantityOf(AddPhysical(units, p, quantity, role), i, r) ==
              QuantityOf(units, i, r) + Contains(p, i) * quantity
  {
    if p.bundle {
      ComponentsMeaning(units, p.components, quantity, role, i, r);
    } else {
      AddMeaning(units, p.item, quantity, role, i, r);
    }
  }

  lemma Regroup(x: int, y: int, quantity: nat)
    ensures x * (y * quantity) == x * y * quantity
    ensures y >= 0 ==> y * quantity >= 0
  {
  }

  function GiftPerPiece(v: Variant, i: ItemId): int {
    if v.gift.Some? then Contains(v.gift.value.physical, i) * v.gift.value.quantity else 0
  }

  /** A line's product, gift and packaging units of an item are the ordered quantity times what comes with one piece. */
  lemma ExpansionMeaning(quantity: nat, v: Variant, i: ItemId)
    requires quantity > 0
    ensures QuantityOf(Expand(quantity, Some(v)), i, Product) == Contains(v.physical, i) * quantity
    ensures QuantityOf(Expand(quantity, Some(v)), i, Packaging) ==
            PackagedPerPiece(PackagingFor(v.id, v.packaging), i) * quantity
    ensures v.gift == None || v.gift.value.quantity >= 0 ==>
              QuantityOf(Expand(quantity, Some(v)), i, Gift) == GiftPerPiece(v, i) * quantity
  {
    var counted := v.gift == None || v.gift.value.quantity >= 0;
    forall r: Role
      ensures QuantityOf(Expand(quantity, Some(v)), i, r) ==
              match r
              case Product => Contains(v.physical, i) * quantity
              case Packaging => PackagedPerPiece(PackagingFor(v.id, v.packaging), i) * quantity
              case Gift =>
                if counted then GiftPerPiece(v, i) * quantity else QuantityOf(Expand(quantity, Some(v)), i, r)
    {
      var units := AddPhysical([], v.physical, quantity, Product);
      PhysicalMeaning([], v.physical, quantity, Product, i, r);
      if v.gift.Some? {
        PhysicalMeaning(units, v.gift.value.physical, v.gift.value.quantity * quantity, Gift, i, r);
        Regroup(Contains(v.gift.value.physical, i), v.gift.value.quantity, quantity);
        units := AddPhysical(units, v.gift.value.physical, v.gift.value.quantity * quantity, Gift);
      }
      PackagingMeaning(units, PackagingFor(v.id, v.packaging), quantity, i, r);
    }
  }

  lemma {:induction false} ComponentsTidy(units: seq<Unit>, components: seq<Component>, quantity: int, role: Role)
    requires Tidy(units)
    ensures Tidy(AddComponents(units, components, quantity, role))
  {
    if components != [] {
      var c, rest := components[|components| - 1], components[..|components| - 1];
      ComponentsTidy(units, rest, quantity, role);
      AddTidy(AddComponents(units, rest, quantity, role), c.item, c.quantity * quantity, role);
    }
  }

  lemma {:induction false} PackagingTidy(units: seq<Unit>, rules: seq<PackagingRule>, quantity: int)
    requires Tidy(units)
    ensures Tidy(AddPackaging(units, rules, quantity))
  {
    if rules != [] {
      var p, rest := rules[|rules| - 1], rules[..|rules| - 1];
      PackagingTidy(units, rest, quantity);
      AddTidy(AddPackaging(units, rest, quantity), p.item, p.perUnit * quantity, Packaging);
    }
  }

  lemma PhysicalTidy(units: seq<Unit>, p: Physical, quantity: int, role: Role)
    requires Tidy(units)
    ensures Tidy(AddPhysical(units, p, quantity, role))
  {
    ComponentsTidy(units, p.components, quantity, role);
    AddTidy(units, p.item, quantity, role);
  }

  /** The expansion lists positive quantities and never the same item twice in one role. */
  lemma ExpansionTidy(quantity: int, variant: Option<Variant>)
    ensures Tidy(Expand(quantity, variant))
  {
    if variant.Some? && quantity > 0 {
      var v := variant.value;
      var units := AddPhysical([], v.physical, quantity, Product);
      PhysicalTidy([], v.physical, quantity, Product);
      if v.gift.Some? {
        PhysicalTidy(units, v.gift.value.physical, v.gift.value.quantity * quantity, Gift);
        units := AddPhysical(units, v.gift.value.physical, v.gift.value.quantity * quantity, Gift);
      }
      PackagingTidy(units, PackagingFor(v.id, v.packaging), quantity);
    }
  }

  /** A line without product or without pieces consumes nothing. */
  lemma NothingConsumed(quantity: int, variant: Option<Variant>)
    requires variant == None || quantity <= 0
    ensures Expand(quantity, variant) == []
  {
  }
}
