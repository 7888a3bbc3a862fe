/** The catalogue's rules for kits and tracking: which of them last, and exactly which updates undo
    the others. */
module KitCatalogue {
  import opened Outcomes
  import opened Movements
  import opened Quantity
  import opened Rounding
  import opened Writers

  /** The columns of a product row the rules read; a variant names its parent; `moved` tells whether the
      row ever had a movement. */
  datatype Settings = Settings(
    active: bool, hasVariants: bool, parent: Option<Product>, policy: Policy, lots: bool, serials: bool, moved: bool, inStock: bool)

  /** `specificLots` tells whether some product of the tenant is valued by specific lot. */
  datatype Catalogue = Catalogue(products: map<Product, Settings>, kits: map<Product, seq<Component>>, specificLots: bool)

  predicate WholeUnits(policy: Policy) {
    policy.unit == PieceUnit && policy.precision == 0 && QuantityToUnits(policy.minimum) == Ok(QUANTITY_SCALE)
  }

  predicate Untracked(s: Settings) {
    !s.lots && !s.serials
  }

  predicate Usable(c: Catalogue, component: Component) {
    component.product in c.products &&
    var s := c.products[component.product];
    s.active && !s.hasVariants && component.product !in c.kits && Untracked(s)
  }

  predicate ComponentsAccepted(c: Catalogue, product: Product, components: seq<Component>) {
    && (forall j, k :: 0 <= j < k < |components| ==> components[j].product != components[k].product)
    && forall i :: 0 <= i < |components| ==> components[i].product != product && Usable(c, components[i])
  }

  /** updateProductKit with a configuration. Stock of the product's own fixes whether it is a kit and of
      what. */
  function ConfigureKit(c: Catalogue, product: Product, components: seq<Component>): Result<Catalogue> {
    if product !in c.products then Err(NotFound)
    else
      var s := c.products[product];
      if s.inStock && product !in c.kits then Err(StatusConflict)
      else if s.hasVariants || !WholeUnits(s.policy) || !Untracked(s) then Err(InvalidVariants)
      else if !ComponentsAccepted(c, product, components) then Err(InvalidVariants)
      else if s.inStock && (set x | x in c.kits[product]) != (set x | x in components) then Err(StatusConflict)
      else Ok(c.(kits := c.kits[product := components]))
  }

  /** What an update says about tracking and quantities; a missing field keeps what is there. */
  datatype Update = Update(
    lots: Option<bool>, serials: Option<bool>, unit: Option<BaseUnit>, precision: Option<int>, rounding: Option<RoundingMode>,
    minimum: Option<string>)

  function Given<T>(field: Option<T>, otherwise: T): T {
    match field case None => otherwise case Some(value) => value
  }

  /** Turning serial numbers on brings whole units with it, where the update does not say otherwise. */
  function NextPolicy(s: Settings, update: Update): Policy {
    var serialised := update.serials == Some(true);
    Policy(Given(update.unit, if serialised then PieceUnit else s.policy.unit),
           Given(update.precision, if serialised then 0 else s.policy.precision),
           Given(update.rounding, s.policy.rounding),
           Given(update.minimum, if serialised then "1.000" else s.policy.minimum))
  }

  predicate PolicyChanged(before: Policy, after: Policy) {
    before.unit != after.unit || before.precision != after.precision || before.rounding != after.rounding
    || QuantityToUnits(before.minimum) != QuantityToUnits(after.minimum)
  }

  predicate IsVariantOf(c: Catalogue, variant: Product, product: Product) {
    variant in c.products && variant != product && c.products[variant].parent == Some(product)
  }

  predicate HasMoved(c: Catalogue, product: Product)
    requires product in c.products
  {
    c.products[product].moved || exists variant | variant in c.products :: IsVariantOf(c, variant, product) && c.products[variant].moved
  }

  /** The product with its new columns, and its variants with those they take over: serial numbers are
      not among them. */
  function Updated(c: Catalogue, product: Product, lots: bool, serials: bool, policy: Policy): map<Product, Settings> {
    map p | p in c.products ::
      if p == product then c.products[p].(lots := lots, serials := serials, policy := policy)
      else if IsVariantOf(c, p, product) then c.products[p].(lots := lots, policy := policy)
      else c.products[p]
  }

  /** The tracking and quantity part of updateProduct. */
  function UpdateTracking(c: Catalogue, product: Product, update: Update): Result<Catalogue> {
    if product !in c.products then Err(NotFound)
    else
      var s := c.products[product];
      var lots, serials, policy := Given(update.lots, s.lots), Given(update.serials, s.serials), NextPolicy(s, update);
      if lots != s.lots && (HasMoved(c, product) || c.specificLots) then Err(StatusConflict)
      else if serials != s.serials && HasMoved(c, product) then Err(StatusConflict)
      else if !PolicyAccepted(policy, serials) then Err(InvalidPolicy)
      else if product in c.kits && (!WholeUnits(policy) || lots || serials) then Err(InvalidVariants)
      else if PolicyChanged(s.policy, policy) && HasMoved(c, product) then Err(StatusConflict)
      else Ok(c.(products := Updated(c, product, lots, serials, policy)))
  }

  // ----- What lasts -----

  /** A kit itself stays sold in whole units and untracked. */
  ghost predicate KitsUntracked(c: Catalogue) {
    forall p :: p in c.kits ==> p in c.products && Untracked(c.products[p]) && WholeUnits(c.products[p].policy)
  }

  /** What an accepted update leaves in the product row. */
  lemma UpdateLeaves(c: Catalogue, product: Product, update: Update)
    requires UpdateTracking(c, product, update).Ok?
    ensures product in c.products
    ensures var s, after := c.products[product], UpdateTracking(c, product, update).value;
            && after.kits == c.kits && product in after.products
            && after.products[product].lots == Given(update.lots, s.lots) && after.products[product].serials == Given(update.serials, s.serials)
            && after.products[product].policy == NextPolicy(s, update)
            && after.products == Updated(c, product, after.products[product].lots, after.products[product].serials, after.products[product].policy)
            && (product in c.kits ==> Untracked(after.products[product]) && WholeUnits(after.products[product].policy))
  {
    hide WholeUnits, PolicyAccepted, PolicyChanged, HasMoved;
  }

  /** Configuring kits always keeps kits untracked and in whole units. An accepted update keeps them so
      exactly when a kit among the product's variants takes over no lots and whole units: only the
      product itself is looked at. */
  lemma KitsStayUntracked(c: Catalogue, product: Product, components: seq<Component>, update: Update)
    requires KitsUntracked(c)
    ensures ConfigureKit(c, product, components).Ok? ==> KitsUntracked(ConfigureKit(c, product, components).value)
    ensures UpdateTracking(c, product, update).Ok? ==>
              (KitsUntracked(UpdateTracking(c, product, update).value)
               <==> ((exists kit :: kit in c.kits && IsVariantOf(c, kit, product)) ==>
                       !Given(update.lots, c.products[product].lots) && WholeUnits(NextPolicy(c.products[product], update))))
  {
    hide WholeUnits, ComponentsAccepted, UpdateTracking, NextPolicy;
    if UpdateTracking(c, product, update).Ok? {
      UpdateLeaves(c, product, update);
      var after := UpdateTracking(c, product, update).value;
      if kit :| kit in c.kits && IsVariantOf(c, kit, product) {
        assert kit in after.products && after.products[kit].lots == after.products[product].lots;
      }
    }
  }

  /** What the row itself says about tracking and quantities. */
  ghost predicate SameSettings(a: Settings, b: Settings) {
    a.lots == b.lots && a.serials == b.serials && !PolicyChanged(a.policy, b.policy)
  }

  /** Products that have moved keep their tracking and quantities under an accepted update exactly when each
      moved variant of the product already had what it takes over: for the product itself the update asks,
      for its variants it does not. */
  lemma MovedKeepSettings(c: Catalogue, product: Product, update: Update)
    requires UpdateTracking(c, product, update).Ok?
    ensures product in c.products
    ensures var s, after := c.products[product], UpdateTracking(c, product, update).value;
            && (HasMoved(c, product) ==> SameSettings(s, after.products[product]))
            && ((forall p :: p in c.products && c.products[p].moved ==> SameSettings(c.products[p], after.products[p]))
                <==> forall v :: IsVariantOf(c, v, product) && c.products[v].moved ==>
                       c.products[v].lots == Given(update.lots, s.lots) && !PolicyChanged(c.products[v].policy, NextPolicy(s, update)))
  {
    UpdateLeaves(c, product, update);
    MovedIsAsked(c, product, update);
    hide UpdateTracking, NextPolicy, PolicyChanged, PolicyAccepted, WholeUnits, HasMoved;
    var s, after := c.products[product], UpdateTracking(c, product, update).value;
    forall p | p in c.products
      ensures SamePolicy(c.products[p].policy)
    {
      SameAsItself(c.products[p].policy);
    }
    forall v | IsVariantOf(c, v, product)
      ensures SameSettings(c.products[v], after.products[v])
              <==> c.products[v].lots == Given(update.lots, s.lots) && !PolicyChanged(c.products[v].policy, NextPolicy(s, update))
    {
    }
    forall p | p in c.products && c.products[p].moved && !IsVariantOf(c, p, product) ensures SameSettings(c.products[p], after.products[p]) {
      if p == product {
        assert HasMoved(c, product) by { OwnMoveCounts(c, product); }
      }
    }
  }

  ghost predicate SamePolicy(policy: Policy) {
    !PolicyChanged(policy, policy)
  }

  lemma SameAsItself(policy: Policy)
    ensures SamePolicy(policy)
  {
    hide QuantityToUnits;
  }

  lemma OwnMoveCounts(c: Catalogue, product: Product)
    requires product in c.products && c.products[product].moved
    ensures HasMoved(c, product)
  {
  }

  /** An update is accepted exactly when it changes neither tracking nor quantities of a product that has
      moved, no lots while some product is valued by specific lot, keeps whole units for serial numbers,
      and leaves a kit untracked and in whole units. */
  lemma MovedIsAsked(c: Catalogue, product: Product, update: Update)
    ensures UpdateTracking(c, product, update).Ok?
            <==> && product in c.products
                 && var s, policy := c.products[product], NextPolicy(c.products[product], update);
                    var lots, serials := Given(update.lots, s.lots), Given(update.serials, s.serials);
                    && (HasMoved(c, product) ==> lots == s.lots && serials == s.serials && !PolicyChanged(s.policy, policy))
                    && (c.specificLots ==> lots == s.lots)
                    && PolicyAccepted(policy, serials)
                    && (product in c.kits ==> WholeUnits(policy) && !lots && !serials)
  {
    hide PolicyAccepted, PolicyChanged, HasMoved, WholeUnits, NextPolicy;
  }

  /** Saying nothing leaves the policy alone; asking for serial numbers and saying nothing else of quantities
      gives whole pieces, which serial numbers need. */
  lemma SerialsBringWholePieces(s: Settings, update: Update)
    requires update.unit.None? && update.precision.None? && update.minimum.None?
    ensures update.rounding.None? && update.serials != Some(true) ==> NextPolicy(s, update) == s.policy
    ensures update.serials == Some(true) ==> WholeUnits(NextPolicy(s, update)) && PolicyAccepted(NextPolicy(s, update), true)
    ensures NextPolicy(s, update).rounding == Given(update.rounding, s.policy.rounding)
  {
    UnitsRoundTrip(1000);
    assert QuantityFromUnits(1000) == "1.000";
    hide QuantityToUnits, QuantityFromUnits;
    assert forall mode :: RoundUnits(1000, 0, mode) == 1000;
  }

  /** Serialised products are sold in whole units. */
  ghost predicate SerialsWhole(c: Catalogue) {
    forall p :: p in c.products && c.products[p].serials ==> PolicyAccepted(c.products[p].policy, true)
  }

  /** An accepted update keeps that exactly when a serialised variant of the product takes over whole units. */
  lemma SerialsStayWhole(c: Catalogue, product: Product, update: Update)
    requires SerialsWhole(c) && UpdateTracking(c, product, update).Ok?
    ensures product in c.products
    ensures SerialsWhole(UpdateTracking(c, product, update).value)
            <==> ((exists v :: IsVariantOf(c, v, product) && c.products[v].serials) ==> PolicyAccepted(NextPolicy(c.products[product], update), true))
  {
    UpdateLeaves(c, product, update);
    MovedIsAsked(c, product, update);
    hide UpdateTracking, NextPolicy, PolicyAccepted, WholeUnits, HasMoved, PolicyChanged;
    var after := UpdateTracking(c, product, update).value;
    if v :| IsVariantOf(c, v, product) && c.products[v].serials {
      assert v in after.products && after.products[v].serials && after.products[v].policy == NextPolicy(c.products[product], update);
    }
  }

  /** A configuration is accepted exactly for a product sold untracked in whole units, of different usable
      components; with kits in stock only if it changes neither that the product is a kit nor what it is made of. */
  lemma ConfigurationIsAllowed(c: Catalogue, product: Product, components: seq<Component>)
    ensures ConfigureKit(c, product, components).Ok?
            <==> && product in c.products
                 && var s := c.products[product];
                    && !s.hasVariants && WholeUnits(s.policy) && !s.lots && !s.serials
                    && (forall j, k :: 0 <= j < k < |components| ==> components[j].product != components[k].product)
                    && (forall i :: 0 <= i < |components| ==>
                          var p := components[i].product;
                          p != product && p in c.products && c.products[p].active && !c.products[p].hasVariants && p !in c.kits
                          && !c.products[p].lots && !c.products[p].serials)
                    && (s.inStock ==> product in c.kits && forall x :: x in c.kits[product] <==> x in components)
    ensures ConfigureKit(c, product, components).Ok? ==> ConfigureKit(c, product, components).value == c.(kits := c.kits[product := components])
  {
    hide WholeUnits;
    if product in c.products && product in c.kits {
      var now, next := set x | x in c.kits[product], set x | x in components;
      if now == next {
        forall x ensures x in c.kits[product] <==> x in components {
          assert x in now <==> x in next;
        }
      }
    }
  }

  // ----- What does not -----

  predicate IsComponentOf(c: Catalogue, product: Product, kit: Product) {
    kit in c.kits && exists i :: 0 <= i < |c.kits[kit]| && c.kits[kit][i].product == product
  }

  ghost predicate IsComponent(c: Catalogue, product: Product) {
    exists kit :: IsComponentOf(c, product, kit)
  }

  /** No component of a kit is tracked. */
  ghost predicate ComponentsUntracked(c: Catalogue) {
    forall kit, product :: IsComponentOf(c, product, kit) ==> product in c.products && Untracked(c.products[product])
  }

  /** No component of a kit is a kit. */
  ghost predicate NoNesting(c: Catalogue) {
    forall kit, product :: IsComponentOf(c, product, kit) ==> product !in c.kits
  }

  /** An accepted update keeps components untracked exactly when it leaves tracking off for a product that
      is a component, and tracking by lot off for one with a variant that is: nothing looks for that. */
  lemma TrackingOfComponents(c: Catalogue, product: Product, update: Update)
    requires ComponentsUntracked(c) && UpdateTracking(c, product, update).Ok?
    ensures product in c.products
    ensures ComponentsUntracked(UpdateTracking(c, product, update).value)
            <==> var lots, serials := Given(update.lots, c.products[product].lots), Given(update.serials, c.products[product].serials);
                 && (IsComponent(c, product) ==> !lots && !serials)
                 && ((exists variant :: IsVariantOf(c, variant, product) && IsComponent(c, variant)) ==> !lots)
  {
    hide UpdateTracking, NextPolicy;
    UpdateLeaves(c, product, update);
    var after := UpdateTracking(c, product, update).value;
    forall kit, p ensures IsComponentOf(after, p, kit) <==> IsComponentOf(c, p, kit) {
    }
    if IsComponent(c, product) {
      var kit :| IsComponentOf(c, product, kit);
      assert IsComponentOf(after, product, kit);
    }
    if variant :| IsVariantOf(c, variant, product) && IsComponent(c, variant) {
      var kit :| IsComponentOf(c, variant, kit);
      assert IsComponentOf(after, variant, kit) && after.products[variant].lots == after.products[product].lots;
    }
  }

  /** An accepted kit configuration keeps components untracked always, and kits unnested exactly when
      the product is not already a component. */
  lemma NestingOfKits(c: Catalogue, product: Product, components: seq<Component>)
    requires ConfigureKit(c, product, components).Ok?
    ensures ComponentsUntracked(c) ==> ComponentsUntracked(ConfigureKit(c, product, components).value)
    ensures NoNesting(c) ==> (NoNesting(ConfigureKit(c, product, components).value)
                              <==> !exists kit :: kit != product && IsComponentOf(c, product, kit))
  {
    hide WholeUnits;
    var after := ConfigureKit(c, product, components).value;
    forall kit, p | IsComponentOf(after, p, kit)
      ensures if kit == product then p != product && p in c.products && Untracked(c.products[p]) && p !in c.kits else IsComponentOf(c, p, kit)
    {
      if kit == product {
        var i :| 0 <= i < |components| && components[i].product == p;
        assert Usable(c, components[i]);
      }
    }
    if exists kit :: kit != product && IsComponentOf(c, product, kit) {
      var kit :| kit != product && IsComponentOf(c, product, kit);
      assert IsComponentOf(after, product, kit) && product in after.kits;
    }
  }

  const WholePieces := Policy(PieceUnit, 0, HalfUp, QuantityFromUnits(1000))
  const Unmoved := Settings(true, false, None, WholePieces, false, false, false, false)
  const TrackLots := Update(Some(true), None, None, None, None, None)

  lemma WholePiecesAccepted()
    ensures WholeUnits(WholePieces) && PolicyAccepted(WholePieces, false)
  {
    UnitsRoundTrip(1000);
    hide QuantityToUnits, QuantityFromUnits;
    assert RoundUnits(1000, 0, Down) == 1000;
  }

  lemma LotsTurnedOn(c: Catalogue, product: Product)
    requires product in c.products && !c.products[product].serials && c.products[product].policy == WholePieces
    requires !HasMoved(c, product) && !c.specificLots && product !in c.kits
    ensures UpdateTracking(c, product, TrackLots).Ok?
  {
    WholePiecesAccepted();
    hide PolicyAccepted, WholeUnits, HasMoved;
    assert NextPolicy(c.products[product], TrackLots) == WholePieces;
  }

  /** Both can happen: a kit of a product without movements, and the product then tracked by lot, or made a kit. */
  lemma RulesAreOutlived()
    ensures var c := Catalogue(map[1 := Unmoved, 2 := Unmoved, 3 := Unmoved], map[], false);
            var kit := ConfigureKit(c, 1, [Component(2, 1000)]);
            && kit.Ok? && ComponentsUntracked(kit.value) && NoNesting(kit.value)
            && UpdateTracking(kit.value, 2, TrackLots).Ok? && !ComponentsUntracked(UpdateTracking(kit.value, 2, TrackLots).value)
            && ConfigureKit(kit.value, 2, [Component(3, 1000)]).Ok? && !NoNesting(ConfigureKit(kit.value, 2, [Component(3, 1000)]).value)
  {
    WholePiecesAccepted();
    hide WholeUnits, UpdateTracking, QuantityToUnits, QuantityFromUnits, RoundUnits, PolicyAccepted, NextPolicy;
    var c := Catalogue(map[1 := Unmoved, 2 := Unmoved, 3 := Unmoved], map[], false);
    var kit := ConfigureKit(c, 1, [Component(2, 1000)]).value;
    assert kit.kits[1][0].product == 2;
    assert IsComponentOf(kit, 2, 1);
    LotsTurnedOn(kit, 2);
    TrackingOfComponents(kit, 2, TrackLots);
    NestingOfKits(kit, 2, [Component(3, 1000)]);
  }

  /** And a kit itself becomes tracked when it is a variant and lots are turned on for its parent. */
  lemma VariantKitIsTracked()
    ensures var c := Catalogue(map[1 := Unmoved.(hasVariants := true), 2 := Unmoved.(parent := Some(1)), 3 := Unmoved], map[], false);
            var kit := ConfigureKit(c, 2, [Component(3, 1000)]);
            && kit.Ok? && KitsUntracked(kit.value)
            && UpdateTracking(kit.value, 1, TrackLots).Ok? && !KitsUntracked(UpdateTracking(kit.value, 1, TrackLots).value)
  {
    WholePiecesAccepted();
    hide WholeUnits, UpdateTracking, QuantityToUnits, QuantityFromUnits, RoundUnits, PolicyAccepted, NextPolicy;
    var c := Catalogue(map[1 := Unmoved.(hasVariants := true), 2 := Unmoved.(parent := Some(1)), 3 := Unmoved], map[], false);
    var kit := ConfigureKit(c, 2, [Component(3, 1000)]).value;
    LotsTurnedOn(kit, 1);
    assert 2 in kit.kits && IsVariantOf(kit, 2, 1);
    KitsStayUntracked(kit, 1, [], TrackLots);
  }
}
