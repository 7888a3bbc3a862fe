/** What kit operations do to the balances: assembly adds up, and disassembly undoes it. */
module KitTheorems {
  import opened Outcomes
  import opened Sums
  import opened Rounding
  import opened Movements
  import opened Quantity
  import opened Serials
  import opened Balances
  import opened Ledgers
  import opened Stock
  import opened Site
  import opened Writers
  import opened WriterAgreement
  import TransferSteps

  function ChangeFor(p: Product): Change -> int {
    (c: Change) => if c.product == p then c.change else 0
  }

  /** The balances of one place after the changes; every other place is untouched. */
  ghost predicate ChangedBy(before: seq<Row>, after: seq<Row>, location: Location, changes: seq<Change>) {
    forall p, l ::
      RowAt(after, p, l) == if l == location then AvailableChanged(RowAt(before, p, l), Total(changes, ChangeFor(p))) else RowAt(before, p, l)
  }

  lemma NoChange(rows: seq<Row>, location: Location)
    ensures ChangedBy(rows, rows, location, [])
  {
  }

  lemma ChangedOn(before: seq<Row>, after: seq<Row>, location: Location, changes: seq<Change>)
    requires changes != []
    requires var first := Put(before, AvailableChanged(RowAt(before, changes[0].product, location), changes[0].change));
             ChangedBy(first, after, location, changes[1..])
    ensures ChangedBy(before, after, location, changes)
  {
    var row := AvailableChanged(RowAt(before, changes[0].product, location), changes[0].change);
    forall p, l
      ensures RowAt(after, p, l) == if l == location then AvailableChanged(RowAt(before, p, l), Total(changes, ChangeFor(p))) else RowAt(before, p, l)
    {
      PutIsRead(before, row, p, l);
      TransferSteps.TotalHead(changes, ChangeFor(p));
    }
  }

  /** The loop over the products changes each balance of the place by the sum of its changes. */
  lemma {:induction false} ApplyChangesChange(stock: Stock, context: Context, location: Location, changes: seq<Change>)
    requires Booked(stock)
    ensures var r := ApplyChanges(stock, context, location, changes);
            r.Ok? ==> ChangedBy(stock.rows, r.value.rows, location, changes)
    decreases |changes|
  {
    hide Value, RowAt, ChangedBy, Put;
    if changes == [] {
      NoChange(stock.rows, location);
    } else {
      var next := ApplyChange(stock, context, location, changes[0]);
      if next.Ok? {
        ApplyChangesChange(next.value, context, location, changes[1..]);
        if ApplyChanges(next.value, context, location, changes[1..]).Ok? {
          ChangedOn(stock.rows, ApplyChanges(next.value, context, location, changes[1..]).value.rows, location, changes);
        }
      }
    }
  }

  /** What `units` of the kit take of a component. */
  function Needed(component: Component, units: nat): int {
    units * component.quantity / QUANTITY_SCALE
  }

  function NeededOf(p: Product, units: nat): Component -> int {
    (c: Component) => if c.product == p then Needed(c, units) else 0
  }

  /** The net change of a product: kits one way, components the other. */
  function NetChange(kit: Kit, units: nat, assemble: bool, p: Product, n: nat): int
    requires n <= |kit.components|
  {
    Signed((if p == kit.product then units else 0) - Total(kit.components[n..], NeededOf(p, units)), assemble)
  }

  lemma {:induction false} ComponentChangesNet(kit: Kit, units: nat, assemble: bool, n: nat, p: Product)
    requires n <= |kit.components|
    ensures Total(ComponentChanges(kit, units, assemble, n), ChangeFor(p)) == Signed(-Total(kit.components[n..], NeededOf(p, units)), assemble)
    decreases |kit.components| - n
  {
    if n < |kit.components| {
      ComponentChangesNet(kit, units, assemble, n + 1, p);
      assert kit.components[n..][1..] == kit.components[n + 1..];
      TransferSteps.TotalHead(kit.components[n..], NeededOf(p, units));
      var changes := ComponentChanges(kit, units, assemble, n);
      assert changes[1..] == ComponentChanges(kit, units, assemble, n + 1);
      TransferSteps.TotalHead(changes, ChangeFor(p));
    }
  }

  /** Wherever the kit stands among its components, the changes add up to the net change. */
  lemma {:induction false} KitChangesNet(kit: Kit, units: nat, assemble: bool, n: nat, p: Product)
    requires n <= |kit.components|
    ensures Total(KitChanges(kit, units, assemble, n), ChangeFor(p)) == NetChange(kit, units, assemble, p, n)
    decreases |kit.components| - n
  {
    var changes := KitChanges(kit, units, assemble, n);
    TransferSteps.TotalHead(changes, ChangeFor(p));
    if n == |kit.components| || kit.product < kit.components[n].product {
      assert changes[1..] == ComponentChanges(kit, units, assemble, n);
      ComponentChangesNet(kit, units, assemble, n, p);
    } else {
      KitChangesNet(kit, units, assemble, n + 1, p);
      assert changes[1..] == KitChanges(kit, units, assemble, n + 1);
      assert kit.components[n..][1..] == kit.components[n + 1..];
      TransferSteps.TotalHead(kit.components[n..], NeededOf(p, units));
    }
  }

  /** A fresh operation changes each balance of its location by the kit's net change. */
  ghost predicate OperationEffect(before: seq<Row>, after: seq<Row>, kit: Kit, location: Location, units: nat, assemble: bool) {
    forall p, l ::
      RowAt(after, p, l)
      == if l == location then AvailableChanged(RowAt(before, p, l), NetChange(kit, units, assemble, p, 0)) else RowAt(before, p, l)
  }

  lemma OperationIsNet(stock: Stock, operations: seq<KitOperation>, kits: map<Product, Kit>, context: Context, request: KitRequest)
    requires Booked(stock)
    ensures var r := OperateKit(stock, operations, kits, context, request);
            r.Ok? && r.value.operations != operations ==>
              KitUnits(kits, context, request).Ok? && request.product in kits
              && OperationEffect(stock.rows, r.value.stock.rows, kits[request.product], request.location,
                                 KitUnits(kits, context, request).value, request.assemble)
  {
    hide ApplyChanges, RowAt, KitUnits, QuantityToUnits;
    var r := OperateKit(stock, operations, kits, context, request);
    if r.Ok? && r.value.operations != operations {
      var kit, units := kits[request.product], KitUnits(kits, context, request).value;
      var changes := KitChanges(kit, units, request.assemble, 0);
      ApplyChangesChange(stock, context, request.location, changes);
      forall p, l
        ensures RowAt(r.value.stock.rows, p, l)
                == if l == request.location then AvailableChanged(RowAt(stock.rows, p, l), NetChange(kit, units, request.assemble, p, 0))
                   else RowAt(stock.rows, p, l)
      {
        KitChangesNet(kit, units, request.assemble, 0, p);
      }
    }
  }

  lemma EffectsCancel(before: seq<Row>, between: seq<Row>, after: seq<Row>, kit: Kit, location: Location, units: nat)
    requires OperationEffect(before, between, kit, location, units, true)
    requires OperationEffect(between, after, kit, location, units, false)
    ensures forall p, l :: RowAt(after, p, l) == RowAt(before, p, l)
  {
    hide RowAt;
    forall p, l ensures RowAt(after, p, l) == RowAt(before, p, l) {
      assert NetChange(kit, units, true, p, 0) == -NetChange(kit, units, false, p, 0);
      assert RowAt(between, p, l)
             == if l == location then AvailableChanged(RowAt(before, p, l), NetChange(kit, units, true, p, 0)) else RowAt(before, p, l);
      assert RowAt(after, p, l)
             == if l == location then AvailableChanged(RowAt(between, p, l), NetChange(kit, units, false, p, 0)) else RowAt(between, p, l);
    }
  }

  /** An assembly and then a disassembly of as many of the same kits at the same place, both booked,
      leave every balance as it was. */
  lemma DisassemblyUndoes(stock: Stock, operations: seq<KitOperation>, kits: map<Product, Kit>, context: Context, assembly: KitRequest,
                          later: Context, disassembly: KitRequest)
    requires Booked(stock) && assembly.assemble && !disassembly.assemble
    requires disassembly.product == assembly.product && disassembly.location == assembly.location
    requires KitUnits(kits, later, disassembly) == KitUnits(kits, context, assembly)
    ensures var first := OperateKit(stock, operations, kits, context, assembly);
            first.Ok? && first.value.operations != operations ==>
              Booked(first.value.stock) &&
              var second := OperateKit(first.value.stock, first.value.operations, kits, later, disassembly);
              second.Ok? && second.value.operations != first.value.operations ==>
                forall p, l :: RowAt(second.value.stock.rows, p, l) == RowAt(stock.rows, p, l)
  {
    hide *;
    var first := OperateKit(stock, operations, kits, context, assembly);
    OperationIsNet(stock, operations, kits, context, assembly);
    if first.Ok? && first.value.operations != operations {
      OperationIsNet(first.value.stock, first.value.operations, kits, later, disassembly);
      var second := OperateKit(first.value.stock, first.value.operations, kits, later, disassembly);
      if second.Ok? && second.value.operations != first.value.operations {
        EffectsCancel(stock.rows, first.value.stock.rows, second.value.stock.rows, kits[assembly.product], assembly.location,
                      KitUnits(kits, context, assembly).value);
      }
    }
  }

  /** Two amounts of a component lose nothing by being cut off separately. */
  predicate NoCarry(component: Component, a: nat, b: nat) {
    a * component.quantity % QUANTITY_SCALE + b * component.quantity % QUANTITY_SCALE < QUANTITY_SCALE
  }

  lemma NeededAdds(component: Component, a: nat, b: nat)
    ensures Needed(component, a + b) == Needed(component, a) + Needed(component, b) <==> NoCarry(component, a, b)
  {
    assert (a + b) * component.quantity == a * component.quantity + b * component.quantity;
    CarryFree(a * component.quantity, b * component.quantity);
  }

  lemma CarryFree(x: nat, y: nat)
    ensures (x + y) / 1000 == x / 1000 + y / 1000 <==> x % 1000 + y % 1000 < 1000
  {
  }

  ghost predicate ComponentsInOrder(kit: Kit) {
    forall i, j :: 0 <= i < j < |kit.components| ==> kit.components[i].product < kit.components[j].product
  }

  /** The net changes of a and of b add up to those of a + b, for every product, exactly when no component
      loses a fraction to the cut-off. */
  lemma NetIsAdditive(kit: Kit, a: nat, b: nat)
    requires ComponentsInOrder(kit)
    ensures (forall p :: NetChange(kit, a + b, true, p, 0) == NetChange(kit, a, true, p, 0) + NetChange(kit, b, true, p, 0))
            <==> forall i :: 0 <= i < |kit.components| ==> NoCarry(kit.components[i], a, b)
    ensures a % QUANTITY_SCALE == 0 ==>
              forall p :: NetChange(kit, a + b, true, p, 0) == NetChange(kit, a, true, p, 0) + NetChange(kit, b, true, p, 0)
  {
    hide NoCarry, Needed;
    assert kit.components[0..] == kit.components;
    if forall i :: 0 <= i < |kit.components| ==> NoCarry(kit.components[i], a, b) {
      AdditiveWithoutCarry(kit, a, b);
    } else {
      var i :| 0 <= i < |kit.components| && !NoCarry(kit.components[i], a, b);
      var p := kit.components[i].product;
      OnlyComponent(kit, a, i);
      OnlyComponent(kit, b, i);
      OnlyComponent(kit, a + b, i);
      NeededAdds(kit.components[i], a, b);
      assert NetChange(kit, a + b, true, p, 0) != NetChange(kit, a, true, p, 0) + NetChange(kit, b, true, p, 0);
    }
    if a % QUANTITY_SCALE == 0 {
      forall i | 0 <= i < |kit.components| ensures NoCarry(kit.components[i], a, b) {
        WholeNoCarry(kit.components[i], a, b);
      }
    }
  }

  lemma EffectsAdd(before: seq<Row>, between: seq<Row>, twice: seq<Row>, once: seq<Row>, kit: Kit, location: Location, a: nat, b: nat)
    requires OperationEffect(before, between, kit, location, a, true) && OperationEffect(between, twice, kit, location, b, true)
    requires OperationEffect(before, once, kit, location, a + b, true)
    ensures (forall p, l :: RowAt(twice, p, l) == RowAt(once, p, l))
            <==> forall p :: NetChange(kit, a + b, true, p, 0) == NetChange(kit, a, true, p, 0) + NetChange(kit, b, true, p, 0)
  {
    hide RowAt, NetChange;
    forall p, l
      ensures RowAt(twice, p, l) == RowAt(once, p, l)
              <==> (l == location ==> NetChange(kit, a + b, true, p, 0) == NetChange(kit, a, true, p, 0) + NetChange(kit, b, true, p, 0))
    {
      assert RowAt(between, p, l)
             == if l == location then AvailableChanged(RowAt(before, p, l), NetChange(kit, a, true, p, 0)) else RowAt(before, p, l);
      assert RowAt(twice, p, l)
             == if l == location then AvailableChanged(RowAt(between, p, l), NetChange(kit, b, true, p, 0)) else RowAt(between, p, l);
      assert RowAt(once, p, l)
             == if l == location then AvailableChanged(RowAt(before, p, l), NetChange(kit, a + b, true, p, 0)) else RowAt(before, p, l);
    }
    if forall p, l :: RowAt(twice, p, l) == RowAt(once, p, l) {
      forall p ensures NetChange(kit, a + b, true, p, 0) == NetChange(kit, a, true, p, 0) + NetChange(kit, b, true, p, 0) {
        assert RowAt(twice, p, location) == RowAt(once, p, location);
      }
    }
  }

  /** Assembling some kits and then more, both booked, leaves the balances that assembling them all at
      once does exactly when no component loses a fraction to the cut-off; whole kits never lose any. */
  lemma AssemblyIsAdditive(stock: Stock, operations: seq<KitOperation>, kits: map<Product, Kit>, context: Context, first: KitRequest,
                           later: Context, second: KitRequest, instead: Context, whole: KitRequest)
    requires Booked(stock) && first.assemble && second.assemble && whole.assemble
    requires second.product == first.product == whole.product && second.location == first.location == whole.location
    requires KitUnits(kits, context, first).Ok? && KitUnits(kits, later, second).Ok? && ComponentsInOrder(kits[first.product])
    requires KitUnits(kits, instead, whole) == Ok(KitUnits(kits, context, first).value + KitUnits(kits, later, second).value)
    ensures var a, b := KitUnits(kits, context, first).value, KitUnits(kits, later, second).value;
            var one, all := OperateKit(stock, operations, kits, context, first), OperateKit(stock, operations, kits, instead, whole);
            one.Ok? && one.value.operations != operations && all.Ok? && all.value.operations != operations ==>
              Booked(one.value.stock) &&
              var two := OperateKit(one.value.stock, one.value.operations, kits, later, second);
              two.Ok? && two.value.operations != one.value.operations ==>
                && ((forall p, l :: RowAt(two.value.stock.rows, p, l) == RowAt(all.value.stock.rows, p, l))
                    <==> forall i :: 0 <= i < |kits[first.product].components| ==> NoCarry(kits[first.product].components[i], a, b))
                && (a % QUANTITY_SCALE == 0 ==> forall p, l :: RowAt(two.value.stock.rows, p, l) == RowAt(all.value.stock.rows, p, l))
  {
    hide *;
    var a, b := KitUnits(kits, context, first).value, KitUnits(kits, later, second).value;
    var one, all := OperateKit(stock, operations, kits, context, first), OperateKit(stock, operations, kits, instead, whole);
    OperationIsNet(stock, operations, kits, context, first);
    OperationIsNet(stock, operations, kits, instead, whole);
    if one.Ok? && one.value.operations != operations && all.Ok? && all.value.operations != operations {
      OperationIsNet(one.value.stock, one.value.operations, kits, later, second);
      var two := OperateKit(one.value.stock, one.value.operations, kits, later, second);
      if two.Ok? && two.value.operations != one.value.operations {
        var kit := kits[first.product];
        NetIsAdditive(kit, a, b);
        EffectsAdd(stock.rows, one.value.stock.rows, two.value.stock.rows, all.value.stock.rows, kit, first.location, a, b);
      }
    }
  }

  /** The catalogue sells kits in whole units, so an operation always moves whole kits. */
  lemma KitUnitsAreWhole(kits: map<Product, Kit>, context: Context, request: KitRequest)
    requires KitUnits(kits, context, request).Ok? && context.products[request.product].policy.precision == 0
    ensures KitUnits(kits, context, request).value % QUANTITY_SCALE == 0
  {
    var policy := context.products[request.product].policy;
    NormalizationIsStable(request.quantity, policy, false, true);
    UnitsRoundTrip(NormalizedUnits(request.quantity, policy, false, true).value);
    hide NormalizedUnits, QuantityToUnits, QuantityFromUnits;
  }

  lemma WholeNoCarry(component: Component, a: nat, b: nat)
    requires a % QUANTITY_SCALE == 0
    ensures NoCarry(component, a, b)
  {
    assert a * component.quantity == QUANTITY_SCALE * (a / QUANTITY_SCALE * component.quantity);
    MultipleRemainder(a / QUANTITY_SCALE * component.quantity);
  }

  lemma MultipleRemainder(k: int)
    ensures QUANTITY_SCALE * k % QUANTITY_SCALE == 0
  {
  }

  lemma AdditiveWithoutCarry(kit: Kit, a: nat, b: nat)
    requires forall i :: 0 <= i < |kit.components| ==> NoCarry(kit.components[i], a, b)
    ensures forall p :: NetChange(kit, a + b, true, p, 0) == NetChange(kit, a, true, p, 0) + NetChange(kit, b, true, p, 0)
  {
    hide NoCarry, Needed;
    assert kit.components[0..] == kit.components;
    forall p ensures NetChange(kit, a + b, true, p, 0) == NetChange(kit, a, true, p, 0) + NetChange(kit, b, true, p, 0) {
      forall i | 0 <= i < |kit.components|
        ensures NeededOf(p, a + b)(kit.components[i]) == NeededOf(p, a)(kit.components[i]) + NeededOf(p, b)(kit.components[i])
      {
        NeededAdds(kit.components[i], a, b);
      }
      TotalPlus(kit.components, NeededOf(p, a), NeededOf(p, b), NeededOf(p, a + b));
    }
  }

  /** A product occurs once among the components. */
  lemma OnlyComponent(kit: Kit, units: nat, i: nat)
    requires i < |kit.components|
    requires forall j, k :: 0 <= j < k < |kit.components| ==> kit.components[j].product < kit.components[k].product
    ensures Total(kit.components, NeededOf(kit.components[i].product, units)) == Needed(kit.components[i], units)
  {
    hide Needed;
    var f := NeededOf(kit.components[i].product, units);
    var head, tail := kit.components[..i], kit.components[i + 1..];
    assert kit.components == head + [kit.components[i]] + tail;
    TotalConcat(head + [kit.components[i]], tail, f);
    TotalAppend(head, kit.components[i], f);
    TotalZero(head, f);
    TotalZero(tail, f);
  }

  // ----- Kits of tracked products -----

  lemma {:induction false} ChangesKeepTrackers(stock: Stock, context: Context, location: Location, changes: seq<Change>)
    requires Booked(stock)
    ensures var r := ApplyChanges(stock, context, location, changes);
            r.Ok? ==> r.value.ledgers.lots == stock.ledgers.lots && r.value.ledgers.serials == stock.ledgers.serials
    decreases |changes|
  {
    hide ApplyChange;
    if changes != [] {
      ValueChanges(stock, context, location, changes[0]);
      var next := ApplyChange(stock, context, location, changes[0]);
      if next.Ok? {
        ChangesKeepTrackers(next.value, context, location, changes[1..]);
      }
    }
  }

  lemma OperationKeepsTrackers(stock: Stock, operations: seq<KitOperation>, kits: map<Product, Kit>, context: Context, request: KitRequest)
    requires Booked(stock)
    ensures var r := OperateKit(stock, operations, kits, context, request);
            r.Ok? ==> r.value.stock.ledgers.lots == stock.ledgers.lots && r.value.stock.ledgers.serials == stock.ledgers.serials
  {
    hide ApplyChanges, KitUnits, QuantityToUnits;
    if KitUnits(kits, context, request).Ok? {
      var kit, units := kits[request.product], KitUnits(kits, context, request).value;
      ChangesKeepTrackers(stock, context, request.location, KitChanges(kit, units, request.assemble, 0));
    }
  }

  lemma TrackedQuantity(before: Stock, after: Stock, tracking: Tracking, p: Product, l: Location)
    requires Agrees(before, tracking) && Agrees(after, tracking) && (p in tracking.lots || p in tracking.serials)
    requires after.ledgers.lots == before.ledgers.lots && after.ledgers.serials == before.ledgers.serials
    ensures RowAt(after.rows, p, l).quantity == RowAt(before.rows, p, l).quantity
  {
    hide Agrees, RowAt;
    AgreementMeans(before, tracking, p, l);
    AgreementMeans(after, tracking, p, l);
    if p in tracking.serials {
      var a, b := RowAt(after.rows, p, l), RowAt(before.rows, p, l);
      assert InStock(Available) && InStock(Reserved) && InStock(Damaged) && InStock(InTransit);
      assert StateOf(a, Available) == StateOf(b, Available) && StateOf(a, Reserved) == StateOf(b, Reserved);
      assert StateOf(a, Damaged) == StateOf(b, Damaged) && StateOf(a, InTransit) == StateOf(b, InTransit);
    }
  }

  /** A booked kit operation that changes the quantity of a tracked product always breaks agreement: its
      lots and units stay where they were. */
  lemma TrackedKitBreaks(stock: Stock, tracking: Tracking, operations: seq<KitOperation>, kits: map<Product, Kit>, context: Context,
                         request: KitRequest, p: Product)
    requires Agrees(stock, tracking) && Booked(stock) && (p in tracking.lots || p in tracking.serials)
    requires KitUnits(kits, context, request).Ok?
    requires NetChange(kits[request.product], KitUnits(kits, context, request).value, request.assemble, p, 0) != 0
    ensures var r := OperateKit(stock, operations, kits, context, request);
            r.Ok? && r.value.operations != operations ==> !Agrees(r.value.stock, tracking)
  {
    hide Agrees, OperateKit, NetChange, RowAt, KitUnits;
    OperationIsNet(stock, operations, kits, context, request);
    OperationKeepsTrackers(stock, operations, kits, context, request);
    var r := OperateKit(stock, operations, kits, context, request);
    if r.Ok? && r.value.operations != operations {
      assert RowAt(r.value.stock.rows, p, request.location)
             == AvailableChanged(RowAt(stock.rows, p, request.location),
                                 NetChange(kits[request.product], KitUnits(kits, context, request).value, request.assemble, p, 0));
      if Agrees(r.value.stock, tracking) {
        TrackedQuantity(stock, r.value.stock, tracking, p, request.location);
      }
    }
  }
}
