/** Runs of the writers from an empty tenant that end in a refusal or in disagreement. */
module WorldCases {
  import opened Outcomes
  import opened Rounding
  import opened Quantity
  import opened Movements
  import Fifo
  import FifoCases
  import Lots
  import opened Serials
  import opened Balances
  import opened Ledgers
  import opened Stock
  import opened Site
  import opened Transfers
  import opened TransferTheorems
  import opened Writers
  import opened KitCatalogue
  import opened Runs

  // ----- Runs of accepted commands -----

  /** What the commands lead to when every one of them is accepted, or the first error. */
  function PerformAll(world: World, tracking: Tracking, kits: map<Product, Kit>, commands: seq<Command>): (r: Result<World>)
    requires Booked(world.state.stock)
    ensures r.Ok? ==> Booked(r.value.state.stock)
    decreases |commands|
  {
    if commands == [] then Ok(world)
    else
      match Perform(world, tracking, kits, commands[0])
      case Err(e) => Err(e)
      case Ok(next) => PerformAll(next, tracking, kits, commands[1..])
  }

  /** Such a run is a run: what holds of every run holds of it. */
  lemma {:induction false} AcceptedRun(world: World, tracking: Tracking, kits: map<Product, Kit>, commands: seq<Command>)
    requires Booked(world.state.stock) && PerformAll(world, tracking, kits, commands).Ok?
    ensures PerformAll(world, tracking, kits, commands).value == RunAll(world, tracking, kits, commands)
    decreases |commands|
  {
    hide Perform;
    if commands != [] {
      AcceptedRun(Perform(world, tracking, kits, commands[0]).value, tracking, kits, commands[1..]);
    }
  }

  lemma {:induction false} PerformNext(world: World, tracking: Tracking, kits: map<Product, Kit>, commands: seq<Command>, last: Command)
    requires Booked(world.state.stock) && PerformAll(world, tracking, kits, commands).Ok?
    ensures PerformAll(world, tracking, kits, commands + [last])
            == Perform(PerformAll(world, tracking, kits, commands).value, tracking, kits, last)
    decreases |commands|
  {
    hide Perform;
    if commands == [] {
      assert ([] + [last])[0] == last && ([] + [last])[1..] == [];
    } else {
      assert (commands + [last])[1..] == commands[1..] + [last];
      PerformNext(Perform(world, tracking, kits, commands[0]).value, tracking, kits, commands[1..], last);
    }
  }

  // ----- A small tenant -----

  const Grams := Policy(Kilogram, 3, HalfUp, QuantityFromUnits(1))

  /** Two warehouses with one place each, and two products. */
  function Shop(policy: Policy, cost: nat, now: nat): Context {
    var info := ProductInfo(true, false, policy, cost, Lots.NoDates);
    Context({0, 1}, {0, 1}, map[0 := Place(0, true), 1 := Place(1, true)], map[0 := info, 1 := info], now, 0, 0)
  }

  const NoTracking := Tracking({}, {})

  lemma PiecesNormalize(units: nat, negative: bool, enforce: bool)
    requires units < Limit && units % 1000 == 0
    ensures NormalizedUnits(QuantityFromUnits(units), WholePieces, negative, enforce) == Ok(units)
  {
    UnitsRoundTrip(units);
    UnitsRoundTrip(1000);
    WholePiecesAccepted();
    RoundIsIdempotent(units, 0, HalfUp);
    hide QuantityToUnits, QuantityFromUnits, RoundUnits, PolicyAccepted;
  }

  lemma GramsNormalize(units: nat)
    requires units < Limit
    ensures NormalizedUnits(QuantityFromUnits(units), Grams, true, true) == Ok(units)
  {
    UnitsRoundTrip(units);
    UnitsRoundTrip(1);
    assert RoundUnits(1, 3, Down) == 1;
    RoundIsIdempotent(units, 3, HalfUp);
    hide QuantityToUnits, QuantityFromUnits, RoundUnits;
  }

  /** A referenced movement of product 0 at a place of the warehouse of the same number. */
  function Manual(key: nat, kind: Kind, place: nat, units: nat, lot: Option<LotLabel>, serials: Option<seq<string>>): MovementRequest {
    MovementRequest(key, place, 0, place, kind, QuantityFromUnits(units), true, lot, serials)
  }

  ghost predicate ShopRequest(context: Context, request: MovementRequest, change: int) {
    && request.product in context.products
    && RequestedChange(context, request) == Ok(change) && TargetUsable(context, request.product, request.location, request.warehouse)
    && request.kind != Initial && request.referenced
  }

  lemma ShopAccepts(policy: Policy, cost: nat, now: nat, key: nat, kind: Kind, place: nat, units: nat, change: int, lot: Option<LotLabel>,
                    serials: Option<seq<string>>)
    requires place < 2 && kind != Initial && QuantityChange(kind, units) == Ok(change)
    requires NormalizedUnits(QuantityFromUnits(units), policy, true, true) == Ok(units)
    ensures ShopRequest(Shop(policy, cost, now), Manual(key, kind, place, units, lot, serials), change)
    ensures var context, request := Shop(policy, cost, now), Manual(key, kind, place, units, lot, serials);
            && request.key == key && request.kind == kind && request.product == 0 && request.location == place
            && context.now == now && context.currency == 0 && 0 in context.products && context.products[0].cost == cost
            && MovementDetails(context, request) == Details(cost, Lots.LotOptions(lot, None, false, 0, Lots.NoDates), SerialOptions(serials, None))
  {
    hide NormalizedUnits, QuantityFromUnits;
  }

  /** What a manual movement with a new key does, when its balance allows it. */
  lemma MovementPosts(world: World, tracking: Tracking, kits: map<Product, Kit>, context: Context, request: MovementRequest, change: int)
    requires Booked(world.state.stock) && request.key !in world.used && ShopRequest(context, request, change)
    requires var row := RowAt(world.state.stock.rows, request.product, request.location);
             row.quantity + change >= 0 && row.available + change >= 0
    ensures var row := RowAt(world.state.stock.rows, request.product, request.location);
            var posted := Post(world.state.stock, tracking, AvailableChanged(row, change),
                               Plain(request.product, request.location, request.kind, change, context.now, context.currency),
                               MovementDetails(context, request));
            var r := Perform(world, tracking, kits, MovementCommand(context, request));
            && (posted.Err? ==> r == Err(posted.error))
            && (posted.Ok? ==> r.Ok? && r.value.state == world.state.(stock := posted.value) && r.value.used.Keys == world.used.Keys + {request.key}
                               && r.value.operations == world.operations)
  {
    hide RequestedChange, TargetUsable, Post, RowAt, MovementDetails;
  }

  /** Without tracking a write is a valuation. */
  lemma UntrackedPosts(stock: Stock, row: Row, m: Movement, details: Details)
    requires Booked(stock)
    ensures Post(stock, NoTracking, row, m, details)
            == match Fifo.Apply(stock.ledgers.book, m, details.cost)
               case Err(e) => Err(e)
               case Ok(book) => Ok(Stock(Put(stock.rows, row), stock.ledgers.(book := book)))
  {
    hide Fifo.Apply;
  }

  /** A movement of an untracked product whose valuation is known to succeed. */
  lemma Moves(world: World, kits: map<Product, Kit>, context: Context, request: MovementRequest, change: int, after: Fifo.Book) returns (next: World)
    requires Booked(world.state.stock) && request.key !in world.used && ShopRequest(context, request, change)
    requires var row := RowAt(world.state.stock.rows, request.product, request.location);
             row.quantity + change >= 0 && row.available + change >= 0
    requires Fifo.Apply(world.state.stock.ledgers.book, Plain(request.product, request.location, request.kind, change, context.now, context.currency),
                        context.products[request.product].cost) == Ok(after)
    ensures Perform(world, NoTracking, kits, MovementCommand(context, request)) == Ok(next) && Booked(next.state.stock)
    ensures next.state.transfers == world.state.transfers && next.state.receipts == world.state.receipts
    ensures next.state.stock.ledgers.book == after && next.used.Keys == world.used.Keys + {request.key}
    ensures forall p, l ::
              RowAt(next.state.stock.rows, p, l)
              == if p == request.product && l == request.location
                 then AvailableChanged(RowAt(world.state.stock.rows, request.product, request.location), change)
                 else RowAt(world.state.stock.rows, p, l)
    ensures forall p, l :: Exists(world.state.stock.rows, p, l) ==> Exists(next.state.stock.rows, p, l)
  {
    hide Perform, Fifo.Apply, RowAt, Put, Post, ShopRequest, Exists;
    MovementPosts(world, NoTracking, kits, context, request, change);
    var m := Plain(request.product, request.location, request.kind, change, context.now, context.currency);
    var row := AvailableChanged(RowAt(world.state.stock.rows, request.product, request.location), change);
    assert request.product in context.products by { ShopProduct(context, request, change); }
    UntrackedPosts(world.state.stock, row, m, MovementDetails(context, request));
    next := Perform(world, NoTracking, kits, MovementCommand(context, request)).value;
    forall p, l
      ensures RowAt(next.state.stock.rows, p, l)
              == if p == request.product && l == request.location then row else RowAt(world.state.stock.rows, p, l)
      ensures Exists(world.state.stock.rows, p, l) ==> Exists(next.state.stock.rows, p, l)
    {
      PutIsRead(world.state.stock.rows, row, p, l);
    }
  }

  lemma ShopProduct(context: Context, request: MovementRequest, change: int)
    requires ShopRequest(context, request, change)
    ensures request.product in context.products
  {
  }

  lemma NothingThere(p: Product, l: Location)
    ensures RowAt(EmptyWorld.state.stock.rows, p, l) == Row(p, l, 0, 0, 0, 0, 0)
    ensures EmptyWorld.state.stock.ledgers.book == Fifo.EmptyBook && EmptyWorld.used.Keys == {} && Booked(EmptyWorld.state.stock)
  {
  }

  // ----- A value that rounds below zero -----

  const CrumbShop := Shop(Grams, 100, 0)
  const FirstCrumb := Manual(0, Entry, 0, 4, None, None)
  const SecondCrumb := Manual(1, Entry, 0, 4, None, None)
  const MostOfThem := Manual(2, Exit, 0, 5, None, None)

  lemma CrumbRequests()
    ensures ShopRequest(CrumbShop, FirstCrumb, 4) && ShopRequest(CrumbShop, SecondCrumb, 4) && ShopRequest(CrumbShop, MostOfThem, -5)
    ensures FirstCrumb.key == 0 && FirstCrumb.product == 0 && FirstCrumb.location == 0 && FirstCrumb.kind == Entry
    ensures SecondCrumb.key == 1 && SecondCrumb.product == 0 && SecondCrumb.location == 0 && SecondCrumb.kind == Entry
    ensures MostOfThem.key == 2 && MostOfThem.product == 0 && MostOfThem.location == 0 && MostOfThem.kind == Exit
    ensures CrumbShop.now == 0 && CrumbShop.currency == 0 && 0 in CrumbShop.products && CrumbShop.products[0].cost == 100
    ensures MovementDetails(CrumbShop, MostOfThem).cost == 100
  {
    hide NormalizedUnits, QuantityFromUnits, ShopRequest, MovementDetails, Shop, Manual;
    GramsNormalize(4);
    GramsNormalize(5);
    CrumbChanges();
    ShopAccepts(Grams, 100, 0, 0, Entry, 0, 4, 4, None, None);
    ShopAccepts(Grams, 100, 0, 1, Entry, 0, 4, 4, None, None);
    ShopAccepts(Grams, 100, 0, 2, Exit, 0, 5, -5, None, None);
  }

  lemma CrumbChanges()
    ensures QuantityChange(Entry, 4) == Ok(4) && QuantityChange(Exit, 5) == Ok(-5)
    ensures Plain(0, 0, Entry, 4, 0, 0) == FifoCases.Crumb && Plain(0, 0, Exit, -5, 0, 0) == FifoCases.Crumbs
  {
  }

  lemma TwoCommands(world: World, tracking: Tracking, kits: map<Product, Kit>, a: Command, b: Command)
    requires Booked(world.state.stock) && Perform(world, tracking, kits, a).Ok?
    ensures PerformAll(world, tracking, kits, [a, b]) == Perform(Perform(world, tracking, kits, a).value, tracking, kits, b)
  {
    hide Perform;
    assert [a][1..] == [];
    assert [a] + [b] == [a, b];
    PerformNext(world, tracking, kits, [a], b);
  }

  /** Two entries of 0.004 of a product that costs 0.01 leave 0.008 in stock; taking 0.005 out is refused. */
  lemma CrumbsAreRefused()
    ensures var r := PerformAll(EmptyWorld, NoTracking, map[], [MovementCommand(CrumbShop, FirstCrumb), MovementCommand(CrumbShop, SecondCrumb)]);
            && r.Ok? && RowAt(r.value.state.stock.rows, 0, 0).available == 8
            && Perform(r.value, NoTracking, map[], MovementCommand(CrumbShop, MostOfThem)) == Err(NegativeValuationValue)
  {
    hide Perform, PerformAll, RowAt, Post, Put, ShopRequest, Fifo.Apply, MovementDetails, Shop, Manual, CrumbShop, Moved, Fifo.EmptyBook;
    var one, two := FifoCases.CrumbsAreWorthless();
    CrumbRequests();
    CrumbChanges();
    NothingThere(0, 0);
    var first := Moves(EmptyWorld, map[], CrumbShop, FirstCrumb, 4, one);
    var second := Moves(first, map[], CrumbShop, SecondCrumb, 4, two);
    TwoCommands(EmptyWorld, NoTracking, map[], MovementCommand(CrumbShop, FirstCrumb), MovementCommand(CrumbShop, SecondCrumb));
    MovementPosts(second, NoTracking, map[], CrumbShop, MostOfThem, -5);
    UntrackedPosts(second.state.stock, AvailableChanged(RowAt(second.state.stock.rows, 0, 0), -5), FifoCases.Crumbs,
                   MovementDetails(CrumbShop, MostOfThem));
  }
}
