/** The master data a stock writer reads: warehouses, locations and products, and the clock. */
module Site {
  import opened Outcomes
  import opened Movements
  import opened Quantity
  import opened Lots
  import opened Serials
  import opened Ledgers

  type Warehouse = nat
  type Key = nat

  datatype Place = Place(warehouse: Warehouse, active: bool)

  /** `hasVariants` marks a parent product, which holds no stock of its own. */
  datatype ProductInfo = ProductInfo(active: bool, hasVariants: bool, policy: Policy, cost: nat, expiration: ExpirationPolicy)

  /** `warehouses` are the active ones; `access` are those the user may work in. */
  datatype Context = Context(
    warehouses: set<Warehouse>, access: set<Warehouse>, locations: map<Location, Place>,
    products: map<Product, ProductInfo>, now: nat, today: nat, currency: Currency)

  predicate LocationIn(context: Context, location: Location, warehouse: Warehouse) {
    location in context.locations && context.locations[location] == Place(warehouse, true)
  }

  predicate ProductActive(context: Context, product: Product) {
    product in context.products && context.products[product].active
  }

  predicate ProductStocked(context: Context, product: Product) {
    ProductActive(context, product) && !context.products[product].hasVariants
  }

  predicate WarehousePair(context: Context, origin: Warehouse, destination: Warehouse) {
    origin in context.warehouses && destination in context.warehouses && origin != destination
  }

  /** What a writer that chooses no lot passes to the ledgers. */
  function Unguided(context: Context, product: Product, serial: SerialOptions): Details {
    if product in context.products
    then Details(context.products[product].cost, LotOptions(None, None, false, context.today, context.products[product].expiration), serial)
    else Details(0, LotOptions(None, None, false, context.today, NoDates), serial)
  }
}
