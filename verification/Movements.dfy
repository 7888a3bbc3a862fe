/** The inventory_movements row, as the projections read it. One tenant; identifiers are
    numbers; quantities are thousandths and costs ten-thousandths, as the code scales them. */
module Movements {
  import opened Outcomes
  import opened Sums

  type Product = nat
  type Location = nat
  type Currency = nat

  datatype Kind =
    | Initial | Entry | Exit | Return | Loss | Damage | Adjustment | StateTransition | Import
    | PurchaseReceipt | SupplierReturn | Sale | SaleVoid | SaleReturn
    | TransferOut | TransferIn | TransferReceipt | TransferDiscrepancy

  datatype SerialStatus =
    Available | Reserved | Damaged | InTransit | Sold | ReturnedToSupplier | Removed

  datatype SaleLine = SaleLine(sale: nat, line: nat)
  datatype TransferLine = TransferLine(transfer: nat, line: nat)
  datatype StateChange = StateChange(from: SerialStatus, to: SerialStatus)

  /** What a purchase receipt line says about the goods it brings in. */
  datatype Purchase = Purchase(receiptLine: nat, unitCost: nat, currency: Currency, lot: Option<LotLabel>)

  datatype LotLabel = LotLabel(code: string, manufactured: Option<nat>, expires: Option<nat>)

  /** `at` is created_at; `currency` is the tenant's currency; `returnOf` is the receipt a
      supplier return line gives back; `damagedReturn` is the condition of a sale return line. */
  datatype Movement = Movement(
    product: Product, location: Location, kind: Kind, quantity: int, at: nat, currency: Currency,
    stateQuantity: int, state: Option<StateChange>,
    saleLine: Option<SaleLine>, sourceSale: Option<nat>, reserved: bool, damagedReturn: bool,
    transferLine: Option<TransferLine>, purchase: Option<Purchase>, returnOf: Option<Purchase>)

  predicate SameSign(a: int, b: int) {
    (a > 0 && b > 0) || (a < 0 && b < 0)
  }

  /** A movement that carries no link to a document line. */
  function Plain(product: Product, location: Location, kind: Kind, quantity: int, at: nat, currency: Currency): Movement {
    Movement(product, location, kind, quantity, at, currency, 0, None, None, None, false, false, None, None, None)
  }

  function ChangeAt(product: Product, location: Location): Movement -> int {
    (m: Movement) => if m.product == product && m.location == location then m.quantity else 0
  }

  function ChangeOf(product: Product): Movement -> int {
    (m: Movement) => if m.product == product then m.quantity else 0
  }

  /** The SQL sum of quantity_change at a product and location. */
  function Moved(movements: seq<Movement>, product: Product, location: Location): int {
    Total(movements, ChangeAt(product, location))
  }

  /** The SQL sum of quantity_change of a product over all locations. */
  function MovedOf(movements: seq<Movement>, product: Product): int {
    Total(movements, ChangeOf(product))
  }
}
