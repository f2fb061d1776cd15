/** Value types of the warehouse aggregate: commands, events, the failures a
    command handler can raise, and the aggregate's state as rebuilt from its
    event history. */
module Domain {

  datatype Option<+T> = None | Some(value: T)

  datatype Result<+T, +E> = Success(value: T) | Failure(error: E)

  /** A Kotlin `Map<String, Int>` from article number to amount, kept in its
      insertion order (the order in which `forEach` visits it). */
  type Products = seq<(string, int)>

  /** What a Kotlin map guarantees: no article number occurs twice. */
  predicate IsMap(products: Products) {
    forall i, j :: 0 <= i < j < |products| ==> products[i].0 != products[j].0
  }

  datatype DeliveryAddress = DeliveryAddress(streetAndHouseNumber: string, postCodeAndTown: string)

  datatype Command =
    | OpenWarehouse(warehouseId: string)
    | CloseWarehouse(warehouseId: string)
    | StoreProductsInWarehouse(warehouseId: string, products: Products)
    | TakeProducts(warehouseId: string, products: Products)
    | ShipProducts(warehouseId: string, products: Products, deliveryAddress: DeliveryAddress)

  datatype Event =
    | WarehouseOpened(warehouseId: string)
    | WarehouseClosed(warehouseId: string)
    | ProductArrivedInWarehouse(warehouseId: string, articleNumber: string, amount: int)
    | ProductTaken(warehouseId: string, articleNumber: string, amount: int)

  /** The exceptions that end a command without effect. The last two are
      raised by the framework before any handler runs. */
  datatype Error =
    | IllegalArgument(message: string)
    | OutOfStock(articleNumber: string, requestedAmount: int, availableAmount: int)
    | AggregateNotFound
    | AggregateDeleted

  const NotEmptyMessage: string := "Warehouse must be completely empty to be closed!"
  const NonPositiveArrivalMessage: string := "Arriving amount for product must be greater than 0!"

  /** One call of the external shipping service. */
  datatype Shipment = Shipment(address: DeliveryAddress, products: Products)

  /** The aggregate's fields: `warehouseId` (None while the `lateinit`
      property is uninitialised), the framework's deleted mark, and `stock`. */
  datatype State = State(warehouseId: Option<string>, deleted: bool, stock: map<string, int>)

  /** A freshly created aggregate instance, before any event is applied. */
  const Initial: State := State(None, false, map[])

  /** `stock[article] ?: 0`, also `stock.getOrDefault(article, 0)`. */
  function Available(stock: map<string, int>, article: string): int {
    if article in stock then stock[article] else 0
  }

  /** Every quantity in the stock is zero (`stock.values.all { it == 0 }`). */
  predicate AllZero(stock: map<string, int>) {
    forall a :: a in stock ==> stock[a] == 0
  }

  /** The ledger invariant: no article has a negative quantity on hand. */
  ghost predicate NonNegative(stock: map<string, int>) {
    forall a :: Available(stock, a) >= 0
  }
}
