/** The aggregate's test scenarios, replayed on the model: each lemma gives
    the stored events, the command, and the outcome the scenario expects. */
module Scenarios {
  import opened Domain
  import opened Fold
  import opened Decision

  const W: string := "warehouse01"

  /** Opening a new warehouse emits `WarehouseOpened`; opening it again emits
      nothing; closing an empty one emits `WarehouseClosed` and marks it
      deleted; closing one with stock on hand is refused. */
  lemma OpenAndCloseScenarios()
    ensures Decide(Initial, OpenWarehouse(W)) == Success([WarehouseOpened(W)])
    ensures Decide(Replay(Initial, [WarehouseOpened(W)]), OpenWarehouse(W)) == Success([])
    ensures Decide(Replay(Initial, [WarehouseOpened(W)]), CloseWarehouse(W)) == Success([WarehouseClosed(W)])
    ensures Replay(Initial, [WarehouseOpened(W), WarehouseClosed(W)]).deleted
    ensures Decide(Replay(Initial, [WarehouseOpened(W), ProductArrivedInWarehouse(W, "001", 7)]),
                   CloseWarehouse(W)) == Failure(IllegalArgument(NotEmptyMessage))
  {
    ReplayShort(Initial, WarehouseOpened(W), WarehouseClosed(W));
    ReplayShort(Initial, WarehouseOpened(W), ProductArrivedInWarehouse(W, "001", 7));
    var stocked := Apply(Apply(Initial, WarehouseOpened(W)), ProductArrivedInWarehouse(W, "001", 7));
    assert stocked.stock["001"] == 7;
  }

  /** Arriving products give one event each, in order; a closed warehouse
      refuses them. */
  lemma ProductsArrivingScenarios()
    ensures Decide(Replay(Initial, [WarehouseOpened(W)]),
                   StoreProductsInWarehouse(W, [("001", 7), ("002", 13)])) ==
      Success([ProductArrivedInWarehouse(W, "001", 7), ProductArrivedInWarehouse(W, "002", 13)])
    ensures Decide(Replay(Initial, [WarehouseOpened(W), WarehouseClosed(W)]),
                   StoreProductsInWarehouse(W, [("001", 7), ("002", 13)])) == Failure(AggregateDeleted)
  {
    ReplayShort(Initial, WarehouseOpened(W), WarehouseClosed(W));
    var products: Products := [("001", 7), ("002", 13)];
    assert products[1..] == [("002", 13)] && products[1..][1..] == [];
    var e1, e2 := ProductArrivedInWarehouse(W, "001", 7), ProductArrivedInWarehouse(W, "002", 13);
    assert [e1] + ([e2] + []) == [e1, e2];
  }

  /** Taking all that is on hand succeeds; taking an article that was never
      stored, or more than is on hand, fails with `OutOfStock`. */
  lemma TakeProductsScenarios()
    ensures Decide(Replay(Initial, [WarehouseOpened(W), ProductArrivedInWarehouse(W, "001", 3)]),
                   TakeProducts(W, [("001", 3)])) == Success([ProductTaken(W, "001", 3)])
    ensures Decide(Replay(Initial, [WarehouseOpened(W), ProductArrivedInWarehouse(W, "001", 3)]),
                   TakeProducts(W, [("002", 3)])) == Failure(OutOfStock("002", 3, 0))
    ensures Decide(Replay(Initial, [WarehouseOpened(W), ProductArrivedInWarehouse(W, "001", 3)]),
                   TakeProducts(W, [("001", 4)])) == Failure(OutOfStock("001", 4, 3))
  {
    ReplayShort(Initial, WarehouseOpened(W), ProductArrivedInWarehouse(W, "001", 3));
    var stocked := Apply(Apply(Initial, WarehouseOpened(W)), ProductArrivedInWarehouse(W, "001", 3));
    assert stocked.stock == map["001" := 3];
    var taken: Products := [("001", 3)];
    assert taken[1..] == [];
    assert [ProductTaken(W, "001", 3)] + [] == [ProductTaken(W, "001", 3)];
  }

  /** Shipping what is on hand takes it and calls the shipping service once
      with the command's address and products. */
  lemma ShipProductsScenario()
    ensures
      var given := Replay(Initial, [WarehouseOpened(W), ProductArrivedInWarehouse(W, "001", 3)]);
      var address := DeliveryAddress("street 1", "12345 Town");
      var command := ShipProducts(W, [("001", 3)], address);
      Decide(given, command) == Success([ProductTaken(W, "001", 3)]) &&
      Shipping(given, command) == [Shipment(address, [("001", 3)])]
  {
    ReplayShort(Initial, WarehouseOpened(W), ProductArrivedInWarehouse(W, "001", 3));
    var given := Apply(Apply(Initial, WarehouseOpened(W)), ProductArrivedInWarehouse(W, "001", 3));
    assert given.stock == map["001" := 3];
    var taken: Products := [("001", 3)];
    assert taken[1..] == [];
    assert [ProductTaken(W, "001", 3)] + [] == [ProductTaken(W, "001", 3)];
  }
}
