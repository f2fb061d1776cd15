# Warehouse aggregate — a Dafny model

This project models the event-sourced `WarehouseAggregate` of the Axon testing
demo. A warehouse is opened, receives products, gives them out (`take`, and
`ship` which also calls an external shipping service), and is closed once its
stock is empty. Every change is an event: the command handlers decide which
events to apply, and the event-sourcing handlers fold those events into the
aggregate's fields `warehouseId` and `stock` (article number → quantity).

The model has two layers.

- **The decision and the fold as values** (`domain.dfy`, `fold.dfy`,
  `decision.dfy`, `properties.dfy`, `scenarios.dfy`).
  - `Fold.Apply` folds one event.
  - `Fold.Replay` folds a history.
  - `Decision.Decide` maps a state and a command to `Success(events)` or
    `Failure(error)`.
  - The handlers apply each event as soon as they emit it, so `StoreAll` and
    `TakeAll` walk the input in order against the state that the earlier steps
    left behind. A failure part-way through yields no events at all.
  - A Kotlin `Map<String, Int>` is a sequence of (article, amount) pairs in
    insertion order. `IsMap` says that its article numbers are distinct.
- **The aggregate object** (`aggregate.dfy`). The class `WarehouseAggregate`
  holds the fields that the handlers update in place.
  - Each command handler is a method whose loop applies one event per product
    entry and returns the exception it would throw.
  - `Handle` is the framework's unit of work. It refuses deleted and missing
    aggregates, runs the handler, and on an exception restores the state and
    discards the pending events.
  - Each method is proved against `Decide` and `Replay`.
  - Calls to the shipping service are recorded in the ghost field `shipments`.

Framework behaviour appears only as explicit guards in `Decide`:

- A command addressed to a closed (deleted) aggregate fails with
  `AggregateDeleted`.
- Any command other than the create-if-missing `OpenWarehouse`, addressed to an
  aggregate with no events yet, fails with `AggregateNotFound`.

Points of the code's behaviour worth noting, which the model keeps:

- Folding `ProductTaken` or `ProductArrivedInWarehouse` creates a missing
  article at 0 (`getOrDefault`). It does not require the key to exist.
- Take and ship do not check the sign of the requested amount. A negative
  amount passes the stock check and increases the stock; see
  `Properties.NegativeTakeAddsStock`.
- Store events carry the command's warehouse id. Take and ship events carry
  the aggregate's own `warehouseId` field.
- Opening an existing warehouse is a no-op. Opening a closed one is refused by
  the framework, like every other command on a deleted aggregate.

## Model

| member | source | states |
|---|---|---|
| `Fold.Apply` | src/main/kotlin/de/babsek/demo/axontesting/domain/WarehouseAggregate.kt:37-112 | opening sets the id and an empty stock; closing marks the aggregate deleted; an arrival adds and a take subtracts the amount on the one article (absent = 0), every other article unchanged |
| `Decision.Decide` | src/main/kotlin/de/babsek/demo/axontesting/domain/WarehouseAggregate.kt:27-107 | the dispatch refuses every command on a deleted aggregate with `AggregateDeleted`; on a missing aggregate only the create-if-missing open succeeds, and every other command fails with `AggregateNotFound`; the handlers' own rules are stated by the `*Spec` lemmas below |
| `Fold.ReplayKeepsDeleted` | src/main/kotlin/de/babsek/demo/axontesting/domain/WarehouseAggregate.kt:53-56 | no event clears the deleted mark |
| `Fold.ClosedHistoryIsDeleted` | src/main/kotlin/de/babsek/demo/axontesting/domain/WarehouseAggregate.kt:53-56 | any history containing `WarehouseClosed` replays to a deleted aggregate |
| `Decision.FirstShortage` | src/main/kotlin/de/babsek/demo/axontesting/domain/WarehouseAggregate.kt:80-82 | the index of the first entry whose requested amount exceeds what is on hand, with every earlier entry covered; None when every entry is covered |
| `Decision.StoreAllSpec` | src/main/kotlin/de/babsek/demo/axontesting/domain/WarehouseAggregate.kt:59-72 | the store loop succeeds with one arrival per entry in input order iff every amount is positive, and otherwise fails with the "greater than 0" error and no events |
| `Decision.TakeAllSpec` | src/main/kotlin/de/babsek/demo/axontesting/domain/WarehouseAggregate.kt:79-93 | for distinct articles, the take loop (which sees its own earlier takes) fails with `OutOfStock(article, requested, available)` at the first uncovered entry, else emits one `ProductTaken` per entry in order |
| `Properties.AllZeroIffNothingOnHand` | src/main/kotlin/de/babsek/demo/axontesting/domain/WarehouseAggregate.kt:45 | `stock.values.all { it == 0 }` holds iff every article has 0 on hand |
| `Properties.OpenIfMissing` | src/main/kotlin/de/babsek/demo/axontesting/domain/WarehouseAggregate.kt:29-41 | an uninitialised aggregate emits exactly `[WarehouseOpened(id)]`, and folding it gives that id and an empty stock |
| `Properties.OpenIsIdempotent` | src/main/kotlin/de/babsek/demo/axontesting/domain/WarehouseAggregate.kt:29-35 | on any existing, not deleted aggregate, whatever its stock, open succeeds and emits nothing |
| `Properties.OpenTwice` | src/main/kotlin/de/babsek/demo/axontesting/domain/WarehouseAggregate.kt:29-41 | opening twice from a missing aggregate emits `[WarehouseOpened(id)]` the first time and nothing the second |
| `Properties.CloseSpec` | src/main/kotlin/de/babsek/demo/axontesting/domain/WarehouseAggregate.kt:43-51 | close succeeds iff nothing is on hand, emitting exactly `[WarehouseClosed(id)]`; otherwise it fails with the "must be completely empty" error and no events |
| `Properties.ClosedIsTerminal` | src/main/kotlin/de/babsek/demo/axontesting/domain/WarehouseAggregate.kt:53-56 | after `WarehouseClosed`, every command fails with `AggregateDeleted`, emits nothing and ships nothing |
| `Properties.StoreSpec` | src/main/kotlin/de/babsek/demo/axontesting/domain/WarehouseAggregate.kt:58-72 | store on an open warehouse emits one arrival per entry with the command's id, in input order, iff all amounts are positive; otherwise it fails with no events |
| `Properties.ReplayArrived` | src/main/kotlin/de/babsek/demo/axontesting/domain/WarehouseAggregate.kt:74-77 | folding the arrivals adds each article's amount to what was on hand; id and deleted mark unchanged |
| `Properties.TakeSpec` | src/main/kotlin/de/babsek/demo/axontesting/domain/WarehouseAggregate.kt:79-98 | take on an open warehouse fails with `OutOfStock` at the first uncovered entry (requested == available is allowed), else emits one `ProductTaken` per entry with the aggregate's id, in order |
| `Properties.ReplayTaken` | src/main/kotlin/de/babsek/demo/axontesting/domain/WarehouseAggregate.kt:109-112 | folding the takes subtracts each article's amount from what was on hand; id and deleted mark unchanged |
| `Properties.ShipIsTakeThenShipping` | src/main/kotlin/de/babsek/demo/axontesting/domain/WarehouseAggregate.kt:100-107 | ship decides exactly as take; the service is called once with the command's address and products iff the take succeeded; take never calls it |
| `Properties.NegativeTakeAddsStock` | src/main/kotlin/de/babsek/demo/axontesting/domain/WarehouseAggregate.kt:79-93 | a negative requested amount always passes the check, and its event raises the stock |
| `Properties.StoreKeepsConsistent` | src/main/kotlin/de/babsek/demo/axontesting/domain/WarehouseAggregate.kt:58-77 | folding a successful store keeps stock non-negative and the aggregate open |
| `Properties.TakeKeepsConsistent` | src/main/kotlin/de/babsek/demo/axontesting/domain/WarehouseAggregate.kt:79-112 | folding a successful take keeps stock non-negative, because each step takes at most what is on hand |
| `Properties.DecideKeepsConsistent` | src/main/kotlin/de/babsek/demo/axontesting/domain/WarehouseAggregate.kt:27-112 | every successful decision keeps the invariant: stock never negative, empty before opening, empty when deleted |
| `Properties.ExecuteIsReplay` | src/main/kotlin/de/babsek/demo/axontesting/domain/WarehouseAggregate.kt:27-112 | after any run of commands, the aggregate's state is the replay of the events it stored |
| `Properties.ExecuteKeepsConsistent` | src/main/kotlin/de/babsek/demo/axontesting/domain/WarehouseAggregate.kt:27-112 | any run of commands preserves the invariant |
| `Properties.StockNeverNegative` | src/main/kotlin/de/babsek/demo/axontesting/domain/WarehouseAggregate.kt:79-112 | replaying the history of any run from a fresh aggregate never shows a negative quantity |
| `Aggregate.WarehouseAggregate.constructor` | src/main/kotlin/de/babsek/demo/axontesting/domain/WarehouseAggregate.kt:19-25 | a fresh instance has no id, no stock, no pending events |
| `Aggregate.WarehouseAggregate.On` | src/main/kotlin/de/babsek/demo/axontesting/domain/WarehouseAggregate.kt:37-112 | the in-place event handlers change the fields exactly as `Apply` folds the event |
| `Aggregate.WarehouseAggregate.ApplyEvent` | src/main/kotlin/de/babsek/demo/axontesting/domain/WarehouseAggregate.kt:64-70 | applying an event records it in the unit of work and folds it at once |
| `Aggregate.WarehouseAggregate.Load` | src/main/kotlin/de/babsek/demo/axontesting/domain/WarehouseAggregate.kt:37-112 | running the handlers over a stored stream gives the state `Replay` computes |
| `Aggregate.WarehouseAggregate.HandleOpenWarehouseCommand` | src/main/kotlin/de/babsek/demo/axontesting/domain/WarehouseAggregate.kt:27-35 | never throws, and applies exactly the events `Decide` emits |
| `Aggregate.WarehouseAggregate.HandleCloseWarehouseCommand` | src/main/kotlin/de/babsek/demo/axontesting/domain/WarehouseAggregate.kt:43-51 | throws exactly the error `Decide` reports, else applies its events |
| `Aggregate.WarehouseAggregate.HandleStoreProductsInWarehouseCommand` | src/main/kotlin/de/babsek/demo/axontesting/domain/WarehouseAggregate.kt:58-72 | the loop throws exactly the error `Decide` reports, else has applied its events in order and left the state they replay to |
| `Aggregate.WarehouseAggregate.TakeProducts` | src/main/kotlin/de/babsek/demo/axontesting/domain/WarehouseAggregate.kt:79-93 | the loop throws exactly the `OutOfStock` the sequential take reports, else has applied its events in order and left the state they replay to |
| `Aggregate.WarehouseAggregate.HandleTakeProductsCommand` | src/main/kotlin/de/babsek/demo/axontesting/domain/WarehouseAggregate.kt:95-98 | take agrees with `Decide` |
| `Aggregate.WarehouseAggregate.HandleShipProductsCommand` | src/main/kotlin/de/babsek/demo/axontesting/domain/WarehouseAggregate.kt:100-107 | agrees with `Decide`, and appends one shipment with the command's address and products exactly when the take did not throw |
| `Aggregate.WarehouseAggregate.Handle` | src/main/kotlin/de/babsek/demo/axontesting/domain/WarehouseAggregate.kt:27-107 | one command in a unit of work returns `Decide`'s outcome; on success the state is the replay of the events and they are pending; on failure state and pending events are as before |
| `Scenarios.OpenAndCloseScenarios` | src/test/kotlin/de/babsek/demo/axontesting/domain/WarehouseAggregateTest.kt:33-85 | open a new warehouse, open again (no events), close an empty one (marked deleted), refuse to close a stocked one |
| `Scenarios.ProductsArrivingScenarios` | src/test/kotlin/de/babsek/demo/axontesting/domain/WarehouseAggregateTest.kt:94-137 | store `{001:7, 002:13}` emits two arrivals in order; a closed warehouse refuses it |
| `Scenarios.TakeProductsScenarios` | src/test/kotlin/de/babsek/demo/axontesting/domain/WarehouseAggregateTest.kt:144-221 | take all 3 succeeds; an absent article gives `OutOfStock("002", 3, 0)`; too many gives `OutOfStock("001", 4, 3)` |
| `Scenarios.ShipProductsScenario` | src/test/kotlin/de/babsek/demo/axontesting/domain/WarehouseAggregateTest.kt:236-277 | shipping what is on hand takes it and calls the service once with the command's address and products |

## Left out

- Axon's machinery is not modelled: annotation dispatch, aggregate loading and
  locking, and publishing to the event store. The model keeps only its observable
  effects. These are the deleted and not-found guards, the immediate fold on
  `apply`, and the rollback of a failed unit of work.
- The shipping service's implementation is not part of this model. Its calls
  are a ghost trace, and a call is assumed to return normally. A service that
  throws would abort the ship command after its take events were applied. That
  case is not modelled.
- Kotlin `Int` is 32 bits, and the stock arithmetic would wrap on overflow. The
  model uses unbounded integers, and `Properties.StockNeverNegative`,
  `Properties.TakeKeepsConsistent` and `Properties.DecideKeepsConsistent` hold
  only because of that. In Kotlin a take of `Int.MIN_VALUE` passes the check
  `(stock[a] ?: 0) < requested` and folds to `0 - MIN_VALUE == MIN_VALUE`, so
  one command makes the stock negative. Two arrivals whose sum exceeds
  2^31 - 1 also wrap to a negative quantity.
- The text of `OutOfStockException`'s message is not modelled. The exception is
  the value `OutOfStock(article, requested, available)`.
- Spring Boot, JPA and the build configuration are not modelled. Neither is the
  test fixture: its scenarios appear only as the lemmas in `scenarios.dfy`.
- `Decision.TakeAllSpec`, `Properties.TakeSpec`: these require `IsMap` (distinct
  article numbers), which any Kotlin `Map` satisfies. The sequential definition
  `TakeAll` that the handler follows needs no such requirement.
