/** The aggregate as the framework runs it: an object whose `on(...)` handlers
    update its fields in place, whose command handlers apply events one at a
    time while walking their input and abort by throwing, and a unit of work
    around each command that throws away everything a failed command did. */
module Aggregate {
  import opened Domain
  import opened Fold
  import opened Decision

  /** The exception a decision ends with, if any. */
  function Thrown(r: Result<seq<Event>, Error>): Option<Error> {
    match r
    case Success(_) => None
    case Failure(err) => Some(err)
  }

  /** Folding the events of the steps taken so far, then one more step,
      builds the decision of the whole walk. */
  lemma PrependStep(emitted: seq<Event>, e: Event, rest: Result<seq<Event>, Error>)
    ensures Prepend(emitted, Prepend([e], rest)) == Prepend(emitted + [e], rest)
  {
    if rest.Success? {
      assert emitted + ([e] + rest.value) == (emitted + [e]) + rest.value;
    }
  }

  /** Before the first step nothing has been emitted. */
  lemma PrependNothing(rest: Result<seq<Event>, Error>)
    ensures Prepend([], rest) == rest
  {
    if rest.Success? {
      assert [] + rest.value == rest.value;
    }
  }

  class WarehouseAggregate {
    /** `warehouseId`; None while the `lateinit` property is uninitialised. */
    var warehouseId: Option<string>
    /** Article number to amount on hand. */
    var stock: map<string, int>
    /** Set by `AggregateLifecycle.markDeleted()`. */
    var deleted: bool
    /** The events `AggregateLifecycle.apply` has recorded in the current
        unit of work. */
    var uncommitted: seq<Event>
    /** Every call made to the external shipping service, in order. */
    ghost var shipments: seq<Shipment>

    /** The fields as a value of the fold's state. */
    function Current(): State
      reads this
    {
      State(warehouseId, deleted, stock)
    }

    /** A fresh instance, before any event is applied. */
    constructor ()
      ensures Current() == Initial && uncommitted == [] && shipments == []
    {
      warehouseId := None;
      stock := map[];
      deleted := false;
      uncommitted := [];
      shipments := [];
    }

    /** The four `@EventSourcingHandler` methods, dispatched on the event. */
    method On(e: Event)
      modifies this
      ensures Current() == Apply(old(Current()), e)
      ensures uncommitted == old(uncommitted) && shipments == old(shipments)
    {
      match e
      case WarehouseOpened(id) =>
        warehouseId := Some(id);
        stock := map[];
      case WarehouseClosed(_) =>
        deleted := true;
      case ProductArrivedInWarehouse(_, article, amount) =>
        stock := stock[article := Available(stock, article) + amount];
      case ProductTaken(_, article, amount) =>
        stock := stock[article := Available(stock, article) - amount];
    }

    /** `AggregateLifecycle.apply`: records the event in the unit of work and
        runs its event-sourcing handler at once. */
    method ApplyEvent(e: Event)
      modifies this
      ensures Current() == Apply(old(Current()), e)
      ensures uncommitted == old(uncommitted) + [e] && shipments == old(shipments)
    {
      uncommitted := uncommitted + [e];
      On(e);
    }

    /** Rebuilds an instance from its stored event stream, as the framework
        does before handing it a command. */
    static method Load(history: seq<Event>) returns (aggregate: WarehouseAggregate)
      ensures fresh(aggregate)
      ensures aggregate.Current() == Replay(Initial, history)
      ensures aggregate.uncommitted == [] && aggregate.shipments == []
    {
      aggregate := new WarehouseAggregate();
      for i := 0 to |history|
        invariant aggregate.Current() == Replay(Initial, history[..i])
        invariant aggregate.uncommitted == [] && aggregate.shipments == []
      {
        ReplaySnoc(Initial, history[..i], history[i]);
        assert history[..i + 1] == history[..i] + [history[i]];
        aggregate.On(history[i]);
      }
      assert history[..|history|] == history;
    }

    /** `handleOpenWarehouseCommand` (create if missing): applies
        `WarehouseOpened` only when the identifier is still uninitialised. */
    method HandleOpenWarehouseCommand(command: Command) returns (thrown: Option<Error>)
      requires command.OpenWarehouse? && !deleted
      modifies this
      ensures thrown == Thrown(Decide(old(Current()), command)) == None
      ensures uncommitted == old(uncommitted) + Decide(old(Current()), command).value
      ensures Current() == Replay(old(Current()), Decide(old(Current()), command).value)
      ensures shipments == old(shipments)
    {
      if warehouseId.None? {
        ApplyEvent(WarehouseOpened(command.warehouseId));
      }
      thrown := None;
    }

    /** `handleCloseWarehouseCommand`: requires every quantity to be zero,
        then applies `WarehouseClosed`. */
    method HandleCloseWarehouseCommand(command: Command) returns (thrown: Option<Error>)
      requires command.CloseWarehouse? && !deleted && warehouseId.Some?
      modifies this
      ensures thrown == Thrown(Decide(old(Current()), command))
      ensures thrown.None? ==>
        uncommitted == old(uncommitted) + Decide(old(Current()), command).value &&
        Current() == Replay(old(Current()), Decide(old(Current()), command).value)
      ensures shipments == old(shipments)
    {
      if !AllZero(stock) {
        return Some(IllegalArgument(NotEmptyMessage));
      }
      ApplyEvent(WarehouseClosed(command.warehouseId));
      thrown := None;
    }

    /** `handleStoreProductsInWarehouseCommand`: walks the products in order,
        throwing at the first amount that is not positive and otherwise
        applying one `ProductArrivedInWarehouse` per entry. */
    method HandleStoreProductsInWarehouseCommand(command: Command) returns (thrown: Option<Error>)
      requires command.StoreProductsInWarehouse? && !deleted && warehouseId.Some?
      modifies this
      ensures thrown == Thrown(Decide(old(Current()), command))
      ensures thrown.None? ==>
        uncommitted == old(uncommitted) + Decide(old(Current()), command).value &&
        Current() == Replay(old(Current()), Decide(old(Current()), command).value)
      ensures shipments == old(shipments)
    {
      var products := command.products;
      ghost var start := Current();
      ghost var emitted: seq<Event> := [];
      var i := 0;
      assert products[i..] == products;
      PrependNothing(StoreAll(command.warehouseId, products));
      while i < |products|
        invariant 0 <= i <= |products|
        invariant uncommitted == old(uncommitted) + emitted
        invariant Current() == Replay(start, emitted)
        invariant shipments == old(shipments)
        invariant StoreAll(command.warehouseId, products) ==
          Prepend(emitted, StoreAll(command.warehouseId, products[i..]))
      {
        var article, amount := products[i].0, products[i].1;
        assert products[i..][1..] == products[i + 1..];
        if !(amount > 0) {
          return Some(IllegalArgument(NonPositiveArrivalMessage));
        }
        var e := ProductArrivedInWarehouse(command.warehouseId, article, amount);
        PrependStep(emitted, e, StoreAll(command.warehouseId, products[i + 1..]));
        ReplaySnoc(start, emitted, e);
        ApplyEvent(e);
        emitted := emitted + [e];
        i := i + 1;
      }
      assert emitted + [] == emitted;
      thrown := None;
    }

    /** `takeProducts`: walks the products in order, throwing `OutOfStock`
        at the first entry whose current quantity is below the requested
        amount and otherwise applying one `ProductTaken` per entry. */
    method TakeProducts(products: Products) returns (thrown: Option<Error>)
      requires warehouseId.Some?
      modifies this
      ensures thrown == Thrown(TakeAll(old(Current()), old(warehouseId).value, products))
      ensures thrown.None? ==>
        uncommitted == old(uncommitted) + TakeAll(old(Current()), old(warehouseId).value, products).value &&
        Current() == Replay(old(Current()), TakeAll(old(Current()), old(warehouseId).value, products).value)
      ensures shipments == old(shipments)
    {
      ghost var start := Current();
      ghost var emitted: seq<Event> := [];
      var i := 0;
      assert products[i..] == products;
      PrependNothing(TakeAll(start, warehouseId.value, products));
      while i < |products|
        invariant 0 <= i <= |products|
        invariant warehouseId == old(warehouseId)
        invariant uncommitted == old(uncommitted) + emitted
        invariant Current() == Replay(start, emitted)
        invariant shipments == old(shipments)
        invariant TakeAll(start, warehouseId.value, products) ==
          Prepend(emitted, TakeAll(Current(), warehouseId.value, products[i..]))
      {
        var articleNumber, requestedAmount := products[i].0, products[i].1;
        assert products[i..][1..] == products[i + 1..];
        if Available(stock, articleNumber) < requestedAmount {
          return Some(OutOfStock(articleNumber, requestedAmount, Available(stock, articleNumber)));
        }
        var e := ProductTaken(warehouseId.value, articleNumber, requestedAmount);
        PrependStep(emitted, e, TakeAll(Apply(Current(), e), warehouseId.value, products[i + 1..]));
        ReplaySnoc(start, emitted, e);
        ApplyEvent(e);
        emitted := emitted + [e];
        i := i + 1;
      }
      assert emitted + [] == emitted;
      thrown := None;
    }

    /** `handleTakeProductsCommand`. */
    method HandleTakeProductsCommand(command: Command) returns (thrown: Option<Error>)
      requires command.TakeProducts? && !deleted && warehouseId.Some?
      modifies this
      ensures thrown == Thrown(Decide(old(Current()), command))
      ensures thrown.None? ==>
        uncommitted == old(uncommitted) + Decide(old(Current()), command).value &&
        Current() == Replay(old(Current()), Decide(old(Current()), command).value)
      ensures shipments == old(shipments)
    {
      thrown := TakeProducts(command.products);
    }

    /** `handleShipProductsCommand`: takes the products, and only when that
        did not throw calls the shipping service once with the command's
        address and products. */
    method HandleShipProductsCommand(command: Command) returns (thrown: Option<Error>)
      requires command.ShipProducts? && !deleted && warehouseId.Some?
      modifies this
      ensures thrown == Thrown(Decide(old(Current()), command))
      ensures thrown.None? ==>
        uncommitted == old(uncommitted) + Decide(old(Current()), command).value &&
        Current() == Replay(old(Current()), Decide(old(Current()), command).value)
      ensures shipments == old(shipments) + Shipping(old(Current()), command)
    {
      thrown := TakeProducts(command.products);
      if thrown.None? {
        shipments := shipments + [Shipment(command.deliveryAddress, command.products)];
      }
    }

    /** One command in its own unit of work: the framework refuses a deleted
        aggregate, and a missing one for anything but the create-if-missing
        open; the handler then runs, and if it throws, the events it already
        applied and the state they changed are rolled back. A successful
        command leaves the state its events replay to, and those events
        pending for the event store. */
    method Handle(command: Command) returns (r: Result<seq<Event>, Error>)
      modifies this
      ensures r == Decide(old(Current()), command)
      ensures Current() == if r.Success? then Replay(old(Current()), r.value) else old(Current())
      ensures uncommitted == if r.Success? then r.value else []
      ensures shipments == old(shipments) + Shipping(old(Current()), command)
    {
      uncommitted := [];
      if deleted {
        return Failure(AggregateDeleted);
      }
      if warehouseId.None? && !command.OpenWarehouse? {
        return Failure(AggregateNotFound);
      }
      var saved := Current();
      var thrown: Option<Error>;
      match command {
      case OpenWarehouse(_) =>
        thrown := HandleOpenWarehouseCommand(command);
      case CloseWarehouse(_) =>
        thrown := HandleCloseWarehouseCommand(command);
      case StoreProductsInWarehouse(_, _) =>
        thrown := HandleStoreProductsInWarehouseCommand(command);
      case TakeProducts(_, _) =>
        thrown := HandleTakeProductsCommand(command);
      case ShipProducts(_, _, _) =>
        thrown := HandleShipProductsCommand(command);
      }
      if thrown.Some? {
        warehouseId, deleted, stock := saved.warehouseId, saved.deleted, saved.stock;
        uncommitted := [];
        r := Failure(thrown.value);
      } else {
        assert [] + Decide(saved, command).value == Decide(saved, command).value;
        r := Success(uncommitted);
      }
    }
  }
}
