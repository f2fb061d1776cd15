/** The command handlers as a decision: from the aggregate's state and a
    command to the events the handler applies, or the exception that aborts
    it. Each handler applies its events one by one as it walks its input, so
    a later step sees the state left by the earlier ones; a failure part-way
    through discards everything, so the decision is all or nothing. */
module Decision {
  import opened Domain
  import opened Fold

  /** Puts the events of the steps already taken in front of the outcome of
      the remaining steps; a failure of the rest fails the whole. */
  function Prepend(emitted: seq<Event>, rest: Result<seq<Event>, Error>): Result<seq<Event>, Error> {
    match rest
    case Success(events) => Success(emitted + events)
    case Failure(err) => Failure(err)
  }

  /** `handleStoreProductsInWarehouseCommand`: for each entry in order, require
      a positive amount, then apply `ProductArrivedInWarehouse`. */
  function StoreAll(warehouseId: string, products: Products): Result<seq<Event>, Error>
    decreases |products|
  {
    if products == [] then Success([])
    else if !(products[0].1 > 0) then Failure(IllegalArgument(NonPositiveArrivalMessage))
    else Prepend([ProductArrivedInWarehouse(warehouseId, products[0].0, products[0].1)],
                 StoreAll(warehouseId, products[1..]))
  }

  /** `takeProducts`: for each entry in order, throw `OutOfStock` when the
      current quantity is below the requested amount, otherwise apply
      `ProductTaken`, which the fold subtracts before the next entry. */
  function TakeAll(s: State, warehouseId: string, products: Products): Result<seq<Event>, Error>
    decreases |products|
  {
    if products == [] then Success([])
    else
      var article, requested := products[0].0, products[0].1;
      var available := Available(s.stock, article);
      if available < requested then Failure(OutOfStock(article, requested, available))
      else
        var e := ProductTaken(warehouseId, article, requested);
        Prepend([e], TakeAll(Apply(s, e), warehouseId, products[1..]))
  }

  /** The whole command dispatch: the framework first refuses a deleted
      aggregate, and any command other than the create-if-missing
      `OpenWarehouse` on an aggregate that does not exist yet; then the
      matching handler decides. */
  function Decide(s: State, command: Command): (r: Result<seq<Event>, Error>)
    ensures s.deleted ==> r == Failure(AggregateDeleted)
    ensures !s.deleted && s.warehouseId.None? ==>
      (r.Success? <==> command.OpenWarehouse?) &&
      (r.Failure? ==> r.error == AggregateNotFound)
  {
    if s.deleted then Failure(AggregateDeleted)
    else if command.OpenWarehouse? then
      if s.warehouseId.None? then Success([WarehouseOpened(command.warehouseId)]) else Success([])
    else if s.warehouseId.None? then Failure(AggregateNotFound)
    else
      match command
      case CloseWarehouse(id) =>
        if AllZero(s.stock) then Success([WarehouseClosed(id)])
        else Failure(IllegalArgument(NotEmptyMessage))
      case StoreProductsInWarehouse(id, products) =>
        StoreAll(id, products)
      case TakeProducts(_, products) =>
        TakeAll(s, s.warehouseId.value, products)
      case ShipProducts(_, products, _) =>
        TakeAll(s, s.warehouseId.value, products)
  }

  /** The calls of the shipping service a command makes: one, with the
      command's address and products, for a ship command whose take
      succeeded; none otherwise. */
  function Shipping(s: State, command: Command): seq<Shipment> {
    if command.ShipProducts? && Decide(s, command).Success?
    then [Shipment(command.deliveryAddress, command.products)]
    else []
  }

  // Reference definitions, stated against the stock before the command.

  /** One `ProductArrivedInWarehouse` per entry, in input order. */
  function ArrivedEvents(warehouseId: string, products: Products): seq<Event> {
    seq(|products|, i requires 0 <= i < |products| =>
      ProductArrivedInWarehouse(warehouseId, products[i].0, products[i].1))
  }

  /** One `ProductTaken` per entry, in input order. */
  function TakenEvents(warehouseId: string, products: Products): seq<Event> {
    seq(|products|, i requires 0 <= i < |products| =>
      ProductTaken(warehouseId, products[i].0, products[i].1))
  }

  /** The stock covers the requested amount of one entry. */
  predicate Sufficient(stock: map<string, int>, entry: (string, int)) {
    Available(stock, entry.0) >= entry.1
  }

  /** The position of the first entry the stock does not cover, if any. */
  function FirstShortage(stock: map<string, int>, products: Products): (r: Option<nat>)
    ensures r.Some? ==>
      r.value < |products| && !Sufficient(stock, products[r.value]) &&
      forall j :: 0 <= j < r.value ==> Sufficient(stock, products[j])
    ensures r.None? ==> forall j :: 0 <= j < |products| ==> Sufficient(stock, products[j])
    decreases |products|
  {
    if products == [] then None
    else if !Sufficient(stock, products[0]) then Some(0)
    else
      match FirstShortage(stock, products[1..])
      case None => None
      case Some(i) => Some(i + 1)
  }

  /** The first shortage depends only on the quantities of the articles named
      in the products. */
  lemma FirstShortageAgrees(stock1: map<string, int>, stock2: map<string, int>, products: Products)
    requires forall j :: 0 <= j < |products| ==>
      Available(stock1, products[j].0) == Available(stock2, products[j].0)
    ensures FirstShortage(stock1, products) == FirstShortage(stock2, products)
  {
  }

  /** Store is all or nothing: with every amount positive it applies one
      arrival per entry in input order; with any amount zero or negative it
      fails and no event survives. */
  lemma {:induction false} StoreAllSpec(warehouseId: string, products: Products)
    ensures StoreAll(warehouseId, products) ==
      if forall i :: 0 <= i < |products| ==> products[i].1 > 0
      then Success(ArrivedEvents(warehouseId, products))
      else Failure(IllegalArgument(NonPositiveArrivalMessage))
    decreases |products|
  {
    if products != [] {
      var tail := products[1..];
      StoreAllSpec(warehouseId, tail);
      if products[0].1 > 0 {
        assert (forall i :: 0 <= i < |products| ==> products[i].1 > 0) <==>
               (forall i :: 0 <= i < |tail| ==> tail[i].1 > 0) by {
          forall i | 0 <= i < |tail| ensures tail[i] == products[i + 1] { }
        }
        assert ArrivedEvents(warehouseId, products) ==
               [ProductArrivedInWarehouse(warehouseId, products[0].0, products[0].1)] +
               ArrivedEvents(warehouseId, tail);
      }
    }
  }

  /** For a genuine map (distinct article numbers), taking one entry never
      changes what a later entry sees, so the sequential walk is the same as
      checking every entry against the stock before the command: it fails at
      the first entry the stock does not cover, reporting that entry's
      article, requested amount and available amount (absent counting as 0),
      and otherwise takes one entry per event in input order. Requesting
      exactly what is available succeeds. */
  lemma {:induction false} TakeAllSpec(s: State, warehouseId: string, products: Products)
    requires IsMap(products)
    ensures TakeAll(s, warehouseId, products) ==
      match FirstShortage(s.stock, products)
      case None => Success(TakenEvents(warehouseId, products))
      case Some(i) =>
        Failure(OutOfStock(products[i].0, products[i].1, Available(s.stock, products[i].0)))
    decreases |products|
  {
    if products != [] {
      var article, requested := products[0].0, products[0].1;
      if Available(s.stock, article) >= requested {
        var e := ProductTaken(warehouseId, article, requested);
        var tail := products[1..];
        var s' := Apply(s, e);
        assert IsMap(tail);
        TakeAllSpec(s', warehouseId, tail);
        forall j | 0 <= j < |tail|
          ensures Available(s'.stock, tail[j].0) == Available(s.stock, tail[j].0)
        {
          assert tail[j] == products[j + 1];
        }
        FirstShortageAgrees(s'.stock, s.stock, tail);
        assert TakenEvents(warehouseId, products) == [e] + TakenEvents(warehouseId, tail);
      }
    }
  }
}
