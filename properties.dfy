/** What the command handlers promise, stated over the decision and the fold:
    the per-command rules, the ledger invariant that stock never goes
    negative, the terminal closed state, and that the state the aggregate
    holds is always the replay of the events it stored. */
module Properties {
  import opened Domain
  import opened Fold
  import opened Decision

  /** The states the handlers can reach: stock never negative, nothing in
      stock before the warehouse is opened, and a closed warehouse empty. */
  ghost predicate Consistent(s: State) {
    NonNegative(s.stock) &&
    (s.warehouseId.None? ==> s.stock == map[] && !s.deleted) &&
    (s.deleted ==> AllZero(s.stock))
  }

  /** The total amount the products name for one article. */
  function AmountOf(products: Products, article: string): int
    decreases |products|
  {
    if products == [] then 0
    else (if products[0].0 == article then products[0].1 else 0) + AmountOf(products[1..], article)
  }

  /** `stock.values.all { it == 0 }` holds exactly when no article has
      anything on hand, absent articles counting as 0. */
  lemma AllZeroIffNothingOnHand(stock: map<string, int>)
    ensures AllZero(stock) <==> forall a :: Available(stock, a) == 0
  {
    if !AllZero(stock) {
      var a :| a in stock && stock[a] != 0;
      assert Available(stock, a) != 0;
    }
  }

  // ---- Open ----

  /** Create-if-missing: a missing warehouse is opened with exactly one
      `WarehouseOpened` carrying the command's identifier, and folding it
      gives that identifier and an empty stock. */
  lemma OpenIfMissing(s: State, id: string)
    requires !s.deleted && s.warehouseId.None?
    ensures Decide(s, OpenWarehouse(id)) == Success([WarehouseOpened(id)])
    ensures Replay(s, [WarehouseOpened(id)]) == State(Some(id), false, map[])
  {
  }

  /** Opening is idempotent: on any aggregate that already exists, whatever
      stock it holds, `OpenWarehouse` (with any identifier) succeeds without
      emitting anything. */
  lemma OpenIsIdempotent(s: State, again: string)
    requires !s.deleted && s.warehouseId.Some?
    ensures Decide(s, OpenWarehouse(again)) == Success([])
  {
  }

  /** In particular, opening twice emits events only the first time. */
  lemma OpenTwice(s: State, id: string, again: string)
    requires !s.deleted && s.warehouseId.None?
    ensures Decide(s, OpenWarehouse(id)) == Success([WarehouseOpened(id)])
    ensures Decide(Replay(s, [WarehouseOpened(id)]), OpenWarehouse(again)) == Success([])
  {
    OpenIfMissing(s, id);
    OpenIsIdempotent(Replay(s, [WarehouseOpened(id)]), again);
  }

  // ---- Close ----

  /** An open warehouse closes, with exactly `[WarehouseClosed(id)]`, if and
      only if nothing is on hand; otherwise the command fails with the
      "must be completely empty" `IllegalArgumentException` and emits nothing. */
  lemma CloseSpec(s: State, id: string)
    requires !s.deleted && s.warehouseId.Some?
    ensures Decide(s, CloseWarehouse(id)).Success? <==> forall a :: Available(s.stock, a) == 0
    ensures Decide(s, CloseWarehouse(id)) ==
      if AllZero(s.stock) then Success([WarehouseClosed(id)])
      else Failure(IllegalArgument(NotEmptyMessage))
  {
    AllZeroIffNothingOnHand(s.stock);
  }

  /** Folding `WarehouseClosed` makes the aggregate terminal: every later
      command, whatever it is, is refused as addressed to a deleted aggregate,
      emits nothing and ships nothing, however many events follow. */
  lemma ClosedIsTerminal(s: State, history: seq<Event>, k: nat, command: Command)
    requires k < |history| && history[k].WarehouseClosed?
    ensures Decide(Replay(s, history), command) == Failure(AggregateDeleted)
    ensures Shipping(Replay(s, history), command) == []
  {
    ClosedHistoryIsDeleted(s, history, k);
  }

  // ---- Store ----

  /** On an open warehouse, store emits one `ProductArrivedInWarehouse` per
      entry, carrying the command's identifier, in input order, when every
      amount is positive; if any amount is zero or negative the command fails
      and no event survives. */
  lemma StoreSpec(s: State, id: string, products: Products)
    requires !s.deleted && s.warehouseId.Some?
    ensures Decide(s, StoreProductsInWarehouse(id, products)) ==
      if forall i :: 0 <= i < |products| ==> products[i].1 > 0
      then Success(ArrivedEvents(id, products))
      else Failure(IllegalArgument(NonPositiveArrivalMessage))
  {
    StoreAllSpec(id, products);
  }

  /** Folding the arrivals adds each article's stored amount to what was on
      hand and leaves every other article as it was. */
  lemma {:induction false} ReplayArrived(s: State, id: string, products: Products, article: string)
    ensures Available(Replay(s, ArrivedEvents(id, products)).stock, article) ==
      Available(s.stock, article) + AmountOf(products, article)
    ensures Replay(s, ArrivedEvents(id, products)).warehouseId == s.warehouseId
    ensures Replay(s, ArrivedEvents(id, products)).deleted == s.deleted
    decreases |products|
  {
    var events := ArrivedEvents(id, products);
    if products != [] {
      assert events[1..] == ArrivedEvents(id, products[1..]);
      ReplayArrived(Apply(s, events[0]), id, products[1..], article);
    }
  }

  // ---- Take and ship ----

  /** On an open warehouse, take walks the entries in input order and fails
      at the first whose requested amount exceeds what is on hand (absent
      counting as 0) with `OutOfStock(article, requested, available)` and no
      events; requesting exactly what is on hand is allowed; on success it
      emits one `ProductTaken` per entry, carrying the aggregate's identifier,
      in input order. */
  lemma TakeSpec(s: State, id: string, products: Products)
    requires !s.deleted && s.warehouseId.Some? && IsMap(products)
    ensures Decide(s, TakeProducts(id, products)) ==
      match FirstShortage(s.stock, products)
      case None => Success(TakenEvents(s.warehouseId.value, products))
      case Some(i) =>
        Failure(OutOfStock(products[i].0, products[i].1, Available(s.stock, products[i].0)))
  {
    TakeAllSpec(s, s.warehouseId.value, products);
  }

  /** Folding the takes subtracts each article's taken amount from what was
      on hand and leaves every other article as it was. */
  lemma {:induction false} ReplayTaken(s: State, id: string, products: Products, article: string)
    ensures Available(Replay(s, TakenEvents(id, products)).stock, article) ==
      Available(s.stock, article) - AmountOf(products, article)
    ensures Replay(s, TakenEvents(id, products)).warehouseId == s.warehouseId
    ensures Replay(s, TakenEvents(id, products)).deleted == s.deleted
    decreases |products|
  {
    var events := TakenEvents(id, products);
    if products != [] {
      assert events[1..] == TakenEvents(id, products[1..]);
      ReplayTaken(Apply(s, events[0]), id, products[1..], article);
    }
  }

  /** Ship decides exactly as take on the same products, and calls the
      shipping service once, with the command's address and products, only
      when that take succeeded; on `OutOfStock` the service is never called.
      Take never calls it. */
  lemma ShipIsTakeThenShipping(s: State, id: string, products: Products, address: DeliveryAddress)
    ensures Decide(s, ShipProducts(id, products, address)) == Decide(s, TakeProducts(id, products))
    ensures Shipping(s, ShipProducts(id, products, address)) ==
      if Decide(s, TakeProducts(id, products)).Success? then [Shipment(address, products)] else []
    ensures Shipping(s, TakeProducts(id, products)) == []
  {
  }

  /** Take does not check the sign of the requested amount: a negative
      amount always passes the stock check, and folding the event it emits
      raises the quantity on hand. */
  lemma NegativeTakeAddsStock(s: State, id: string, article: string, amount: int)
    requires !s.deleted && s.warehouseId.Some? && NonNegative(s.stock) && amount < 0
    ensures Decide(s, TakeProducts(id, [(article, amount)])) ==
      Success([ProductTaken(s.warehouseId.value, article, amount)])
    ensures Available(Replay(s, [ProductTaken(s.warehouseId.value, article, amount)]).stock, article) ==
      Available(s.stock, article) - amount
  {
    var products: Products := [(article, amount)];
    assert products[1..] == [];
    assert Available(s.stock, article) >= 0;
    var e := ProductTaken(s.warehouseId.value, article, amount);
    assert TakeAll(Apply(s, e), s.warehouseId.value, products[1..]) == Success([]);
    assert [e] + [] == [e];
    ReplayShort(s, e, e);
  }

  // ---- The ledger invariant ----

  lemma {:induction false} StoreKeepsConsistent(s: State, id: string, products: Products, events: seq<Event>)
    requires Consistent(s) && !s.deleted && s.warehouseId.Some?
    requires StoreAll(id, products) == Success(events)
    ensures Consistent(Replay(s, events))
    ensures Replay(s, events).warehouseId == s.warehouseId && !Replay(s, events).deleted
    decreases |products|
  {
    if products != [] {
      var rest := StoreAll(id, products[1..]).value;
      var e := ProductArrivedInWarehouse(id, products[0].0, products[0].1);
      assert events == [e] + rest;
      assert events[1..] == rest;
      StoreKeepsConsistent(Apply(s, e), id, products[1..], rest);
    }
  }

  lemma {:induction false} TakeKeepsConsistent(s: State, id: string, products: Products, events: seq<Event>)
    requires Consistent(s) && !s.deleted && s.warehouseId.Some?
    requires TakeAll(s, id, products) == Success(events)
    ensures Consistent(Replay(s, events))
    ensures Replay(s, events).warehouseId == s.warehouseId && !Replay(s, events).deleted
    decreases |products|
  {
    if products != [] {
      var e := ProductTaken(id, products[0].0, products[0].1);
      var rest := TakeAll(Apply(s, e), id, products[1..]).value;
      assert events == [e] + rest;
      assert events[1..] == rest;
      TakeKeepsConsistent(Apply(s, e), id, products[1..], rest);
    }
  }

  /** Every decision keeps the aggregate consistent: in particular stock
      never goes negative, because take only emits when the requested amount
      is on hand and store only adds positive amounts; and a warehouse can
      only become deleted while empty. */
  lemma DecideKeepsConsistent(s: State, command: Command, events: seq<Event>)
    requires Consistent(s)
    requires Decide(s, command) == Success(events)
    ensures Consistent(Replay(s, events))
  {
    if command.OpenWarehouse? {
      assert events == [] || events == [WarehouseOpened(command.warehouseId)];
    } else {
      match command
      case CloseWarehouse(id) =>
        assert events == [WarehouseClosed(id)];
      case StoreProductsInWarehouse(id, products) =>
        StoreKeepsConsistent(s, id, products, events);
      case TakeProducts(_, products) =>
        TakeKeepsConsistent(s, s.warehouseId.value, products, events);
      case ShipProducts(_, products, _) =>
        TakeKeepsConsistent(s, s.warehouseId.value, products, events);
    }
  }

  // ---- Runs of commands ----

  /** The runtime's loop: decide each command against the current state,
      append the events of a success to the stream and fold them in; a
      failure stores nothing. Returns the final state and the stream. */
  function Execute(s: State, commands: seq<Command>): (State, seq<Event>)
    decreases |commands|
  {
    if commands == [] then (s, [])
    else
      var events := match Decide(s, commands[0]) case Success(evs) => evs case Failure(_) => [];
      var next := Execute(Replay(s, events), commands[1..]);
      (next.0, events + next.1)
  }

  /** Fold/decide consistency: the state the aggregate holds after any run
      of commands is the replay of the events the run stored. */
  lemma {:induction false} ExecuteIsReplay(s: State, commands: seq<Command>)
    ensures Execute(s, commands).0 == Replay(s, Execute(s, commands).1)
    decreases |commands|
  {
    if commands != [] {
      var events := match Decide(s, commands[0]) case Success(evs) => evs case Failure(_) => [];
      ExecuteIsReplay(Replay(s, events), commands[1..]);
      ReplayConcat(s, events, Execute(Replay(s, events), commands[1..]).1);
    }
  }

  /** Any run of commands from a fresh aggregate keeps it consistent, so
      replaying the stored stream never shows a negative quantity. */
  lemma {:induction false} ExecuteKeepsConsistent(s: State, commands: seq<Command>)
    requires Consistent(s)
    ensures Consistent(Execute(s, commands).0)
    decreases |commands|
  {
    if commands != [] {
      var events := match Decide(s, commands[0]) case Success(evs) => evs case Failure(_) => [];
      if Decide(s, commands[0]).Success? {
        DecideKeepsConsistent(s, commands[0], events);
      }
      ExecuteKeepsConsistent(Replay(s, events), commands[1..]);
    }
  }

  /** Stock never goes negative in any history the handlers produce. */
  lemma StockNeverNegative(commands: seq<Command>, article: string)
    ensures Available(Replay(Initial, Execute(Initial, commands).1).stock, article) >= 0
  {
    ExecuteKeepsConsistent(Initial, commands);
    ExecuteIsReplay(Initial, commands);
  }
}
