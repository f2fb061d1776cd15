/** The event-sourcing handlers: how one event changes the aggregate, and
    how a whole history is replayed from a given state. */
module Fold {
  import opened Domain

  /** Folds one event into the state, as the matching `on(...)` handler does.
      Opening sets the identifier and a fresh, empty stock; closing marks the
      aggregate deleted; an arrival adds to and a take subtracts from the one
      article's quantity (absent counting as 0), leaving every other article
      as it was. */
  function Apply(s: State, e: Event): (r: State)
    ensures e.WarehouseOpened? ==>
      r.warehouseId == Some(e.warehouseId) && r.deleted == s.deleted && r.stock == map[]
    ensures e.WarehouseClosed? ==>
      r.deleted && r.warehouseId == s.warehouseId && r.stock == s.stock
    ensures e.ProductArrivedInWarehouse? || e.ProductTaken? ==>
      r.warehouseId == s.warehouseId && r.deleted == s.deleted &&
      r.stock.Keys == s.stock.Keys + {e.articleNumber} &&
      forall a :: Available(r.stock, a) ==
        Available(s.stock, a) + (if a != e.articleNumber then 0
                                 else if e.ProductTaken? then -e.amount
                                 else e.amount)
  {
    match e
    case WarehouseOpened(id) =>
      s.(warehouseId := Some(id), stock := map[])
    case WarehouseClosed(_) =>
      s.(deleted := true)
    case ProductArrivedInWarehouse(_, article, amount) =>
      s.(stock := s.stock[article := Available(s.stock, article) + amount])
    case ProductTaken(_, article, amount) =>
      s.(stock := s.stock[article := Available(s.stock, article) - amount])
  }

  /** Replays a history, oldest event first. */
  function Replay(s: State, events: seq<Event>): State
    decreases |events|
  {
    if events == [] then s else Replay(Apply(s, events[0]), events[1..])
  }

  /** Replaying two histories one after the other is replaying their
      concatenation, so decisions can be folded in as they are made. */
  lemma {:induction false} ReplayConcat(s: State, first: seq<Event>, second: seq<Event>)
    ensures Replay(s, first + second) == Replay(Replay(s, first), second)
    decreases |first|
  {
    if first == [] {
      assert first + second == second;
    } else {
      assert (first + second)[1..] == first[1..] + second;
      ReplayConcat(Apply(s, first[0]), first[1..], second);
    }
  }

  /** Applying one more event to a replayed history. */
  lemma ReplaySnoc(s: State, events: seq<Event>, e: Event)
    ensures Replay(s, events + [e]) == Apply(Replay(s, events), e)
  {
    ReplayConcat(s, events, [e]);
  }

  /** Replaying a history of one or two events. */
  lemma ReplayShort(s: State, e1: Event, e2: Event)
    ensures Replay(s, [e1]) == Apply(s, e1)
    ensures Replay(s, [e1, e2]) == Apply(Apply(s, e1), e2)
  {
    assert [e1][1..] == [];
    assert [e1, e2][1..] == [e2];
    assert Replay(Apply(s, e1), [e2]) == Apply(Apply(s, e1), e2) by {
      assert [e2][1..] == [];
    }
  }

  /** No event clears the deleted mark: once a `WarehouseClosed` has been
      folded, every later replay stays deleted. */
  lemma {:induction false} ReplayKeepsDeleted(s: State, events: seq<Event>)
    requires s.deleted
    ensures Replay(s, events).deleted
    decreases |events|
  {
    if events != [] {
      ReplayKeepsDeleted(Apply(s, events[0]), events[1..]);
    }
  }

  /** A history containing `WarehouseClosed` replays to a deleted aggregate,
      whatever follows it. */
  lemma {:induction false} ClosedHistoryIsDeleted(s: State, events: seq<Event>, k: nat)
    requires k < |events| && events[k].WarehouseClosed?
    ensures Replay(s, events).deleted
  {
    ReplayConcat(s, events[..k], events[k..]);
    assert events[..k] + events[k..] == events;
    var before := Replay(s, events[..k]);
    assert Replay(before, events[k..]) == Replay(Apply(before, events[k]), events[k + 1..]) by {
      assert events[k..][1..] == events[k + 1..];
    }
    ReplayKeepsDeleted(Apply(before, events[k]), events[k + 1..]);
  }
}
