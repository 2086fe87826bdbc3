/** Runs of a new book that show what can come about. */
module Scenarios {
  import opened Orders
  import opened FlatBook
  import opened Rings
  import opened PriceLevels
  import opened OrderBooks

  /** A client's limit order; the book does not depend on it yet. */
  method NewOrder(book: OrderBook, id: uint64, isBuy: bool, price: int64, quantity: uint32) returns (order: Order)
    requires book.Valid()
    ensures book.Valid() && fresh(order) && order.id == id && order.isBuy == isBuy && order.price == price
    ensures order.Accounted() && order.IsActive() && order.remaining == quantity
    ensures forall p :: book.Occupied(p) == old(book.Occupied(p))
    ensures book.Flat(true) == old(book.Flat(true)) && book.Flat(false) == old(book.Flat(false))
    ensures book.Rings(true) == old(book.Rings(true)) && book.Rings(false) == old(book.Rings(false))
  {
    hide OrderBook.Core, OrderBook.NoneEmpty, OrderBook.DepthsOk, OrderBook.Flat, OrderBook.Rings;
    order := new Order(id, "VELOX", isBuy, Limit, price, quantity);
    book.StillValid();
  }

  // ----- a jam -----

  /** Offers one share at 100, on a book without bids. */
  method OfferOne(book: OrderBook, id: uint64)
    requires book.Valid() && book.bidLevels == [] && book.Occupied(100) < MAX_ORDERS
    requires forall i :: i in book.orderIndex ==> i < id
    modifies book, book.priceToLevel.Values, book.Buffers()
    ensures book.Valid() && book.bidLevels == [] && book.Renewed()
    ensures book.Occupied(100) == old(book.Occupied(100)) + 1
    ensures Total(book.Flat(false)) == old(Total(book.Flat(false))) + 1
    ensures forall i :: i in book.orderIndex ==> i <= id
  {
    hide OrderBook.Valid, OrderBook.Flat, Insert, Total;
    var order := NewOrder(book, id, false, 100, 1);
    InsertTotal(false, book.Flat(false), Resting(order, 100, 1));
    var _ := book.AddOrder(order);
  }

  method OfferAll(book: OrderBook)
    requires book.Valid() && book.bidLevels == [] && book.Occupied(100) == 0 && Total(book.Flat(false)) == 0
    requires book.orderIndex == map[]
    modifies book, book.priceToLevel.Values, book.Buffers()
    ensures book.Valid() && book.bidLevels == []
    ensures book.Occupied(100) == Total(book.Flat(false)) == 128
  {
    hide OrderBook.Valid, OrderBook.Flat, Total;
    var i := 0;
    while i < 128
      invariant i <= 128 && book.Valid() && book.bidLevels == [] && book.Renewed()
      invariant book.Occupied(100) == i == Total(book.Flat(false))
      invariant forall id :: id in book.orderIndex ==> id < i
    {
      OfferOne(book, i);
      i := i + 1;
    }
  }

  /** A jam comes about without one match: 128 sales of one at a price, and a buy of more than they offer. */
  method JamArises() returns (book: OrderBook, incoming: Order)
    ensures book.Valid() && incoming !in book.known && incoming.Accounted() && incoming.IsActive()
    ensures book.Jammed(incoming)
  {
    hide OrderBook.Core, OrderBook.NoneEmpty, OrderBook.DepthsOk, OrderBook.BestOk, OrderBook.Jammed, OrderBook.Flat;
    book := new OrderBook();
    NothingTotal();
    OfferAll(book);
    incoming := NewOrder(book, 128, true, 100, 129);
    book.OnlySide(false, 100);
    book.FullLevelJams(incoming, 100);
  }

  lemma {:induction false} NothingTotal()
    ensures Total([]) == 0
  {
  }

  // ----- a best price with nobody behind it -----

  /** One share live at this price. */
  function One(order: Order, price: int64): Slot {
    Live(Resting(order, price, 1))
  }

  /** Bids for one share, on a book without offers. */
  method BidOne(book: OrderBook, id: uint64, price: int64) returns (order: Order)
    requires book.Valid() && book.Rings(false) == [] && book.Occupied(price) < 2
    requires id !in book.orderIndex
    modifies book, book.priceToLevel.Values, book.Buffers()
    ensures book.Valid() && book.Renewed() && book.Rings(false) == [] && fresh(order)
    ensures book.known == old(book.known) + {order}
    ensures book.Rings(true) == Lodged(true, old(book.Rings(true)), price, One(order, price))
    ensures book.orderIndex == old(book.orderIndex)[id := Location(price, true, order)]
    ensures order.id == id && order.remaining == 1 && order.price == price && order.IsActive()
    ensures forall p :: book.Occupied(p) <= old(book.Occupied(p)) + if p == price then 1 else 0
  {
    hide OrderBook.Valid, OrderBook.Flat, Insert, Lodged;
    order := NewOrder(book, id, true, price, 1);
    var _ := book.AddOrder(order);
  }

  method TwoBids(book: OrderBook) returns (a: Order, b: Order)
    requires book.Valid() && book.Rings(true) == [] && book.Rings(false) == [] && book.orderIndex == map[]
    requires forall p :: book.Occupied(p) == 0
    modifies book, book.priceToLevel.Values, book.Buffers()
    ensures book.Valid() && book.Renewed() && book.Rings(false) == [] && book.known == old(book.known) + {a, b}
    ensures book.Rings(true) == [Ring(100, [One(a, 100), One(b, 100)])] && fresh(a) && fresh(b)
    ensures a != b && a.remaining == 1 && b.remaining == 1
    ensures book.orderIndex == map[1 := Location(100, true, a), 2 := Location(100, true, b)]
    ensures book.Occupied(99) == 0
  {
    hide OrderBook.Valid, OrderBook.Flat, Lodged, OrderBook.Rings, OrderBook.Occupied;
    a := BidOne(book, 1, 100);
    b := BidOne(book, 2, 100);
    TwoLodged(One(a, 100), One(b, 100));
  }

  lemma {:induction false} TwoLodged(a: Slot, b: Slot)
    ensures Lodged(true, Lodged(true, [], 100, a), 100, b) == [Ring(100, [a, b])]
  {
    assert Lodged(true, [], 100, a) == [Ring(100, [a])];
    assert [a] + [b] == [a, b] && [Ring(100, [a])][1..] == [];
  }

  /** Two bids at 100 and one at 99. */
  method ThreeBids(book: OrderBook) returns (a: Order, b: Order, c: Order)
    requires book.Valid() && book.Rings(true) == [] && book.Rings(false) == [] && book.orderIndex == map[]
    requires forall p :: book.Occupied(p) == 0
    modifies book, book.priceToLevel.Values, book.Buffers()
    ensures book.Valid() && book.Renewed() && book.Rings(false) == [] && book.known == old(book.known) + {a, b, c}
    ensures book.Rings(true) == [Ring(100, [One(a, 100), One(b, 100)]), Ring(99, [One(c, 99)])]
    ensures fresh(a) && fresh(b) && fresh(c)
    ensures a != b && 2 in book.orderIndex && book.orderIndex[2] == Location(100, true, b) && b.remaining == 1
    ensures 4 !in book.orderIndex
  {
    hide OrderBook.Valid, OrderBook.Flat, Lodged, OrderBook.Rings, OrderBook.Occupied;
    a, b := TwoBids(book);
    c := BidOne(book, 3, 99);
    assert Lodged(true, [Ring(100, [One(a, 100), One(b, 100)])], 99, One(c, 99))
        == [Ring(100, [One(a, 100), One(b, 100)]), Ring(99, [One(c, 99)])] by {
      ThirdLodged(One(a, 100), One(b, 100), One(c, 99));
    }
  }

  lemma {:induction false} ThirdLodged(a: Slot, b: Slot, c: Slot)
    ensures Lodged(true, [Ring(100, [a, b])], 99, c) == [Ring(100, [a, b]), Ring(99, [c])]
  {
    assert [Ring(100, [a, b])][1..] == [];
  }

  /** Of the two at 100 the second is cancelled, and its slot stays. */
  lemma {:induction false} CancelLeaves(a: Order, b: Order, c: Order)
    requires a != b
    ensures Pruned([Ring(100, [One(a, 100), One(b, 100)]), Ring(99, [One(c, 99)])], 100, b)
            == [Ring(100, [One(a, 100), Dead]), Ring(99, [One(c, 99)])]
  {
    assert Struck([One(a, 100), One(b, 100)], b) == [One(a, 100), Dead];
  }

  /** A sale of one takes the first, and the dead slot behind it stays. */
  lemma {:induction false} SaleLeaves(a: Order, c: Order)
    ensures Swept(false, 100, [Ring(100, [One(a, 100), Dead]), Ring(99, [One(c, 99)])], 1)
            == [Ring(100, [Dead]), Ring(99, [One(c, 99)])]
  {
    assert [One(a, 100), Dead][1..] == [Dead];
    assert Consumed([One(a, 100), Dead], 1) == Consumed([Dead], 0) == [Dead];
  }

  lemma {:induction false} LivingBefore(a: Order, c: Order)
    ensures Flatten(Views([Ring(100, [One(a, 100), Dead]), Ring(99, [One(c, 99)])]))
            == [Resting(a, 100, 1), Resting(c, 99, 1)]
    ensures Greedy(false, 100, [Resting(a, 100, 1), Resting(c, 99, 1)], 1).remaining == 0
  {
    LivingTwo(a, c, [One(a, 100), Dead]);
    assert [One(a, 100), Dead][1..] == [Dead] && [Dead][1..] == [];
    assert LiveOf([One(a, 100), Dead]) == [Resting(a, 100, 1)];
  }

  lemma {:induction false} LivingAfter(c: Order)
    ensures Flatten(Views([Ring(100, [Dead]), Ring(99, [One(c, 99)])])) == [Resting(c, 99, 1)]
  {
    LivingTwo(c, c, [Dead]);
    assert [Dead][1..] == [];
  }

  lemma {:induction false} LivingTwo(a: Order, c: Order, slots: seq<Slot>)
    ensures Flatten(Views([Ring(100, slots), Ring(99, [One(c, 99)])])) == LiveOf(slots) + [Resting(c, 99, 1)]
  {
    var v := Views([Ring(100, slots), Ring(99, [One(c, 99)])]);
    assert [One(c, 99)][1..] == [] && LiveOf([One(c, 99)]) == [Resting(c, 99, 1)];
    assert v == [LevelView(100, LiveOf(slots)), LevelView(99, [Resting(c, 99, 1)])];
    assert v[1..] == [LevelView(99, [Resting(c, 99, 1)])] && v[1..][1..] == [];
    assert Flatten(v[1..]) == [Resting(c, 99, 1)] + [];
  }

  /**
   The quoted best bid with nobody behind it: of two bids at 100 the second is cancelled and the first sold to,
   and what is left there is a cancelled slot; the best live bid is at 99.
   */
  method DrainedFront() returns (book: OrderBook)
    ensures book.Valid() && book.bestBid == 100
    ensures book.Flat(true) != [] && book.Flat(true)[0].price == 99
  {
    hide OrderBook.Core, OrderBook.NoneEmpty, OrderBook.DepthsOk, OrderBook.BestOk, OrderBook.Flat, Flatten, Views;
    hide Pruned;
    book := new OrderBook();
    var a, b, c := ThreeBids(book);
    CancelLeaves(a, b, c);
    CancelOne(book, 2, b, [Ring(100, [One(a, 100), Dead]), Ring(99, [One(c, 99)])]);
    SellOne(book, a, c);
    book.RingsTell(true);
    LivingAfter(c);
  }

  method CancelOne(book: OrderBook, id: uint64, ghost order: Order, ghost left: seq<Ring>)
    requires book.Valid() && book.Rings(false) == [] && Pruned(book.Rings(true), 100, order) == left
    requires id in book.orderIndex && book.orderIndex[id] == Location(100, true, order) && order.remaining == 1
    modifies book, book.priceToLevel.Values, book.Buffers(), book.known`status
    ensures book.Valid() && book.Renewed() && book.Rings(false) == [] && book.known == old(book.known)
    ensures book.Rings(true) == left && book.orderIndex == old(book.orderIndex) - {id}
  {
    hide OrderBook.Core, OrderBook.NoneEmpty, OrderBook.DepthsOk, OrderBook.BestOk, OrderBook.Flat, OrderBook.Rings;
    hide Pruned;
    NothingPruned(order);
    book.EntryFiled(id);
    var _ := book.CancelOrder(id);
  }

  lemma {:induction false} NothingPruned(o: Order)
    ensures Pruned([], 100, o) == []
  {
  }

  method SellOne(book: OrderBook, ghost a: Order, ghost c: Order)
    requires book.Valid() && book.Rings(false) == []
    requires book.Rings(true) == [Ring(100, [One(a, 100), Dead]), Ring(99, [One(c, 99)])]
    modifies book, book.priceToLevel.Values, book.Buffers(), book.known`remaining, book.known`filled
    ensures book.Valid() && book.Rings(true) == [Ring(100, [Dead]), Ring(99, [One(c, 99)])]
  {
    hide OrderBook.Core, OrderBook.NoneEmpty, OrderBook.DepthsOk, OrderBook.BestOk, OrderBook.Flat;
    hide OrderBook.Rings, Swept, OrderBook.Plan, Greedy, Flatten, Views;
    var sale := NewOrder(book, 4, false, 100, 1);
    book.RingsTell(true);
    LivingBefore(a, c);
    FewSlots(book, a, c);
    book.PlanIs(sale);
    SaleLeaves(a, c);
    book.SweptIs(sale);
    var _, _, _ := book.Match(sale, []);
  }

  lemma {:induction false} FewSlots(book: OrderBook, a: Order, c: Order)
    requires book.Valid() && book.Rings(false) == []
    requires book.Rings(true) == [Ring(100, [One(a, 100), Dead]), Ring(99, [One(c, 99)])]
    ensures !Jams(false, 100, 1, book.Levels(true))
  {
    hide OrderBook.Core, OrderBook.NoneEmpty, OrderBook.DepthsOk, OrderBook.BestOk, OrderBook.Rings;
    forall isBid, i | 0 <= i < |book.Rings(isBid)| ensures !Crammed(book.Rings(isBid)[i].slots) {
    }
    book.RoomInRings();
    book.RoomEverywhere(false, 100, 1);
  }

  // ----- cancelling all there is -----

  /** The first of two, with a cancelled slot behind it: both slots go, and the ring with them. */
  lemma {:induction false} LastCancelLeaves(a: Order)
    ensures Pruned([Ring(100, [One(a, 100), Dead])], 100, a) == []
  {
    var struck := Struck([One(a, 100), Dead], a);
    assert struck == [Dead, Dead] && struck[1..] == [Dead] && struck[1..][1..] == [];
    assert Cleared(struck) == Cleared(struck[1..]) == [];
  }

  lemma {:induction false} SecondCancelLeaves(a: Order, b: Order)
    requires a != b
    ensures Pruned([Ring(100, [One(a, 100), One(b, 100)])], 100, b) == [Ring(100, [One(a, 100), Dead])]
  {
    assert Struck([One(a, 100), One(b, 100)], b) == [One(a, 100), Dead];
  }

  /** Two bids at 100, the second cancelled and then the first: the level is gone and the best bid is none. */
  method CancelBoth() returns (book: OrderBook)
    ensures book.Valid() && book.bidLevels == [] && book.bestBid == 0 && book.Flat(true) == []
  {
    hide OrderBook.Core, OrderBook.NoneEmpty, OrderBook.DepthsOk, OrderBook.BestOk, OrderBook.Flat, Pruned;
    book := new OrderBook();
    var a, b := TwoBids(book);
    SecondCancelLeaves(a, b);
    CancelOne(book, 2, b, [Ring(100, [One(a, 100), Dead])]);
    LastCancelLeaves(a);
    CancelOne(book, 1, a, []);
    book.NoRings(true);
  }
}
