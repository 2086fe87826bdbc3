/**
 The matching engine around one book: risk verdicts, market orders, positions and statistics
 (matching_engine.hpp, matching_engine.cpp).
 */
module Engine {
  import opened Orders
  import opened FlatBook
  import opened FlatRuns
  import opened Rings
  import opened PriceLevels
  import opened OrderBooks
  import opened Positions
  import opened Concessions

  // ----- sums over orders and over fills -----

  /** The orders of one side, or those of one side and one trimmed symbol. */
  datatype Pick = Side(isBuy: bool) | SideOf(isBuy: bool, symbol: string)

  predicate Picked(p: Pick, o: Order) {
    o.isBuy == p.isBuy && (p.SideOf? ==> Trim(o.symbol) == p.symbol)
  }

  /** The picked part of a list of amounts, one for each order. */
  function SumOn(orders: seq<Order>, amounts: seq<nat>, p: Pick): nat
    requires |amounts| == |orders|
  {
    if orders == [] then 0
    else
      var n := |orders| - 1;
      SumOn(orders[..n], amounts[..n], p) + if Picked(p, orders[n]) then amounts[n] else 0
  }

  ghost function Amounts(orders: seq<Order>): (amounts: seq<nat>)
    reads orders
    ensures |amounts| == |orders| && forall i :: 0 <= i < |orders| ==> amounts[i] == orders[i].filled
  {
    seq(|orders|, i requires 0 <= i < |orders| reads orders => orders[i].filled)
  }

  twostate lemma AmountsKept(orders: seq<Order>)
    requires forall o :: o in orders ==> o.filled == old(o.filled)
    ensures Amounts(orders) == old(Amounts(orders))
  {
  }

  ghost function FilledOn(orders: seq<Order>, p: Pick): nat
    reads orders
  {
    SumOn(orders, Amounts(orders), p)
  }

  function TradedOn(fills: seq<Fill>, p: Pick): nat {
    if fills == [] then 0
    else (if Picked(p, fills[0].order) then fills[0].quantity else 0) + TradedOn(fills[1..], p)
  }

  function TakenOn(fills: seq<Fill>, orders: seq<Order>, p: Pick): nat {
    if orders == [] then 0
    else
      var o := orders[|orders| - 1];
      TakenOn(fills, orders[..|orders| - 1], p) + if Picked(p, o) then TakenFrom(fills, o) else 0
  }

  lemma {:induction false} TradedOnAppend(fills: seq<Fill>, f: Fill, p: Pick)
    ensures TradedOn(fills + [f], p) == TradedOn(fills, p) + if Picked(p, f.order) then f.quantity else 0
  {
    if fills == [] {
      assert (fills + [f])[1..] == [];
    } else {
      assert (fills + [f])[1..] == fills[1..] + [f];
      TradedOnAppend(fills[1..], f, p);
    }
  }

  lemma {:induction false} TradedOnSide(fills: seq<Fill>, isBuy: bool)
    requires forall i :: 0 <= i < |fills| ==> fills[i].order.isBuy == isBuy
    ensures TradedOn(fills, Side(isBuy)) == Traded(fills) && TradedOn(fills, Side(!isBuy)) == 0
  {
    if fills != [] {
      TradedOnSide(fills[1..], isBuy);
    }
  }

  lemma {:induction false} TakenOnNothing(orders: seq<Order>, p: Pick)
    ensures TakenOn([], orders, p) == 0
  {
    if orders != [] {
      TakenOnNothing(orders[..|orders| - 1], p);
    }
  }

  lemma {:induction false} TakenOnFirst(f: Fill, rest: seq<Fill>, orders: seq<Order>, p: Pick)
    requires Distinct(orders)
    ensures TakenOn([f] + rest, orders, p)
            == TakenOn(rest, orders, p) + if f.order in orders && Picked(p, f.order) then f.quantity else 0
  {
    if orders != [] {
      var o := orders[|orders| - 1];
      TakenOnFirst(f, rest, orders[..|orders| - 1], p);
      assert ([f] + rest)[1..] == rest;
      assert orders == orders[..|orders| - 1] + [o];
    }
  }

  /** What the fills take from distinct orders, order by order, is what they trade. */
  lemma {:induction false} TakenOnIs(fills: seq<Fill>, orders: seq<Order>, p: Pick)
    requires Distinct(orders) && forall i :: 0 <= i < |fills| ==> fills[i].order in orders
    ensures TakenOn(fills, orders, p) == TradedOn(fills, p)
  {
    if fills == [] {
      TakenOnNothing(orders, p);
    } else {
      TakenOnFirst(fills[0], fills[1..], orders, p);
      assert fills == [fills[0]] + fills[1..];
      TakenOnIs(fills[1..], orders, p);
    }
  }

  lemma {:induction false} PaidOn(orders: seq<Order>, was: seq<nat>, now: seq<nat>, fills: seq<Fill>, p: Pick)
    requires |was| == |now| == |orders|
    requires forall i :: 0 <= i < |orders| ==> now[i] == was[i] + TakenFrom(fills, orders[i])
    ensures SumOn(orders, now, p) == SumOn(orders, was, p) + TakenOn(fills, orders, p)
  {
    if orders != [] {
      var n := |orders| - 1;
      PaidOn(orders[..n], was[..n], now[..n], fills, p);
    }
  }

  lemma {:induction false} SumOnNew(orders: seq<Order>, was: seq<nat>, o: Order, p: Pick)
    requires |was| == |orders|
    ensures SumOn(orders + [o], was + [0], p) == SumOn(orders, was, p)
  {
  }

  /** After a match the sums over all orders have moved by its fills and by what the taker got. */
  lemma {:induction false} SumsAfter(
      orders: seq<Order>, was: seq<nat>, now: seq<nat>, fills: seq<Fill>, taker: Fill, p: Pick)
    requires |was| == |orders| && |now| == |orders| + 1
    requires Distinct(orders + [taker.order])
    requires forall f :: f in fills ==> f.order in orders
    requires forall i :: 0 <= i < |orders| ==> now[i] == was[i] + TakenFrom(fills, orders[i])
    requires now[|orders|] == taker.quantity
    ensures SumOn(orders + [taker.order], now, p) == SumOn(orders, was, p) + TradedOn(fills + [taker], p)
  {
    var all, every := orders + [taker.order], fills + [taker];
    AppendFill(fills, taker);
    assert all[|orders|] == taker.order;
    forall i | 0 <= i < |orders| ensures taker.order != orders[i] {
      assert all[i] == orders[i];
    }
    NotTaken(fills, taker.order);
    PaidOn(all, was + [0], now, every, p);
    SumOnNew(orders, was, taker.order, p);
    TakenOnIs(every, all, p);
  }

  lemma {:induction false} NotTaken(fills: seq<Fill>, o: Order)
    requires forall f :: f in fills ==> f.order != o
    ensures TakenFrom(fills, o) == 0
  {
    if fills != [] {
      assert fills[0] in fills;
      NotTaken(fills[1..], o);
    }
  }

  /** A position that nets b bought and d sold, its counters wrapped at 32 bits. */
  predicate Tallied(p: Position, b: int, d: int) {
    p.net == b - d && p.bought == Wrap32(b) && p.sold == Wrap32(d)
  }

  lemma {:induction false} Tally(p: Position, isBuy: bool, quantity: uint32, price: int64, b: int, d: int)
    requires Tallied(p, b, d)
    ensures Tallied(Update(p, isBuy, quantity, price),
                    b + (if isBuy then quantity else 0), d + (if isBuy then 0 else quantity))
  {
    WrapStep(b, quantity);
    WrapStep(d, quantity);
  }

  ghost function MakerPrices(fills: seq<Fill>): (prices: seq<int64>)
    reads set f | f in fills :: f.order
    ensures |prices| == |fills| && forall i :: 0 <= i < |fills| ==> prices[i] == fills[i].order.price
  {
    if fills == [] then [] else MakerPrices(fills[..|fills| - 1]) + [fills[|fills| - 1].order.price]
  }

  /** The books after each maker's deal at the maker's own price. */
  ghost function MakersBooked(deals: map<string, seq<Deal>>, fills: seq<Fill>): map<string, seq<Deal>>
    reads set f | f in fills :: f.order
  {
    DealsAt(deals, fills, MakerPrices(fills))
  }

  // ----- the flat history of an engine -----

  function Trades(ops: seq<Op>): seq<Fill> {
    if ops == [] then []
    else
      var before, op := ops[..|ops| - 1], ops[|ops| - 1];
      Trades(before) + match op
        case Submit(order, price, want) => Submitted(Run(before), order, price, want).fills
        case Cancel(_) => []
  }

  lemma {:induction false} HistoryStep(ops: seq<Op>, op: Op)
    ensures Run(ops + [op]) == Step(Run(ops), op)
    ensures op.Submit? ==> Trades(ops + [op]) == Trades(ops) + Submitted(Run(ops), op.order, op.price, op.want).fills
    ensures op.Cancel? ==> Trades(ops + [op]) == Trades(ops)
  {
  }

  lemma {:induction false} SubmittedIs(
      was: FlatState, order: Order, price: int64, want: uint32, now: FlatState, fills: seq<Fill>, remaining: uint32)
    requires Greedy(order.isBuy, price, was.Side(!order.isBuy), want)
             == Outcome(fills, now.Side(!order.isBuy), remaining)
    requires now.Side(order.isBuy) ==
             if remaining == 0 then was.Side(order.isBuy)
             else Insert(order.isBuy, was.Side(order.isBuy), Resting(order, price, remaining))
    ensures Submitted(was, order, price, want) == Effect(now, fills, remaining)
  {
  }

  class MatchingEngine {
    const book: OrderBook
    const positions: PositionManager
    var incomingOrders: seq<Order>
    var matchCount: nat
    var rejectCount: nat
    var partialCount: nat

    /** Every order that passed the risk check, and every submission and cancel the book has seen. */
    ghost var accepted: seq<Order>
    ghost var history: seq<Op>

    ghost function State(): FlatState
      reads book`bidLevels, book`askLevels, book.bidLevels, book.askLevels
    {
      FlatState(book.Flat(true), book.Flat(false))
    }

    /** Each symbol's position tallies the picked filled quantities, plus fills still being booked. */
    ghost predicate Reconciles(orders: seq<Order>, amounts: seq<nat>, fills: seq<Fill>)
      requires |amounts| == |orders|
      reads positions
    {
      forall s :: Tallied(positions.Account(s),
                          SumOn(orders, amounts, SideOf(true, s)) + TradedOn(fills, SideOf(true, s)),
                          SumOn(orders, amounts, SideOf(false, s)) + TradedOn(fills, SideOf(false, s)))
    }

    constructor (positions: PositionManager)
      requires positions.Valid() && positions.deals == map[]
      ensures Valid() && fresh(book) && this.positions == positions
      ensures matchCount == rejectCount == partialCount == 0 && history == [] && accepted == [] && incomingOrders == []
    {
      hide OrderBook.Valid, OrderBook.Flat, Conserved, Reconciles, Accepted, Logged, Run, Trades, Spent;
      book := new OrderBook();
      this.positions := positions;
      incomingOrders, matchCount, rejectCount, partialCount := [], 0, 0, 0;
      accepted, history := [], [];
      new;
      AtStart();
    }

    lemma {:induction false} AtStart()
      requires accepted == [] && history == [] && book.known == {}
      requires positions.Valid() && positions.deals == map[]
      ensures Spent(positions.deals, accepted, history)
      ensures Accepted() && Logged() && Conserved() && positions.Valid() && Reconciles(accepted, Amounts(accepted), [])
      ensures Run(history) == FlatState([], []) && Trades(history) == []
    {
      assert forall s :: positions.Of(s) == Positions.After(positions.DealsOf(s)) == FLAT;
    }

    ghost predicate Conserved()
      reads `accepted, `history, accepted
    {
      FilledOn(accepted, Side(true)) == Traded(Trades(history)) == FilledOn(accepted, Side(false))
    }

    ghost predicate Logged()
      reads `accepted, `history
    {
      OnceEach(history) && forall i :: 0 <= i < |history| && history[i].Submit? ==> history[i].order in accepted
    }

    ghost predicate Accepted()
      reads `accepted, accepted, book`known
    {
      && Distinct(accepted)
      && (forall o :: o in accepted ==> o.Accounted())
      && (forall o :: o in book.known ==> o in accepted)
    }

    ghost predicate Balanced()
      reads this, book, book.priceToLevel.Values, book.Buffers(), book.known, positions, accepted
    {
      && book.Valid() && State() == Run(history)
      && Accepted() && Logged() && Conserved()
      && positions.Valid() && Reconciles(accepted, Amounts(accepted), [])
      && matchCount == |Trades(history)|
    }

    ghost predicate OneSymbol(orders: seq<Order>, symbol: string) {
      forall o :: o in orders ==> Trim(o.symbol) == symbol
    }

    /** A symbol that all orders trade has lost exactly what the takers conceded. */
    ghost predicate Spent(deals: map<string, seq<Deal>>, orders: seq<Order>, ops: seq<Op>) {
      forall s :: OneSymbol(orders, s) ==> CashIn(deals, s) == 0 - TotalConceded(ops)
    }

    ghost predicate Valid()
      reads this, book, book.priceToLevel.Values, book.Buffers(), book.known, positions, accepted
    {
      Balanced() && Spent(positions.deals, accepted, history)
    }

    /** One symbol's position took one more fill, or none of its own. */
    lemma {:induction false} OneMoreFill(
        p: Position, q: Position, fill: Fill, price: int64,
        orders: seq<Order>, amounts: seq<nat>, fills: seq<Fill>, s: string)
      requires |amounts| == |orders|
      requires q == if fill.quantity > 0 && Trim(fill.order.symbol) == s
                    then Update(p, fill.order.isBuy, fill.quantity, price) else p
      requires Tallied(p, SumOn(orders, amounts, SideOf(true, s)) + TradedOn(fills, SideOf(true, s)),
                       SumOn(orders, amounts, SideOf(false, s)) + TradedOn(fills, SideOf(false, s)))
      ensures Tallied(q, SumOn(orders, amounts, SideOf(true, s)) + TradedOn(fills + [fill], SideOf(true, s)),
                      SumOn(orders, amounts, SideOf(false, s)) + TradedOn(fills + [fill], SideOf(false, s)))
    {
      hide SumOn, TradedOn, NewAverage, Trim, Tallied, Update;
      Tally(p, fill.order.isBuy, fill.quantity, price,
            SumOn(orders, amounts, SideOf(true, s)) + TradedOn(fills, SideOf(true, s)),
            SumOn(orders, amounts, SideOf(false, s)) + TradedOn(fills, SideOf(false, s)));
      TradedOnAppend(fills, fill, SideOf(true, s));
      TradedOnAppend(fills, fill, SideOf(false, s));
    }

    /** Books one fill's quantity on the position of its order, at a price of the caller's choosing. */
    method Record(fill: Fill, price: int64, ghost orders: seq<Order>, ghost amounts: seq<nat>, ghost fills: seq<Fill>)
      requires |amounts| == |orders|
      requires positions.Valid() && Reconciles(orders, amounts, fills)
      modifies positions
      ensures positions.Valid() && Reconciles(orders, amounts, fills + [fill])
      ensures positions.deals == Booked(old(positions.deals), fill.order, fill.quantity, price)
    {
      hide SumOn, TradedOn, NewAverage, Trim, Tallied, Update, Positions.After, PositionManager.Valid, Booked;
      positions.UpdatePosition(fill.order, fill.quantity, price);
      forall s
        ensures Tallied(positions.Account(s),
                        SumOn(orders, amounts, SideOf(true, s)) + TradedOn(fills + [fill], SideOf(true, s)),
                        SumOn(orders, amounts, SideOf(false, s)) + TradedOn(fills + [fill], SideOf(false, s)))
      {
        OneMoreFill(old(positions.Account(s)), positions.Account(s), fill, price, orders, amounts, fills, s);
      }
    }

    /** Each maker's position moves at the maker's own price. */
    method RecordMakers(fills: seq<Fill>, ghost orders: seq<Order>, ghost amounts: seq<nat>)
      requires |amounts| == |orders|
      requires positions.Valid() && Reconciles(orders, amounts, [])
      modifies positions
      ensures positions.Valid() && Reconciles(orders, amounts, fills)
      ensures positions.deals == MakersBooked(old(positions.deals), fills)
    {
      hide Booked, DealsAt, SumOn, TradedOn, Tallied, PositionManager.Valid;
      ghost var prices := MakerPrices(fills);
      var i := 0;
      NoDeals(positions.deals, fills, prices);
      while i < |fills|
        invariant 0 <= i <= |fills|
        invariant positions.Valid() && Reconciles(orders, amounts, fills[..i])
        invariant positions.deals == DealsAt(old(positions.deals), fills[..i], prices[..i])
      {
        DealsNext(old(positions.deals), fills, prices, i);
        Record(fills[i], fills[i].order.price, orders, amounts, fills[..i]);
        assert fills[..i + 1] == fills[..i] + [fills[i]];
        i := i + 1;
      }
      assert fills[..|fills|] == fills && prices[..|fills|] == prices == MakerPrices(fills);
    }

    lemma {:induction false} NoDeals(deals: map<string, seq<Deal>>, fills: seq<Fill>, prices: seq<int64>)
      requires |prices| == |fills|
      ensures DealsAt(deals, fills[..0], prices[..0]) == deals
    {
    }

    /** The price an order is matched at: market orders accept anything. */
    function EffectivePrice(order: Order): int64
      reads order
    {
      if order.orderType != Market then order.price else if order.isBuy then INT64_MAX else 0
    }

    /** The level the order may come to rest on has a slot to spare. */
    ghost predicate RoomFor(order: Order)
      reads book`bidLevels, book`askLevels, book`priceToLevel, book.priceToLevel.Values, order
    {
      var p := EffectivePrice(order);
      p in book.priceToLevel && book.priceToLevel[p] in book.Levels(order.isBuy) ==>
        !book.priceToLevel[p].Full()
    }

    /** The sweep comes to an end, and if any of the order will rest, its id is free and there is a slot. */
    ghost predicate Feasible(order: Order)
      reads book, book.bidLevels, book.askLevels, book.priceToLevel.Values, order
      reads (set id | id in book.orderIndex :: book.orderIndex[id].order)
    {
      && !Jams(order.isBuy, EffectivePrice(order), order.remaining, book.Levels(!order.isBuy))
      && (Submitted(State(), order, EffectivePrice(order), order.remaining).remaining > 0 ==>
            book.FreshId(order) && RoomFor(order))
    }

    /** What matching will come to, read off the flat lists. */
    lemma {:induction false} PlanFacts(order: Order)
      requires book.Core()
      ensures var o := book.Plan(order);
              && Submitted(State(), order, order.price, order.remaining).fills == o.fills
              && Traded(o.fills) + o.remaining == order.remaining
              && (forall f :: f in o.fills ==> f.order in book.known && f.order.isBuy != order.isBuy && f.quantity > 0)
              && Quoted(order, State().Side(!order.isBuy), o.fills)
    {
      var list, o := book.Flat(!order.isBuy), book.Plan(order);
      forall i | 0 <= i < |list|
        ensures list[i].order in book.known && list[i].order.isBuy != order.isBuy && list[i].remaining > 0
        ensures list[i].price == list[i].order.price
      {
        book.FlatMember(!order.isBuy, list[i]);
      }
      assert Positive(list);
      hide OrderBook.Core, Greedy, FlatRuns.After, Traded, Positive;
      GreedyPrefix(order.isBuy, order.price, list, order.remaining);
      GreedyFills(order.isBuy, order.price, list, order.remaining);
    }

    /** The fills are against a prefix of the list at prices that suit the taker; each maker is priced as listed. */
    ghost predicate Quoted(order: Order, list: seq<Resting>, fills: seq<Fill>)
      reads order, set f | f in fills :: f.order
    {
      && |fills| <= |list|
      && forall i :: 0 <= i < |fills| ==>
           fills[i].order.price == list[i].price && Crosses(order.isBuy, order.price, list[i].price)
    }

    /** Matches against the book: one step of the flat book. */
    method Execute(order: Order) returns (fills: seq<Fill>)
      requires book.Valid() && order !in book.known && order.Accounted() && order.IsActive()
      requires book.Feasible(order)
      modifies book, book.priceToLevel.Values, book.Buffers()
      modifies order`remaining, order`filled, book.known`remaining, book.known`filled
      ensures book.Valid() && order.Accounted()
      ensures old(Submitted(State(), order, order.price, order.remaining)) == Effect(State(), fills, order.remaining)
      ensures Traded(fills) + order.remaining == old(order.remaining)
      ensures forall f :: f in fills ==> f.order in old(book.known) && f.order.isBuy != order.isBuy && f.quantity > 0
      ensures old(Quoted(order, State().Side(!order.isBuy), fills))
      ensures book.Renewed()
      ensures Grown(order)
      ensures Paid(old(book.known), fills)
      ensures book.known == if order.remaining > 0 then old(book.known) + {order} else old(book.known)
      ensures forall o :: o in old(book.known) ==> o.Accounted()
    {
      hide OrderBook.Rings, OrderBook.SweptRings, Lodged;
      hide Greedy, Insert, Traded, Submitted, OrderBook.Core, OrderBook.Flat, OrderBook.NoneEmpty, OrderBook.DepthsOk;
      hide OrderBook.BestOk, OrderBook.Feasible, OrderBook.Occupied, OrderBook.Renewed;
      PlanFacts(order);
      ghost var was, want := State(), order.remaining;
      var rest;
      ghost var made;
      AllIndexed();
      AllAccounted();
      rest, fills, made := book.Match(order, []);
      assert [] + made == made;
      SubmittedIs(was, order, order.price, want, State(), made, order.remaining);
      AllAccounted();
    }

    /** The status an order leaves with; the book cannot tell New from Partial. */
    method Conclude(order: Order)
      requires book.Valid() && (order in book.known ==> order.remaining > 0 && order.IsActive())
      modifies order`status
      ensures book.Valid() && State() == old(State())
      ensures order.status == if order.remaining == 0 then Filled else if order.filled > 0 then Partial else New
    {
      hide OrderBook.Valid;
      if order.remaining == 0 {
        order.status := Filled;
      } else if order.filled > 0 {
        order.status := Partial;
      } else {
        order.status := New;
      }
      book.Relabelled();
    }

    /** The entry was there before, and its order gained no open quantity. */
    twostate predicate EntryKept(id: uint64)
      requires id in book.orderIndex
      reads book`orderIndex, set i | i in book.orderIndex :: book.orderIndex[i].order
    {
      && id in old(book.orderIndex) && book.orderIndex[id] == old(book.orderIndex)[id]
      && book.orderIndex[id].order.remaining <= old(book.orderIndex[id].order.remaining)
    }

    twostate predicate IndexStays()
      reads book`orderIndex, set id | id in book.orderIndex :: book.orderIndex[id].order
    {
      forall id :: id in book.orderIndex ==> EntryKept(id)
    }

    /** Only this order may have joined the index. */
    twostate predicate IndexGrew(order: Order)
      reads book`orderIndex, set id | id in book.orderIndex :: book.orderIndex[id].order
    {
      forall id :: id in book.orderIndex && id != order.id ==> EntryKept(id)
    }

    /** Only a resting order takes a slot, at its price, and an entry, under its id. */
    twostate predicate Grown(order: Order)
      reads book`orderIndex, book`priceToLevel, book.priceToLevel.Values, order
      reads set id | id in book.orderIndex :: book.orderIndex[id].order
    {
      && book.OneGrew(order.price) && IndexGrew(order)
      && (order.remaining == 0 ==> book.NoneGrew() && IndexStays())
    }

    lemma {:induction false} AllIndexed()
      requires book.Core()
      ensures forall id :: id in book.orderIndex ==> book.orderIndex[id].order in book.known
    {
      forall id | id in book.orderIndex ensures book.orderIndex[id].order in book.known {
        book.EntryKnown(id);
      }
    }

    lemma {:induction false} AllAccounted()
      requires book.Core()
      ensures forall o :: o in book.known ==> o.Accounted()
    {
    }

    /** One order joined the accepted ones; they gave and it got what the fills say. */
    ghost predicate Joining(order: Order, orders: seq<Order>, was: seq<nat>, fills: seq<Fill>)
      reads `accepted, orders, order
    {
      && accepted == orders + [order] && |was| == |orders| && Distinct(accepted)
      && (forall f :: f in fills ==> f.order in orders && f.order.isBuy != order.isBuy)
      && (forall i :: 0 <= i < |orders| ==> orders[i].filled == was[i] + TakenFrom(fills, orders[i]))
      && order.filled == Traded(fills)
    }

    lemma {:induction false} JoinedSums(order: Order, orders: seq<Order>, was: seq<nat>, fills: seq<Fill>, p: Pick)
      requires Joining(order, orders, was, fills)
      ensures FilledOn(accepted, p)
              == SumOn(orders, was, p) + TradedOn(fills + [Fill(order, order.filled, order.price)], p)
    {
      var now := Amounts(accepted);
      assert forall i :: 0 <= i < |orders| ==> now[i] == orders[i].filled;
      assert now[|orders|] == order.filled;
      SumsAfter(orders, was, now, fills, Fill(order, order.filled, order.price), p);
    }

    /** Both sides moved by the traded quantity. */
    lemma {:induction false} JoinedSides(order: Order, orders: seq<Order>, was: seq<nat>, fills: seq<Fill>, isBuy: bool)
      requires Joining(order, orders, was, fills)
      ensures FilledOn(accepted, Side(isBuy)) == SumOn(orders, was, Side(isBuy)) + Traded(fills)
    {
      JoinedSums(order, orders, was, fills, Side(isBuy));
      TradedOnSide(fills, !order.isBuy);
      TradedOnAppend(fills, Fill(order, order.filled, order.price), Side(isBuy));
    }

    lemma {:induction false} JoinedSymbol(
        order: Order, orders: seq<Order>, was: seq<nat>, fills: seq<Fill>, s: string)
      requires Joining(order, orders, was, fills)
      requires Reconciles(orders, was, fills + [Fill(order, order.filled, order.price)])
      ensures Tallied(positions.Account(s),
                      SumOn(accepted, Amounts(accepted), SideOf(true, s)) + TradedOn([], SideOf(true, s)),
                      SumOn(accepted, Amounts(accepted), SideOf(false, s)) + TradedOn([], SideOf(false, s)))
    {
      var every := fills + [Fill(order, order.filled, order.price)];
      assert Tallied(positions.Account(s), SumOn(orders, was, SideOf(true, s)) + TradedOn(every, SideOf(true, s)),
                     SumOn(orders, was, SideOf(false, s)) + TradedOn(every, SideOf(false, s)));
      hide SumOn, TradedOn, Tallied, Joining, Reconciles;
      JoinedSums(order, orders, was, fills, SideOf(true, s));
      JoinedSums(order, orders, was, fills, SideOf(false, s));
      NoneTraded(SideOf(true, s));
      NoneTraded(SideOf(false, s));
    }

    /** Every symbol's position is back in step with the orders. */
    lemma {:induction false} JoinedSymbols(order: Order, orders: seq<Order>, was: seq<nat>, fills: seq<Fill>)
      requires Joining(order, orders, was, fills)
      requires Reconciles(orders, was, fills + [Fill(order, order.filled, order.price)])
      ensures Reconciles(accepted, Amounts(accepted), [])
    {
      hide SumOn, TradedOn, Tallied, Joining;
      forall s
        ensures Tallied(positions.Account(s),
                        SumOn(accepted, Amounts(accepted), SideOf(true, s)) + TradedOn([], SideOf(true, s)),
                        SumOn(accepted, Amounts(accepted), SideOf(false, s)) + TradedOn([], SideOf(false, s)))
      {
        JoinedSymbol(order, orders, was, fills, s);
      }
    }

    lemma {:induction false} NoneTraded(p: Pick)
      ensures TradedOn([], p) == 0
    {
    }

    /** Books a fill on the positions, unless it is empty. */
    method SendFill(order: Order, ghost orders: seq<Order>, ghost was: seq<nat>, ghost fills: seq<Fill>)
      requires |was| == |orders| && positions.Valid() && Reconciles(orders, was, fills)
      modifies positions
      ensures positions.deals == Booked(old(positions.deals), order, order.filled, order.price)
      ensures positions.Valid() && Reconciles(orders, was, fills + [Fill(order, order.filled, order.price)])
    {
      Record(Fill(order, order.filled, order.price), order.price, orders, was, fills);
    }

    lemma {:induction false} NothingToSend(order: Order, orders: seq<Order>, was: seq<nat>, fills: seq<Fill>)
      requires |was| == |orders| && Reconciles(orders, was, fills) && order.filled == 0
      ensures Reconciles(orders, was, fills + [Fill(order, order.filled, order.price)])
      ensures Booked(positions.deals, order, order.filled, order.price) == positions.deals
    {
      var f := Fill(order, order.filled, order.price);
      hide SumOn, TradedOn, Tallied;
      forall s
        ensures Tallied(positions.Account(s),
                        SumOn(orders, was, SideOf(true, s)) + TradedOn(fills + [f], SideOf(true, s)),
                        SumOn(orders, was, SideOf(false, s)) + TradedOn(fills + [f], SideOf(false, s)))
      {
        TradedOnAppend(fills, f, SideOf(true, s));
        TradedOnAppend(fills, f, SideOf(false, s));
      }
    }

    /** Some order gave something exactly when there is a fill. */
    lemma {:induction false} FillsTrade(fills: seq<Fill>)
      requires forall f :: f in fills ==> f.quantity > 0
      ensures Traded(fills) > 0 <==> fills != []
    {
    }

    /** Positions and counters after a match. */
    method Settle(order: Order, fills: seq<Fill>, ghost was: seq<nat>)
      requires |was| == |accepted| && positions.Valid() && Reconciles(accepted, was, [])
      requires order.filled == Traded(fills) && forall f :: f in fills ==> f.quantity > 0
      modifies `matchCount, `partialCount, positions
      ensures positions.Valid() && Reconciles(accepted, was, fills + [Fill(order, order.filled, order.price)])
      ensures positions.deals == Booked(MakersBooked(old(positions.deals), fills), order, order.filled, order.price)
      ensures matchCount == old(matchCount) + |fills|
      ensures partialCount == old(partialCount) + if order.filled > 0 && order.remaining > 0 then 1 else 0
    {
      hide Reconciles, Traded, Booked, DealsAt;
      FillsTrade(fills);
      RecordMakers(fills, accepted, was);
      if order.filled > 0 {
        SendFill(order, accepted, was, fills);
        matchCount := matchCount + if fills == [] then 1 else |fills|;
      } else {
        NothingToSend(order, accepted, was, fills);
      }
      if order.filled > 0 && order.remaining > 0 {
        partialCount := partialCount + 1;
      }
    }

    /** What follows a match: positions, counters, and the status; the book is left alone. */
    method Finish(order: Order, fills: seq<Fill>, ghost was: seq<nat>)
      requires |was| == |accepted| && positions.Valid() && Reconciles(accepted, was, [])
      requires order.filled == Traded(fills) && forall f :: f in fills ==> f.quantity > 0
      requires forall f :: f in fills ==> f.order != order
      requires book.Valid() && (order in book.known ==> order.remaining > 0 && order.IsActive())
      modifies `matchCount, `partialCount, positions, order`status
      ensures positions.Valid() && Reconciles(accepted, was, fills + [Fill(order, order.filled, order.price)])
      ensures positions.deals == Booked(MakersBooked(old(positions.deals), fills), order, order.filled, order.price)
      ensures matchCount == old(matchCount) + |fills|
      ensures partialCount == old(partialCount) + if order.filled > 0 && order.remaining > 0 then 1 else 0
      ensures book.Valid() && State() == old(State())
      ensures order.status == if order.remaining == 0 then Filled else if order.filled > 0 then Partial else New
    {
      hide OrderBook.Core, OrderBook.Flat, Reconciles, Traded, Booked, DealsAt;
      Settle(order, fills, was);
      book.CoreFrame();
      Conclude(order);
    }

    /** Books a match that the order book has already made. */
    method Account(order: Order, fills: seq<Fill>, ghost was: seq<nat>)
      requires book.Valid() && Distinct(accepted) && Logged() && positions.Valid()
      requires matchCount == |Trades(history)|
      requires order !in accepted && order.Accounted() && order.IsActive()
      requires forall o :: o in accepted ==> o.Accounted()
      requires forall o :: o in book.known ==> o in accepted || (o == order && order.remaining > 0)
      requires Submitted(Run(history), order, order.price, order.quantity) == Effect(State(), fills, order.remaining)
      requires order.filled == Traded(fills)
      requires forall f :: f in fills ==> f.order in accepted && f.order.isBuy != order.isBuy && f.quantity > 0
      requires |was| == |accepted| && Reconciles(accepted, was, [])
      requires SumOn(accepted, was, Side(true)) == Traded(Trades(history)) == SumOn(accepted, was, Side(false))
      requires forall i :: 0 <= i < |accepted| ==> accepted[i].filled == was[i] + TakenFrom(fills, accepted[i])
      modifies this`matchCount, this`partialCount, this`accepted, this`history, positions, order`status
      ensures Balanced() && State() == old(State())
      ensures positions.deals == Booked(MakersBooked(old(positions.deals), fills), order, order.filled, order.price)
      ensures accepted == old(accepted) + [order]
      ensures history == old(history) + [Submit(order, order.price, order.quantity)]
      ensures order.status == if order.remaining == 0 then Filled else if order.filled > 0 then Partial else New
      ensures partialCount == old(partialCount) + if order.filled > 0 && order.remaining > 0 then 1 else 0
    {
      hide MakersBooked;
      hide OrderBook.Valid, OrderBook.Flat, SumOn, Run, Trades, Submitted, Traded, Reconciles, Booked, DealsAt;
      ghost var orders := accepted;
      Finish(order, fills, was);
      HistoryStep(history, Submit(order, order.price, order.quantity));
      TradedConcat(Trades(history), fills);
      Enter(order, order.price, order.quantity);
      assert Joining(order, orders, was, fills);
      JoinedSides(order, orders, was, fills, true);
      JoinedSides(order, orders, was, fills, false);
      JoinedSymbols(order, orders, was, fills);
    }

    /** An order as its client sends it. */
    ghost predicate Unworked(order: Order)
      reads order
    {
      order.status == New && order.filled == 0 && order.remaining == order.quantity
    }

    /** What an order adds to the history. */
    function Submission(order: Order, passes: bool): seq<Op>
      reads order
    {
      if passes then [Submit(order, EffectivePrice(order), order.quantity)] else []
    }

    /**
     What the flat book makes of the order, everybody got: the taker its rest, each maker its fills, and the
     positions one deal for each maker at the maker's price and one for the taker at its own.
     */
    twostate predicate Executed(order: Order, e: Effect)
      reads `accepted, accepted, positions, order, set f | f in e.fills :: f.order
    {
      && order.remaining == e.remaining && order.Accounted()
      && (forall m :: m in accepted && m in old(accepted) ==> m.filled == old(m.filled) + TakenFrom(e.fills, m))
      && positions.deals == Booked(MakersBooked(old(positions.deals), e.fills), order, order.filled, order.price)
    }

    /** The match, and what it leaves the accepted orders with. */
    method Strike(order: Order) returns (fills: seq<Fill>)
      requires book.Valid() && State() == Run(history) && Accepted()
      requires order !in accepted && Unworked(order) && book.Feasible(order)
      modifies book, book.priceToLevel.Values, book.Buffers()
      modifies order`remaining, order`filled, book.known`remaining, book.known`filled
      ensures book.Valid() && order.Accounted() && order.filled == Traded(fills)
      ensures Submitted(Run(history), order, order.price, order.quantity) == Effect(State(), fills, order.remaining)
      ensures old(Quoted(order, Run(history).Side(!order.isBuy), fills))
      ensures forall f :: f in fills ==> f.order in accepted && f.order.isBuy != order.isBuy && f.quantity > 0
      ensures forall o :: o in accepted ==> o.Accounted() && o.filled == old(o.filled) + TakenFrom(fills, o)
      ensures forall o :: o in book.known ==> o in accepted || (o == order && order.remaining > 0)
      ensures book.Renewed() && book.known <= old(book.known) + {order}
      ensures Grown(order)
    {
      hide Run, Submitted, Traded, Distinct, TakenFrom, Quoted, OrderBook.Valid, OrderBook.Flat, OrderBook.Feasible;
      hide OrderBook.Renewed, Grown;
      fills := Execute(order);
      Gave(fills);
    }

    /** The match, the positions, the counters and the log. */
    method Work(order: Order) returns (ghost fills: seq<Fill>)
      requires Balanced() && order !in accepted && Unworked(order)
      requires book.Feasible(order)
      modifies this`matchCount, this`partialCount, this`accepted, this`history, positions
      modifies book, book.priceToLevel.Values, book.Buffers()
      modifies order`remaining, order`filled, order`status, book.known`remaining, book.known`filled
      ensures Balanced()
      ensures book.Renewed() && book.known <= old(book.known) + {order}
      ensures Grown(order)
      ensures order.Accounted() && order.filled == Traded(fills)
      ensures old(Submitted(Run(history), order, order.price, order.quantity))
              == Effect(State(), fills, order.remaining)
      ensures old(Quoted(order, Run(history).Side(!order.isBuy), fills))
      ensures forall f :: f in fills ==> f.order in old(accepted) && f.order.isBuy != order.isBuy
      ensures forall m :: m in old(accepted) ==> m.filled == old(m.filled) + TakenFrom(fills, m)
      ensures positions.deals == Booked(MakersBooked(old(positions.deals), fills), order, order.filled, order.price)
      ensures accepted == old(accepted) + [order]
      ensures history == old(history) + [Submit(order, order.price, order.quantity)]
      ensures order.status == if order.remaining == 0 then Filled else if order.filled > 0 then Partial else New
      ensures partialCount == old(partialCount) + if order.filled > 0 && order.remaining > 0 then 1 else 0
    {
      hide Balanced, Accepted, Conserved, Logged, Reconciles, Booked, DealsAt, SumOn, FilledOn, Tallied, TradedOn;
      hide Run, Trades, Submitted, Traded, Distinct, TakenFrom;
      hide OrderBook.Valid, OrderBook.Flat, OrderBook.Feasible, OrderBook.Occupied;
      hide OrderBook.Renewed, MakersBooked;
      BalancedFacts();
      ghost var was := Amounts(accepted);
      var made := Strike(order);
      fills := made;
      label Struck:
      Account(order, made, was);
      book.StillOccupied@Struck();
      assert forall id :: id in book.orderIndex ==>
          book.orderIndex[id].order.remaining == old@Struck(book.orderIndex[id].order.remaining);
    }

    lemma {:induction false} BalancedFacts()
      requires Balanced()
      ensures book.Valid() && State() == Run(history) && positions.Valid() && matchCount == |Trades(history)|
      ensures Accepted() && Distinct(accepted) && Logged() && Reconciles(accepted, Amounts(accepted), [])
      ensures forall o :: o in accepted ==> o.Accounted()
      ensures forall o :: o in book.known ==> o in accepted
      ensures SumOn(accepted, Amounts(accepted), Side(true)) == Traded(Trades(history))
              == SumOn(accepted, Amounts(accepted), Side(false))
    {
    }

    /** Matches an order that passed the risk check, at its effective price. */
    method Admit(order: Order)
      requires Valid() && order !in accepted && Unworked(order)
      requires book.Feasible(order)
      modifies this`matchCount, this`partialCount, this`accepted, this`history, positions
      modifies book, book.priceToLevel.Values, book.Buffers()
      modifies order`remaining, order`filled, order`status, book.known`remaining, book.known`filled
      ensures Valid()
      ensures book.Renewed() && book.known <= old(book.known) + {order}
      ensures Grown(order)
      ensures Executed(order, old(Submitted(State(), order, order.price, order.remaining)))
      ensures accepted == old(accepted) + [order]
      ensures history == old(history) + [Submit(order, order.price, order.quantity)]
      ensures order.status == if order.remaining == 0 then Filled else if order.filled > 0 then Partial else New
      ensures partialCount == old(partialCount) + if order.filled > 0 && order.remaining > 0 then 1 else 0
    {
      hide Balanced, Valid, Submitted, Crosses, Spent, Booked, DealsAt, Unworked, Traded, Run, TakenFrom;
      hide OrderBook.Feasible, OrderBook.Flat, OrderBook.Renewed, Grown;
      ghost var deals, ops, orders, f := positions.deals, history, accepted, State();
      ReadyFacts(order);
      ghost var fills := Work(order);
      SpentAfter(order, deals, ops, orders, fills);
      ValidIs();
    }

    lemma {:induction false} ReadyFacts(order: Order)
      requires Valid() && Unworked(order)
      ensures Balanced() && State() == Run(history) && Spent(positions.deals, accepted, history)
      ensures order.remaining == order.quantity
    {
    }

    lemma {:induction false} ValidIs()
      ensures Valid() == (Balanced() && Spent(positions.deals, accepted, history))
    {
    }

    /** One match later the books of the one symbol have lost what this taker conceded as well. */
    lemma {:induction false} SpentAfter(
        order: Order, deals: map<string, seq<Deal>>, ops: seq<Op>, orders: seq<Order>, fills: seq<Fill>)
      requires Spent(deals, orders, ops)
      requires accepted == orders + [order] && history == ops + [Submit(order, order.price, order.quantity)]
      requires fills == Submitted(Run(ops), order, order.price, order.quantity).fills
      requires Quoted(order, Run(ops).Side(!order.isBuy), fills) && order.filled == Traded(fills)
      requires forall f :: f in fills ==> f.order in orders && f.order.isBuy != order.isBuy
      requires positions.deals == Booked(MakersBooked(deals, fills), order, order.filled, order.price)
      ensures Spent(positions.deals, accepted, history)
    {
      TotalConcededStep(ops, Submit(order, order.price, order.quantity));
      var list := Run(ops).Side(!order.isBuy);
      hide TotalConceded, Conceded, Submitted, Run, Booked, DealsAt, CashIn, Traded, Trim;
      forall s | OneSymbol(accepted, s)
        ensures CashIn(positions.deals, s) == 0 - TotalConceded(history)
      {
        assert order in accepted && forall o :: o in orders ==> o in accepted;
        assert OneSymbol(orders, s);
        forall i | 0 <= i < |fills| ensures fills[i].order.isBuy != order.isBuy && Trim(fills[i].order.symbol) == s {
          assert fills[i] in fills;
        }
        CashOfMatch(deals, list, fills, MakerPrices(fills), order, order.filled, order.price);
      }
    }

    /** Enters a submission in the log. */
    ghost method Enter(order: Order, price: int64, want: uint32)
      requires book.Valid() && order !in accepted && Distinct(accepted) && Logged()
      requires order.Accounted() && forall o :: o in accepted ==> o.Accounted()
      requires forall o :: o in book.known ==> o in accepted || o == order
      modifies `accepted, `history
      ensures accepted == old(accepted) + [order] && history == old(history) + [Submit(order, price, want)]
      ensures Accepted() && Logged()
      ensures book.Valid() && State() == old(State())
    {
      hide OrderBook.Core, OrderBook.NoneEmpty, OrderBook.DepthsOk, OrderBook.BestOk, OrderBook.Flat;
      accepted, history := accepted + [order], history + [Submit(order, price, want)];
      forall i | 0 <= i < |history| && history[i].Submit? ensures history[i].order in accepted {
        if i < |old(history)| {
          assert history[i] == old(history)[i];
        }
      }
      assert OnceEach(history);
      book.CoreFrame();
    }

    /** Accepted orders gave exactly what the fills took, whether or not they ever rested. */
    twostate lemma Gave(new fills: seq<Fill>)
      requires old(Accepted()) && Paid(old(book.known), fills)
      requires forall f :: f in fills ==> f.order in old(book.known)
      requires accepted == old(accepted)
      requires forall o :: o in accepted && o !in old(book.known) ==> unchanged(o)
      ensures forall o :: o in accepted ==> o.filled == old(o.filled) + TakenFrom(fills, o)
    {
      forall o | o in accepted ensures o.filled == old(o.filled) + TakenFrom(fills, o) {
        if o !in old(book.known) {
          NotTaken(fills, o);
        }
      }
    }

    /** The engine does not depend on orders it has not accepted, nor on how many it rejected. */
    twostate lemma Outside()
      requires old(Valid()) && unchanged(`matchCount, `accepted, `history) && unchanged(book) && unchanged(positions)
      requires forall p :: p in book.priceToLevel ==>
                 unchanged(book.priceToLevel[p]) && unchanged(book.priceToLevel[p].buffer)
      requires forall o :: o in accepted ==> unchanged(o)
      ensures Valid() && State() == old(State())
    {
      hide OrderBook.Core, OrderBook.BestOk, Flatten, Total, LiveOf;
      hide Logged, Run, Trades, SumOn, TradedOn, Tallied, Traded, Spent;
      assert book.known == old(book.known);
      forall o | o in book.known ensures unchanged(o) {
        assert o in old(book.known);
        assert o in accepted;
      }
      book.CoreFrame();
      book.FlatKept();
      AmountsKept(accepted);
      assert forall s :: positions.Account(s) == old(positions.Account(s));
    }

    /**
     Takes one order; `passes` is the risk verdict. The engine's whole state stays what the flat book makes of
     its history, positions stay reconciled, and the counters stay true.
     */
    method ProcessOrder(order: Order, passes: bool)
      requires Valid() && order !in accepted && Unworked(order)
      requires passes ==> Feasible(order)
      modifies this`matchCount, this`rejectCount, this`partialCount, this`accepted, this`history, positions
      modifies book, book.priceToLevel.Values, book.Buffers()
      modifies order, book.known`remaining, book.known`filled
      ensures Valid()
      ensures !passes ==> order.status == Rejected && order.filled == 0
      ensures passes ==> Executed(order, old(Submitted(State(), order, EffectivePrice(order), order.remaining)))
      ensures passes ==>
                order.price == if old(order.orderType) != Market then old(order.price)
                               else if order.isBuy then 0x7FFF_FFFF_FFFF_FFFF else 0
      ensures passes ==> history == old(history) + [Submit(order, order.price, order.quantity)]
      ensures passes && order.remaining > 0 ==> NothingAcceptable(order)
      ensures passes && order.remaining > 0 && old(order.orderType) == Market ==>
                if order.isBuy then book.Flat(false) == [] else forall r :: r in book.Flat(true) ==> r.price < 0
      ensures !passes ==> positions.deals == old(positions.deals) && forall m :: m in old(accepted) ==> unchanged(m)
      ensures passes ==> order.price == old(EffectivePrice(order)) && order.orderType != Market
      ensures accepted == if passes then old(accepted) + [order] else old(accepted)
      ensures history == old(history) + old(Submission(order, passes))
      ensures book.Renewed() && book.known <= old(book.known) + {order}
      ensures passes ==> Grown(order)
      ensures !passes ==> book.NoneGrew() && IndexStays() && unchanged(book)
      ensures rejectCount == old(rejectCount) + if passes then 0 else 1
      ensures passes ==>
                order.status == (if order.remaining == 0 then Filled else if order.filled > 0 then Partial else New)
      ensures partialCount == old(partialCount) + if passes && order.filled > 0 && order.remaining > 0 then 1 else 0
    {
      hide Valid, Feasible, Submitted, Booked, MakersBooked, TakenFrom, OrderBook.Flat, OrderBook.NoneGrew;
      hide Grown, State, NothingAcceptable;
      if !passes {
        Reject(order);
        return;
      }
      Accept(order);
      if order.remaining > 0 {
        NobodyLeft(order);
      }
    }

    /** An order that passed the risk check is repriced and matched. */
    method Accept(order: Order)
      requires Valid() && order !in accepted && Unworked(order) && Feasible(order)
      modifies this`matchCount, this`partialCount, this`accepted, this`history, positions
      modifies book, book.priceToLevel.Values, book.Buffers()
      modifies order, book.known`remaining, book.known`filled
      ensures Valid() && Grown(order) && book.Renewed() && book.known <= old(book.known) + {order}
      ensures Executed(order, old(Submitted(State(), order, EffectivePrice(order), order.remaining)))
      ensures order.price == old(EffectivePrice(order)) && order.orderType != Market
      ensures accepted == old(accepted) + [order]
      ensures order.remaining > 0 ==> NothingAcceptable(order)
      ensures history == old(history) + old(Submission(order, true))
      ensures order.status == if order.remaining == 0 then Filled else if order.filled > 0 then Partial else New
      ensures partialCount == old(partialCount) + if order.filled > 0 && order.remaining > 0 then 1 else 0
    {
      hide Valid, Feasible, Submitted, Booked, MakersBooked, TakenFrom, OrderBook.Flat, OrderBook.Occupied, State;
      hide NothingAcceptable, Run;
      ghost var ops := history;
      RunIs();
      Reprice(order);
      book.StillOccupied();
      Admit(order);
      Unfilled(ops, order);
    }

    /** Nothing on the other side is priced within the order's limit. */
    ghost predicate NothingAcceptable(order: Order)
      reads book`bidLevels, book`askLevels, book.bidLevels, book.askLevels, order
    {
      forall r :: r in book.Flat(!order.isBuy) ==> if order.isBuy then r.price > order.price else r.price < order.price
    }

    lemma {:induction false} Unfilled(ops: seq<Op>, order: Order)
      requires Valid() && history == ops + [Submit(order, order.price, order.quantity)]
      requires order.remaining == Submitted(Run(ops), order, order.price, order.quantity).remaining
      ensures order.remaining > 0 ==> NothingAcceptable(order)
    {
      HistoryStep(ops, Submit(order, order.price, order.quantity));
      RunSound(ops);
      NothingWithinLimit(Run(ops), order, order.price, order.quantity);
      hide Submitted, Run;
    }

    /** For an order that accepts anything that means nobody, or for a sale nobody above zero, is left. */
    lemma {:induction false} NobodyLeft(order: Order)
      requires NothingAcceptable(order)
      ensures order.isBuy && order.price == INT64_MAX ==> book.Flat(false) == []
      ensures !order.isBuy && order.price == 0 ==> forall r :: r in book.Flat(true) ==> r.price < 0
    {
      if order.isBuy && order.price == INT64_MAX && book.Flat(false) != [] {
        var r := book.Flat(false)[0];
        assert r in book.Flat(false);
        Int64Max(r.price);
        assert false;
      }
    }

    method Reject(order: Order)
      requires Valid() && order !in accepted && Unworked(order)
      modifies `rejectCount, order`status
      ensures Valid() && order.status == Rejected && order.filled == 0
      ensures book.NoneGrew() && IndexStays() && rejectCount == old(rejectCount) + 1
    {
      hide Valid;
      order.status := Rejected;
      rejectCount := rejectCount + 1;
      Outside();
    }

    /** Market orders become limit orders that accept anything. */
    method Reprice(order: Order)
      requires Valid() && order !in accepted && Unworked(order) && Feasible(order)
      modifies order`price, order`orderType
      ensures Valid() && Unworked(order) && book.Feasible(order)
      ensures order.price == old(EffectivePrice(order))
      ensures order.orderType == if old(order.orderType) == Market then Limit else old(order.orderType)
      ensures State() == old(State())
    {
      hide OrderBook.Valid, OrderBook.Plan, Reconciles, Conserved, Logged, Run, Trades, State, Submitted;
      if order.orderType == Market {
        if order.isBuy {
          order.price := INT64_MAX;
        } else {
          order.price := 0;
        }
        order.orderType := Limit;
      }
      Outside();
      PlanRemaining(order);
    }

    lemma {:induction false} PlanRemaining(order: Order)
      ensures book.Plan(order).remaining == Submitted(State(), order, order.price, order.remaining).remaining
    {
    }

    method CancelOrder(id: uint64) returns (ok: bool)
      requires Valid()
      modifies this`history, book, book.priceToLevel.Values, book.Buffers(), book.known`status
      ensures Valid() && accepted == old(accepted) && history == old(history) + [Cancel(id)]
      ensures ok == old(id in book.orderIndex && book.orderIndex[id].price in book.priceToLevel)
      ensures ok ==> old(book.orderIndex)[id].order.status == Cancelled
      ensures forall m :: m in book.known && !(ok && m == old(book.orderIndex)[id].order) ==> m.status == old(m.status)
    {
      hide OrderBook.Valid, Run, Trades, WithoutId, OrderBook.Flat, SumOn, TradedOn, Tallied, Traded;
      hide TotalConceded, CashIn, Accepted, Conserved, Reconciles, Spent;
      ok := book.CancelOrder(id);
      HistoryStep(history, Cancel(id));
      TotalConcededStep(history, Cancel(id));
      EnterCancel(id);
      BooksUntouched();
    }

    /** Nobody's quantities or positions moved, and neither did the trades of the history. */
    twostate lemma BooksUntouched()
      requires old(Accepted()) && old(Conserved()) && old(positions.Valid())
      requires old(Reconciles(accepted, Amounts(accepted), [])) && old(Spent(positions.deals, accepted, history))
      requires unchanged(`accepted) && unchanged(positions) && book.known == old(book.known)
      requires forall o :: o in accepted ==> o.filled == old(o.filled) && o.remaining == old(o.remaining)
      requires Trades(history) == old(Trades(history)) && TotalConceded(history) == old(TotalConceded(history))
      ensures Accepted() && Conserved() && positions.Valid()
      ensures Reconciles(accepted, Amounts(accepted), []) && Spent(positions.deals, accepted, history)
    {
      hide SumOn, TradedOn, Tallied, Traded, TotalConceded, CashIn, Trades;
      AmountsKept(accepted);
      assert forall s :: positions.Account(s) == old(positions.Account(s));
    }

    ghost method EnterCancel(id: uint64)
      requires book.Valid() && Logged()
      modifies `history
      ensures history == old(history) + [Cancel(id)] && Logged()
      ensures book.Valid() && State() == old(State())
    {
      hide OrderBook.Core, OrderBook.NoneEmpty, OrderBook.DepthsOk, OrderBook.BestOk, OrderBook.Flat;
      history := history + [Cancel(id)];
      forall i | 0 <= i < |history| && history[i].Submit? ensures history[i].order in accepted {
        assert history[i] == old(history)[i];
      }
      assert OnceEach(history);
      book.CoreFrame();
    }

    /** The submissions that leave something open, one after the other. */
    static ghost function Resters(f: FlatState, ops: seq<Op>): seq<Op>
      decreases |ops|
    {
      if ops == [] then []
      else
        (if ops[0].Submit? && Submitted(f, ops[0].order, ops[0].price, ops[0].want).remaining > 0 then [ops[0]] else [])
        + Resters(FlatRuns.Step(f, ops[0]), ops[1..])
    }

    /** How many of them come in at this price. */
    static ghost function Arrivals(resters: seq<Op>, price: int64): nat {
      if resters == [] then 0
      else (if resters[0].Submit? && resters[0].price == price then 1 else 0) + Arrivals(resters[1..], price)
    }

    /** For those that are going to rest: ids that no live order has nor another one of them, and ring slots. */
    ghost predicate Lodgeable(resters: seq<Op>)
      reads book`orderIndex, book`priceToLevel, book.priceToLevel.Values
      reads set id | id in book.orderIndex :: book.orderIndex[id].order
    {
      && (forall i :: 0 <= i < |resters| ==> resters[i].Submit? && book.FreshId(resters[i].order))
      && (forall i, j :: 0 <= i < j < |resters| ==> resters[i].order.id != resters[j].order.id)
      && (forall p :: book.Occupied(p) + Arrivals(resters, p) < MAX_ORDERS)
    }

    ghost predicate Waiting(queue: seq<Order>)
      reads this`accepted, queue
    {
      && (forall i :: 0 <= i < |queue| ==> Unworked(queue[i]) && queue[i] !in accepted)
      && (forall i, j :: 0 <= i < j < |queue| ==> queue[i] != queue[j])
    }

    /** What the queue needs to be worked off: each order its own, and room for those that will rest. */
    ghost predicate Queued(queue: seq<Order>, verdicts: seq<bool>)
      reads this`accepted, book`orderIndex, book`priceToLevel, book.priceToLevel.Values, queue
      reads book`bidLevels, book`askLevels, book.bidLevels, book.askLevels
      reads set id | id in book.orderIndex :: book.orderIndex[id].order
    {
      && |queue| == |verdicts|
      && Waiting(queue)
      && Lodgeable(Resters(State(), Submissions(queue, verdicts)))
    }

    method SubmitOrder(order: Order)
      modifies `incomingOrders
      ensures incomingOrders == old(incomingOrders) + [order]
    {
      incomingOrders := incomingOrders + [order];
    }

    static lemma {:induction false} RestersFirst(f: FlatState, op: Op, ops: seq<Op>)
      requires op.Submit?
      ensures var e := Submitted(f, op.order, op.price, op.want);
              Resters(f, [op] + ops) == (if e.remaining > 0 then [op] else []) + Resters(e.state, ops)
    {
      assert ([op] + ops)[1..] == ops;
      hide Submitted;
    }

    static lemma {:induction false} ArrivalsFirst(op: Op, ops: seq<Op>, price: int64)
      ensures Arrivals([op] + ops, price) == (if op.Submit? && op.price == price then 1 else 0) + Arrivals(ops, price)
    {
      assert ([op] + ops)[1..] == ops;
    }

    /** The first submission, and what will rest of it and of the others. */
    lemma {:induction false} RestingFirst(order: Order, queue: seq<Order>, verdicts: seq<bool>)
      requires |verdicts| == |queue| + 1
      ensures var ops := Submissions(queue, verdicts[1..]);
              && Submissions([order] + queue, verdicts) == Submission(order, verdicts[0]) + ops
              && Resters(State(), Submissions([order] + queue, verdicts)) ==
                 if verdicts[0] then
                   var e := Submitted(State(), order, EffectivePrice(order), order.quantity);
                   (if e.remaining > 0 then Submission(order, true) else []) + Resters(e.state, ops)
                 else Resters(State(), ops)
    {
      var ops := Submissions(queue, verdicts[1..]);
      assert ([order] + queue)[1..] == queue && [] + ops == ops;
      hide Submitted;
      RestersFirst(State(), Submit(order, EffectivePrice(order), order.quantity), ops);
      hide Resters, State;
    }

    lemma {:induction false} FirstFits(order: Order, queue: seq<Order>, verdicts: seq<bool>)
      requires Valid() && Queued([order] + queue, verdicts)
      ensures Unworked(order) && order !in accepted && (verdicts[0] ==> Feasible(order))
      ensures forall i :: 0 <= i < |queue| ==> queue[i] != order && queue[i] !in book.known
    {
      RestingFirst(order, queue, verdicts);
      FirstRoom(order, Resters(State(), Submissions([order] + queue, verdicts)));
      hide OrderBook.Valid, Submitted, Resters, Submissions, State, OrderBook.Occupied;
      forall i | 0 <= i < |queue| ensures queue[i] != order && queue[i] !in book.known && Unworked(order) {
        assert ([order] + queue)[i + 1] == queue[i] && ([order] + queue)[0] == order;
      }
      assert ([order] + queue)[0] == order;
    }

    /** An order that is first among those to rest, or does not rest, finds what it needs. */
    lemma {:induction false} FirstRoom(order: Order, resters: seq<Op>)
      requires Valid() && Lodgeable(resters)
      ensures forall p :: book.Occupied(p) < MAX_ORDERS
      ensures !Jams(order.isBuy, EffectivePrice(order), order.remaining, book.Levels(!order.isBuy))
      ensures resters != [] && resters[0] == Submit(order, EffectivePrice(order), order.quantity) ==>
                book.FreshId(order) && RoomFor(order)
    {
      assert book.Core();
      hide OrderBook.Valid, OrderBook.Core, OrderBook.FreshId;
      forall p: int64 ensures book.Occupied(p) < MAX_ORDERS {
        assert book.Occupied(p) + Arrivals(resters, p) < MAX_ORDERS;
      }
      book.RoomEverywhere(order.isBuy, EffectivePrice(order), order.remaining);
      assert book.Occupied(EffectivePrice(order)) < MAX_ORDERS;
    }

    /** What one processed order leaves. */
    twostate predicate Processed(order: Order, passed: bool)
      reads book, book.priceToLevel.Values, book.bidLevels, book.askLevels, order
      reads set id | id in book.orderIndex :: book.orderIndex[id].order
    {
      if passed then
        && order.price == old(EffectivePrice(order))
        && order.remaining == old(Submitted(State(), order, EffectivePrice(order), order.quantity)).remaining
        && State() == old(Submitted(State(), order, EffectivePrice(order), order.quantity)).state
        && Grown(order)
      else
        State() == old(State()) && book.NoneGrew() && IndexStays()
    }

    /** With the first order processed, the queue behind it still has what it needs. */
    twostate lemma StillQueued(first: (Order, seq<bool>))
      requires |first.1| == |incomingOrders| + 1 && old(Queued([first.0] + incomingOrders, first.1))
      requires incomingOrders == old(incomingOrders)
      requires forall i :: 0 <= i < |incomingOrders| ==> unchanged(incomingOrders[i])
      requires forall o :: o in accepted ==> o in old(accepted) || o == first.0
      requires Processed(first.0, first.1[0])
      ensures Queued(incomingOrders, first.1[1..])
    {
      hide Resters, Submissions, Lodgeable, OrderBook.NoneGrew, IndexStays, Submitted, State, Unworked, Waiting;
      StillWaiting(first.0);
      StillResting(first);
      if first.1[0] && first.0.remaining > 0 {
        StillLodgeable((first.0, Resters(State(), Submissions(incomingOrders, first.1[1..]))));
      } else {
        AllLodgeable(Resters(State(), Submissions(incomingOrders, first.1[1..])));
      }
    }

    twostate lemma StillWaiting(order: Order)
      requires incomingOrders == old(incomingOrders) && old(Waiting([order] + incomingOrders))
      requires forall i :: 0 <= i < |incomingOrders| ==> unchanged(incomingOrders[i])
      requires forall o :: o in accepted ==> o in old(accepted) || o == order
      ensures Waiting(incomingOrders)
    {
      var queue := [order] + incomingOrders;
      assert queue[0] == order && forall i :: 0 <= i < |incomingOrders| ==> queue[i + 1] == incomingOrders[i];
      forall i | 0 <= i < |incomingOrders| ensures Unworked(incomingOrders[i]) && incomingOrders[i] !in accepted {
        assert old(Unworked(queue[i + 1])) && queue[i + 1] != queue[0];
      }
      forall i, j | 0 <= i < j < |incomingOrders| ensures incomingOrders[i] != incomingOrders[j] {
        assert queue[i + 1] != queue[j + 1];
      }
    }

    /** Those that will rest are the ones that were to, but for the first. */
    twostate lemma StillResting(first: (Order, seq<bool>))
      requires |first.1| == |incomingOrders| + 1 && incomingOrders == old(incomingOrders)
      requires forall i :: 0 <= i < |incomingOrders| ==> unchanged(incomingOrders[i])
      requires Processed(first.0, first.1[0])
      ensures old(Resters(State(), Submissions([first.0] + incomingOrders, first.1)))
              == var resters := Resters(State(), Submissions(incomingOrders, first.1[1..]));
                 if first.1[0] && first.0.remaining > 0
                 then [Submit(first.0, first.0.price, first.0.quantity)] + resters else resters
    {
      hide Resters, Grown, OrderBook.NoneGrew, IndexStays, Submitted;
      SameSubmissions(incomingOrders);
      var order, ops := first.0, Submissions(incomingOrders, first.1[1..]);
      assert ([order] + incomingOrders)[1..] == incomingOrders && ([order] + incomingOrders)[0] == order;
      assert old(Submissions([order] + incomingOrders, first.1)) == old(Submission(order, first.1[0])) + ops;
      if first.1[0] {
        RestersFirst(old(State()), Submit(order, order.price, order.quantity), ops);
        assert [] + Resters(State(), ops) == Resters(State(), ops);
      } else {
        assert [] + ops == ops;
      }
    }

    /** After one that rests, those to come find the ids and the slots they need. */
    twostate lemma StillLodgeable(next: (Order, seq<Op>))
      requires Grown(next.0)
      requires var all := [Submit(next.0, next.0.price, next.0.quantity)] + next.1; old(Lodgeable(all))
      ensures Lodgeable(next.1)
    {
      hide OrderBook.Occupied;
      StillSlots(next);
      hide OrderBook.OneGrew, OrderBook.NoneGrew, Arrivals;
      var op, resters := Submit(next.0, next.0.price, next.0.quantity), next.1;
      var all := [op] + resters;
      assert all[0] == op && forall i :: 0 <= i < |resters| ==> all[i + 1] == resters[i];
      forall i | 0 <= i < |resters| ensures resters[i].Submit? && book.FreshId(resters[i].order) {
        assert old(book.FreshId(all[i + 1].order)) && all[0].order.id != all[i + 1].order.id;
        if resters[i].order.id in book.orderIndex {
          assert EntryKept(resters[i].order.id);
        }
      }
      forall i, j | 0 <= i < j < |resters| ensures resters[i].order.id != resters[j].order.id {
        assert all[i + 1].order.id != all[j + 1].order.id;
      }
    }

    twostate lemma StillSlots(next: (Order, seq<Op>))
      requires Grown(next.0)
      requires var all := [Submit(next.0, next.0.price, next.0.quantity)] + next.1; old(Lodgeable(all))
      ensures forall p :: book.Occupied(p) + Arrivals(next.1, p) < MAX_ORDERS
    {
      hide OrderBook.Occupied, Arrivals, OrderBook.FreshId, IndexGrew, IndexStays;
      var op, resters := Submit(next.0, next.0.price, next.0.quantity), next.1;
      forall p: int64 ensures book.Occupied(p) + Arrivals(resters, p) < MAX_ORDERS {
        ArrivalsFirst(op, resters, p);
        assert old(book.Occupied(p)) + Arrivals([op] + resters, p) < MAX_ORDERS;
      }
    }

    /** After one that does not rest, those to come find what they found. */
    twostate lemma AllLodgeable(resters: seq<Op>)
      requires book.NoneGrew() && IndexStays() && old(Lodgeable(resters))
      ensures Lodgeable(resters)
    {
      hide OrderBook.Occupied;
      forall i | 0 <= i < |resters| ensures resters[i].Submit? && book.FreshId(resters[i].order) {
        assert old(book.FreshId(resters[i].order));
        if resters[i].order.id in book.orderIndex {
          assert EntryKept(resters[i].order.id);
        }
      }
      forall p: int64 ensures book.Occupied(p) + Arrivals(resters, p) < MAX_ORDERS {
        assert old(book.Occupied(p)) + Arrivals(resters, p) < MAX_ORDERS;
      }
    }

    /** In order of arrival, all of them and no others: a queue can be cut anywhere. */
    static lemma {:induction false} PassedAre(queue: seq<Order>, verdicts: seq<bool>, k: nat)
      requires |queue| == |verdicts| && k <= |queue|
      ensures Passed(queue, verdicts) == Passed(queue[..k], verdicts[..k]) + Passed(queue[k..], verdicts[k..])
      ensures |queue| == 1 ==> Passed(queue, verdicts) == if verdicts[0] then queue else []
    {
      if k > 0 {
        PassedAre(queue[1..], verdicts[1..], k - 1);
        assert queue[..k][1..] == queue[1..][..k - 1] && verdicts[..k][1..] == verdicts[1..][..k - 1];
        assert queue[1..][k - 1..] == queue[k..] && verdicts[1..][k - 1..] == verdicts[k..];
      } else {
        assert queue[0..] == queue && verdicts[0..] == verdicts && Passed([], []) == [];
      }
    }

    /** The queued orders that pass. */
    static function Passed(queue: seq<Order>, verdicts: seq<bool>): seq<Order>
      requires |queue| == |verdicts|
    {
      if queue == [] then []
      else (if verdicts[0] then [queue[0]] else []) + Passed(queue[1..], verdicts[1..])
    }

    static lemma {:induction false} PassedStep(queue: seq<Order>, verdicts: seq<bool>)
      requires |queue| == |verdicts|
      ensures queue == [] ==> Passed(queue, verdicts) == []
      ensures queue != [] ==>
                Passed(queue, verdicts) == (if verdicts[0] then [queue[0]] else []) + Passed(queue[1..], verdicts[1..])
    {
    }

    /** What they submit. */
    function Submissions(queue: seq<Order>, verdicts: seq<bool>): seq<Op>
      requires |queue| == |verdicts|
      reads queue
    {
      if queue == [] then []
      else
        Submission(queue[0], verdicts[0]) + Submissions(queue[1..], verdicts[1..])
    }

    /** Takes the first order off the queue. */
    method ProcessNext(passes: bool, ghost verdicts: seq<bool>)
      requires Valid() && incomingOrders != [] && Queued(incomingOrders, verdicts) && passes == verdicts[0]
      modifies this, positions, book, book.priceToLevel.Values, book.Buffers()
      modifies incomingOrders[0], book.known`remaining, book.known`filled
      ensures Valid() && incomingOrders == old(incomingOrders)[1..] && book.Renewed()
      ensures Queued(incomingOrders, verdicts[1..])
      ensures forall i :: 1 <= i < |old(incomingOrders)| ==> unchanged(old(incomingOrders)[i])
      ensures book.known <= old(book.known) + {old(incomingOrders)[0]}
      ensures accepted == old(accepted) + if passes then [old(incomingOrders)[0]] else []
      ensures history == old(history) + old(Submission(incomingOrders[0], passes))
      ensures rejectCount == old(rejectCount) + if passes then 0 else 1
    {
      hide Valid, Queued, Unworked, Feasible, Executed, Submission, Processed, Lodgeable, OrderBook.Occupied;
      var order := Pop(verdicts);
      label Popped:
      ProcessPopped(order, passes);
      StillQueued@Popped((order, verdicts));
    }

    /** Processing an order already off the queue. */
    method ProcessPopped(order: Order, passes: bool)
      requires Valid() && order !in accepted && Unworked(order) && (passes ==> Feasible(order))
      modifies this`matchCount, this`rejectCount, this`partialCount, this`accepted, this`history, positions
      modifies book, book.priceToLevel.Values, book.Buffers()
      modifies order, book.known`remaining, book.known`filled
      ensures Valid() && book.Renewed() && book.known <= old(book.known) + {order}
      ensures Processed(order, passes)
      ensures accepted == old(accepted) + if passes then [order] else []
      ensures history == old(history) + old(Submission(order, passes))
      ensures rejectCount == old(rejectCount) + if passes then 0 else 1
    {
      hide Valid, Feasible, Submitted, Grown, Run, Trades, State, OrderBook.Renewed, OrderBook.NoneGrew, IndexStays;
      ghost var ops := history;
      RunIs();
      ProcessOrder(order, passes);
      RunIs();
      Resubmitted(ops, order);
    }

    lemma {:induction false} RunIs()
      requires Valid()
      ensures State() == Run(history)
    {
    }

    lemma {:induction false} Resubmitted(ops: seq<Op>, order: Order)
      ensures Run(ops + [Submit(order, order.price, order.quantity)])
              == Submitted(Run(ops), order, order.price, order.quantity).state
      ensures ops + [] == ops
    {
      HistoryStep(ops, Submit(order, order.price, order.quantity));
    }

    method Pop(ghost verdicts: seq<bool>) returns (order: Order)
      requires Valid() && incomingOrders != [] && Queued(incomingOrders, verdicts)
      modifies `incomingOrders
      ensures Valid() && order == old(incomingOrders)[0] && incomingOrders == old(incomingOrders)[1..]
      ensures Unworked(order) && order !in accepted && (verdicts[0] ==> Feasible(order))
      ensures |verdicts| == |incomingOrders| + 1 && Queued([order] + incomingOrders, verdicts)
      ensures forall i :: 0 <= i < |incomingOrders| ==> incomingOrders[i] != order && incomingOrders[i] !in book.known
    {
      hide Valid, Resters, Submissions;
      order := incomingOrders[0];
      assert [order] + incomingOrders[1..] == incomingOrders;
      incomingOrders := incomingOrders[1..];
      Outside();
      FirstFits(order, incomingOrders, verdicts);
    }

    lemma {:induction false} SubmissionsAre(queue: seq<Order>, verdicts: seq<bool>, k: nat)
      requires |queue| == |verdicts| && k <= |queue|
      ensures Submissions(queue, verdicts)
              == Submissions(queue[..k], verdicts[..k]) + Submissions(queue[k..], verdicts[k..])
      ensures |queue| == 1 ==> Submissions(queue, verdicts) == Submission(queue[0], verdicts[0])
    {
      hide Submission;
      if k > 0 {
        SubmissionsAre(queue[1..], verdicts[1..], k - 1);
        assert queue[..k][1..] == queue[1..][..k - 1] && verdicts[..k][1..] == verdicts[1..][..k - 1];
        assert queue[1..][k - 1..] == queue[k..] && verdicts[1..][k - 1..] == verdicts[k..];
      } else {
        assert queue[0..] == queue && verdicts[0..] == verdicts && Submissions([], []) == [];
      }
    }

    twostate lemma SubmissionsKept(verdicts: seq<bool>)
      requires old(incomingOrders) != [] && |old(incomingOrders)| == |verdicts|
      requires incomingOrders == old(incomingOrders)[1..]
      requires forall i :: 0 <= i < |incomingOrders| ==> unchanged(incomingOrders[i])
      ensures old(Submissions(incomingOrders, verdicts))
              == old(Submission(incomingOrders[0], verdicts[0])) + Submissions(incomingOrders, verdicts[1..])
    {
      SameSubmissions(incomingOrders);
    }

    twostate lemma {:induction false} SameSubmissions(queue: seq<Order>)
      requires forall i :: 0 <= i < |queue| ==> unchanged(queue[i])
      ensures forall verdicts :: |verdicts| == |queue| ==>
                Submissions(queue, verdicts) == old(Submissions(queue, verdicts))
    {
      if queue != [] {
        forall i | 0 <= i < |queue[1..]| ensures unchanged(queue[1..][i]) {
          assert queue[1..][i] == queue[i + 1];
        }
        SameSubmissions(queue[1..]);
      }
    }

    /** One turn of the cycle: what is done and what is left add up to what was. */
    method ProcessFirst(passes: bool, ghost verdicts: seq<bool>)
      requires Valid() && incomingOrders != [] && Queued(incomingOrders, verdicts) && passes == verdicts[0]
      requires |incomingOrders| == |verdicts|
      modifies this, positions, book, book.priceToLevel.Values, book.Buffers()
      modifies incomingOrders[0], book.known`remaining, book.known`filled
      ensures Valid() && incomingOrders == old(incomingOrders)[1..] && book.Renewed()
      ensures |incomingOrders| == |verdicts[1..]| && Queued(incomingOrders, verdicts[1..])
      ensures book.known <= old(book.known) + {old(incomingOrders)[0]}
      ensures accepted + Passed(incomingOrders, verdicts[1..]) == old(accepted + Passed(incomingOrders, verdicts))
      ensures history + Submissions(incomingOrders, verdicts[1..])
              == old(history + Submissions(incomingOrders, verdicts))
      ensures rejectCount + |accepted| + |incomingOrders| == old(rejectCount + |accepted| + |incomingOrders|)
    {
      hide Valid, Queued, Submission, Passed, Submissions, OrderBook.Renewed;
      PassedStep(incomingOrders, verdicts);
      ProcessNext(passes, verdicts);
      SubmissionsKept(verdicts);
    }

    lemma {:induction false} NoneLeft()
      ensures Passed([], []) == [] && Submissions([], []) == []
    {
    }

    /** Works off the queue in order of arrival; verdicts[i] is the risk verdict on its i-th order. */
    method RunMatchCycle(verdicts: seq<bool>)
      requires Valid() && |incomingOrders| == |verdicts| && Queued(incomingOrders, verdicts)
      modifies this, positions, book, book.priceToLevel.Values, book.Buffers()
      modifies incomingOrders, book.known`remaining, book.known`filled
      ensures Valid() && incomingOrders == []
      ensures accepted == old(accepted) + Passed(old(incomingOrders), verdicts)
      ensures history == old(history) + old(Submissions(incomingOrders, verdicts))
      ensures rejectCount + |accepted| == old(rejectCount + |accepted| + |incomingOrders|)
    {
      hide Valid, Queued, Passed, Submissions;
      var i := 0;
      while incomingOrders != []
        invariant 0 <= i <= |verdicts| && |incomingOrders| == |verdicts[i..]|
        invariant Valid() && Queued(incomingOrders, verdicts[i..])
        invariant book.Renewed() && book.known <= old(book.known) + (set o | o in old(incomingOrders))
        invariant forall o :: o in incomingOrders ==> o in old(incomingOrders)
        invariant accepted + Passed(incomingOrders, verdicts[i..]) == old(accepted + Passed(incomingOrders, verdicts))
        invariant history + Submissions(incomingOrders, verdicts[i..])
                  == old(history + Submissions(incomingOrders, verdicts))
        invariant rejectCount + |accepted| + |incomingOrders| == old(rejectCount + |accepted| + |incomingOrders|)
        decreases |incomingOrders|
      {
        assert verdicts[i..][1..] == verdicts[i + 1..] && incomingOrders[0] in incomingOrders;
        ProcessFirst(verdicts[i], verdicts[i..]);
        i := i + 1;
      }
      NoneLeft();
    }

    // ----- what the invariant means -----

    /** No bid reaches an ask, best price comes first, and equal prices stand in order of arrival. */
    lemma {:induction false} PriceTimeAlways()
      requires Valid()
      ensures Sound(State()) && InTime(history, State().bids) && InTime(history, State().asks)
    {
      RunPriceTime(history);
    }

    /** A symbol's account is what its orders filled, and its position what 64 bits keep of that. */
    lemma {:induction false} PositionOf(symbol: string)
      requires Valid()
      ensures positions.Of(symbol) == Narrow(positions.Account(symbol))
      ensures Tallied(positions.Account(symbol),
                      FilledOn(accepted, SideOf(true, symbol)), FilledOn(accepted, SideOf(false, symbol)))
    {
      hide OrderBook.Valid, SumOn;
      assert Tallied(positions.Account(symbol),
                     SumOn(accepted, Amounts(accepted), SideOf(true, symbol)) + TradedOn([], SideOf(true, symbol)),
                     SumOn(accepted, Amounts(accepted), SideOf(false, symbol)) + TradedOn([], SideOf(false, symbol)));
    }

    /** When all orders trade one symbol its position nets to zero, bought equals sold, and both count every fill. */
    lemma {:induction false} NetsToZero(symbol: string)
      requires Valid() && forall o :: o in accepted ==> Trim(o.symbol) == symbol
      ensures positions.Account(symbol).net == positions.Of(symbol).net == 0
      ensures positions.Of(symbol).bought == positions.Of(symbol).sold == Wrap32(Traded(Trades(history)))
    {
      hide OrderBook.Valid, Reconciles, SumOn;
      PositionOf(symbol);
      OneSymbolSums(accepted, Amounts(accepted), true, symbol);
      OneSymbolSums(accepted, Amounts(accepted), false, symbol);
    }

    /**
     What one symbol's trading with itself comes to. Its cash is minus what the takers conceded, never positive,
     and zero exactly when every fill was at its maker's price; profit is the same at every mark.
     */
    lemma {:induction false} OneSymbolLoses(symbol: string, mark: int64)
      requires Valid() && OneSymbol(accepted, symbol)
      ensures var deals := positions.DealsOf(symbol);
              var total := 0 - TotalConceded(history) + Rounding(deals) + Restated(deals);
              && Cash(deals) == 0 - TotalConceded(history) <= 0
              && (Cash(deals) == 0 <==> AtMakersPrices(history))
              && positions.GetTotalPnl(symbol, mark) == Narrow64(total)
              && (positions.GetTotalPnl(symbol, mark) == total <==> Fits64(total))
    {
      hide *;
      NothingConcededIff(history);
      CashIs(symbol);
      EvenVolumes(symbol);
      PositionsValid();
      positions.PnlAlways(symbol, mark);
      assert mark * 0 == 0;
    }

    lemma {:induction false} EvenVolumes(symbol: string)
      requires Valid() && OneSymbol(accepted, symbol)
      ensures Volume(positions.DealsOf(symbol), true) == Volume(positions.DealsOf(symbol), false)
    {
      NetsToZero(symbol);
      Counters(positions.DealsOf(symbol));
      hide Valid, Positions.After, Volume;
    }

    lemma {:induction false} PositionsValid()
      requires Valid()
      ensures positions.Valid()
    {
    }

    lemma {:induction false} CashIs(symbol: string)
      requires Valid() && OneSymbol(accepted, symbol)
      ensures Cash(positions.DealsOf(symbol)) == 0 - TotalConceded(history)
      ensures forall o :: o in accepted ==> Trim(o.symbol) == symbol
    {
      assert CashIn(positions.deals, symbol) == 0 - TotalConceded(history);
      hide Valid, Cash, TotalConceded;
    }
  }

  lemma {:induction false} OneSymbolSums(orders: seq<Order>, amounts: seq<nat>, isBuy: bool, symbol: string)
    requires |amounts| == |orders| && forall o :: o in orders ==> Trim(o.symbol) == symbol
    ensures SumOn(orders, amounts, SideOf(isBuy, symbol)) == SumOn(orders, amounts, Side(isBuy))
  {
    if orders != [] {
      var n := |orders| - 1;
      OneSymbolSums(orders[..n], amounts[..n], isBuy, symbol);
    }
  }
}
