/** One price level: a 128-slot ring buffer with lazy deletion (price_level.hpp, price_level.cpp). */
module PriceLevels {
  import opened Orders
  import opened FlatBook
  import opened Rings

  /** The successor of a ring index; MAX_ORDERS is a power of two, so masking is taking the remainder. */
  function Next(i: nat): nat {
    (i + 1) % MAX_ORDERS
  }

  /** The ring index `i` steps after `head`. */
  function At(head: nat, i: nat): nat
    requires head < MAX_ORDERS && i <= MAX_ORDERS
  {
    if head + i < MAX_ORDERS then head + i else head + i - MAX_ORDERS
  }

  // ----- the counters of a ring, overfilled or not -----

  datatype Cursor = Cursor(head: nat, tail: nat, size: int) {
    function Pushed(): Cursor {
      Cursor(head, Next(tail), size + 1)
    }

    /** Nothing can be popped while head and tail meet. */
    function Popped(): Cursor {
      if head == tail then this else Cursor(Next(head), tail, size - 1)
    }

    function Distance(): int {
      if head <= tail then tail - head else MAX_ORDERS + tail - head
    }

    predicate InBounds() {
      head < MAX_ORDERS && tail < MAX_ORDERS
    }
  }

  datatype Turn = Push | Pop

  function CursorAfter(turns: seq<Turn>): Cursor {
    if turns == [] then Cursor(0, 0, 0)
    else
      var c := CursorAfter(turns[..|turns| - 1]);
      if turns[|turns| - 1].Push? then c.Pushed() else c.Popped()
  }

  /** How often the tail has come round to the head. */
  function Laps(turns: seq<Turn>): nat {
    if turns == [] then 0
    else
      var before := turns[..|turns| - 1];
      Laps(before)
      + if turns[|turns| - 1].Push? && CursorAfter(turns).head == CursorAfter(turns).tail then 1 else 0
  }

  /** The size is the distance from head to tail and 128 for every lap. */
  lemma {:induction false} SizeCountsLaps(turns: seq<Turn>)
    ensures CursorAfter(turns).InBounds()
    ensures CursorAfter(turns).size == CursorAfter(turns).Distance() + MAX_ORDERS * Laps(turns)
  {
    if turns != [] {
      var before := turns[..|turns| - 1];
      SizeCountsLaps(before);
      DistanceStep(CursorAfter(before));
    }
  }

  lemma {:induction false} DistanceStep(c: Cursor)
    requires c.InBounds()
    ensures c.Pushed().InBounds() && c.Popped().InBounds()
    ensures c.Pushed().Distance()
            == if c.Pushed().head == c.Pushed().tail then c.Distance() + 1 - MAX_ORDERS else c.Distance() + 1
    ensures c.head != c.tail ==> c.Popped().Distance() == c.Distance() - 1
  {
  }

  /** A level is empty exactly when head and tail meet and never met from behind: one that was ever full stays. */
  lemma {:induction false} NeverEmptyAgain(turns: seq<Turn>, more: seq<Turn>)
    ensures Laps(turns) <= Laps(turns + more)
    ensures CursorAfter(turns).size == 0
            <==> Laps(turns) == 0 && CursorAfter(turns).head == CursorAfter(turns).tail
    ensures CursorAfter(turns).size >= MAX_ORDERS <==> Laps(turns) > 0
    ensures CursorAfter(turns).size >= MAX_ORDERS ==> CursorAfter(turns + more).size >= MAX_ORDERS
  {
    LapsGrow(turns, more);
    SizeCountsLaps(turns);
    SizeCountsLaps(turns + more);
    hide CursorAfter, Laps;
  }

  lemma {:induction false} LapsGrow(turns: seq<Turn>, more: seq<Turn>)
    ensures Laps(turns) <= Laps(turns + more)
  {
    if more == [] {
      assert turns + more == turns;
    } else {
      LapsGrow(turns, more[..|more| - 1]);
      assert (turns + more)[..|turns + more| - 1] == turns + more[..|more| - 1];
    }
  }

  class PriceLevel {
    const price: int64
    const buffer: array<Order?>
    var head: nat
    var tail: nat
    var size: nat
    var totalQuantity: uint32

    /** The orders in the occupied slots from head to tail, cancelled ones included. */
    ghost var queue: seq<Order>
    /** What each of those slots stands for. */
    ghost var slots: seq<Slot>

    /** The slots from head to tail hold the queue; with every slot occupied head and tail meet, as in an empty ring. */
    ghost predicate Ring()
      reads `head, `tail, `size, `queue, buffer
    {
      && buffer.Length == MAX_ORDERS
      && head < MAX_ORDERS
      && size == |queue| <= MAX_ORDERS
      && tail == At(head, size)
      && forall i :: 0 <= i < |queue| ==> buffer[At(head, i)] == queue[i]
    }

    /** The queued orders are distinct and priced at the level, and the slots say which of them are live. */
    ghost predicate Items()
      reads `queue, `slots, queue
    {
      && |slots| == |queue|
      && Distinct(queue)
      && (forall i :: 0 <= i < |queue| ==> Item(queue[i], slots[i]))
    }

    ghost predicate Item(o: Order, s: Slot)
      reads o
    {
      s == SlotOf(o) && o.price == price && o.Accounted()
    }

    ghost predicate Valid()
      reads this, buffer, queue
    {
      Ring() && Items() && Unexhausted() && Counted(totalQuantity, slots)
    }

    /** A filled order leaves the ring at once: whatever is still in it has quantity left. */
    ghost predicate Unexhausted()
      reads `queue, queue
    {
      forall i :: 0 <= i < |queue| ==> queue[i].remaining > 0
    }

    /** The live orders of the level in time priority. */
    ghost function LiveOrders(): seq<Resting>
      reads `slots
    {
      LiveOf(slots)
    }

    function Indices(): Cursor
      reads `head, `tail, `size
    {
      Cursor(head, tail, size)
    }

    constructor (price: int64)
      ensures Indices() == CursorAfter([])
      ensures Valid() && this.price == price && queue == [] && fresh(buffer)
    {
      this.price := price;
      buffer := new Order?[MAX_ORDERS](_ => null);
      head, tail, size, totalQuantity := 0, 0, 0, 0;
      queue, slots := [], [];
    }

    predicate Empty()
      reads `size
    {
      size == 0
    }

    /** Every slot is occupied: the ring reads as empty although `size` says otherwise. */
    predicate Full()
      reads `size
    {
      size >= MAX_ORDERS
    }

    /** What one call of the match loop comes to: a full ring offers nothing. */
    ghost function Matched(want: uint32, limit: int64): Outcome
      reads `slots, `size
    {
      if Full() then Outcome([], LiveOrders(), want) else Take(LiveOrders(), want, limit)
    }

    /** The slots that one call of the match loop leaves. */
    ghost function Left(want: uint32): seq<Slot>
      reads `slots, `size
    {
      if Full() then slots else Consumed(slots, want)
    }

    method AddOrder(order: Order)
      requires Valid()
      requires order !in queue && order.price == price && order.Accounted() && order.IsActive()
      modifies this, buffer
      ensures order.remaining == 0 ==> Valid() && queue == old(queue) && slots == old(slots)
      ensures order.remaining > 0 ==> (Valid() <==> !old(Full())) && (old(size) < 128 <==> Valid())
      ensures order.remaining > 0 ==> queue == old(queue) + [order] && slots == old(slots) + [SlotOf(order)]
      ensures order.remaining > 0 ==> LiveOrders() == old(LiveOrders()) + [Resting(order, price, order.remaining)]
      ensures size == old(size) + if order.remaining > 0 then 1 else 0
      ensures order.remaining > 0 && old(Full()) ==> head < buffer.Length && buffer[head] == order && tail == Next(head)
    {
      if order.remaining == 0 {
        return;
      }
      AppendLive(totalQuantity, slots, Resting(order, price, order.remaining));
      totalQuantity := Wrap32(totalQuantity + order.remaining);
      PushSlot(order);
    }

    /** Writes the slot at the tail; in a full ring that is the slot of the oldest order. */
    method PushSlot(order: Order)
      requires Ring()
      modifies this`tail, this`size, this`queue, this`slots, buffer
      ensures queue == old(queue) + [order] && slots == old(slots) + [SlotOf(order)] && size == old(size) + 1
      ensures !old(Full()) ==> Ring()
      ensures old(Full()) ==> buffer[head] == order && tail == Next(head)
      ensures Indices() == old(Indices()).Pushed()
    {
      buffer[tail] := order;
      tail := Next(tail);
      size := size + 1;
      queue, slots := queue + [order], slots + [SlotOf(order)];
    }

    /** Drops the slot at the head of the ring. */
    method PopHead()
      requires Ring() && queue != [] && |slots| == |queue|
      modifies this`head, this`size, this`queue, this`slots, buffer
      ensures Ring() && queue == old(queue)[1..] && slots == old(slots)[1..]
      ensures old(Items()) ==> Items()
      ensures old(Unexhausted()) ==> Unexhausted()
      ensures old(!Full()) ==> Indices() == old(Indices()).Popped()
    {
      buffer[head] := null;
      head := Next(head);
      size := size - 1;
      queue, slots := queue[1..], slots[1..];
      assert forall i :: 0 <= i < |queue| ==> At(head, i) == At(old(head), i + 1);
    }

    /** The ring lost nothing but dead orders and gained none. */
    ghost predicate Shed(before: seq<Order>)
      reads `queue, before
    {
      && |queue| <= |before|
      && (forall m :: m in queue ==> m in before)
      && (forall m :: m in before && m !in queue ==> SlotOf(m).Dead?)
    }

    /** Cleans cancelled slots off the head: exactly the leading dead slots go, and none of a full ring. */
    method Advance()
      requires Valid()
      modifies `head, `size, `queue, `slots, buffer
      ensures Valid() && Shed(old(queue)) && LiveOrders() == old(LiveOrders())
      ensures |queue| <= |old(queue)| && queue == old(queue)[|old(queue)| - |queue|..] && Shorn(old(slots), slots)
      ensures old(Full()) ==> head == tail && unchanged(this) && unchanged(buffer)
      ensures !old(Full()) ==> !Full() && (head == tail <==> size == 0)
      ensures size <= old(size)
      ensures head != tail ==> queue != [] && slots[0].Live?
      ensures size == 0 ==> slots == [] && LiveOrders() == []
    {
      hide LiveOf, Total, Shed, Shorn;
      ghost var k := 0;
      while head != tail
        invariant Ring() && Items() && Unexhausted()
        invariant k <= |old(queue)| == |old(slots)| && queue == old(queue)[k..] && slots == old(slots)[k..]
        invariant forall i :: 0 <= i < k ==> old(slots)[i].Dead?
        invariant old(Full()) ==> unchanged(this) && unchanged(buffer)
        decreases size
      {
        var order := buffer[head];
        HeadSlot();
        if order != null && order.IsActive() && order.remaining > 0 {
          break;
        }
        PopHead();
        k := k + 1;
      }
      HeadSlot();
      NothingLive();
      Trimmed(old(queue), old(slots), k);
    }

    /** What is left when k dead slots are gone from the head. */
    lemma {:induction false} Trimmed(before: seq<Order>, was: seq<Slot>, k: nat)
      requires k <= |before| == |was| && queue == before[k..] && slots == was[k..]
      requires forall i :: 0 <= i < k ==> was[i].Dead? && SlotOf(before[i]).Dead?
      ensures Shed(before) && LiveOrders() == LiveOf(was) && Shorn(was, slots)
      ensures |queue| <= |before| && queue == before[|before| - |queue|..]
    {
      SkipDead(was, k);
      ShedBy(before, was, k);
      hide LiveOf;
    }

    /** The slot at the head stands for the order at the head. */
    lemma {:induction false} HeadSlot()
      requires Ring() && Items()
      ensures |slots| == |queue|
      ensures queue != [] ==> buffer[head] == queue[0] && slots[0] == SlotOf(queue[0])
    {
      if queue != [] {
        assert Item(queue[0], slots[0]) && At(head, 0) == head;
      }
    }

    lemma {:induction false} NothingLive()
      ensures slots == [] ==> LiveOrders() == []
    {
    }

    /** A ring that lost some leading dead slots. */
    lemma {:induction false} ShedBy(before: seq<Order>, was: seq<Slot>, k: nat)
      requires k <= |before| == |was| && queue == before[k..]
      requires forall i :: 0 <= i < k ==> was[i].Dead? && SlotOf(before[i]).Dead?
      ensures Shed(before)
    {
      forall i | k <= i < |before| ensures before[i] in queue {
        assert queue[i - k] == before[i];
      }
      forall m | m in before && m !in queue ensures SlotOf(m).Dead? {
        var i :| 0 <= i < |before| && before[i] == m;
      }
    }

    method RemoveOrder(order: Order)
      requires Valid()
      requires order in queue || order.remaining == 0
      modifies this, buffer, order`status
      ensures Valid()
      ensures order.status == if old(order.IsActive()) then Cancelled else old(order.status)
      ensures LiveOrders() == Without(old(LiveOrders()), order)
      ensures Total(LiveOrders()) == old(Total(LiveOrders())) - if old(order.IsActive()) then order.remaining else 0
      ensures Shed(old(queue))
      ensures old(queue) != [] && old(queue)[0] != order ==> queue == old(queue)
      ensures slots == if old(order.IsActive()) then Revoked(old(slots), order) else old(slots)
      ensures old(order.IsActive()) && old(size) < 128 && old(queue) != [] && old(queue)[0] == order ==>
                slots == [] || slots[0].Live?
      ensures order.remaining == 0 ==> size == old(size)
    {
      hide LiveOf, Total;
      if !order.IsActive() {
        DeadNotLive(order);
        return;
      }
      HeadIs(order);
      CancelInPlace(order);
      if head != tail && buffer[head] == order {
        ghost var struck := slots;
        Advance();
        ClearedShorn(struck, slots);
      }
    }

    /** Who stands at the head, by the ring and by its slots. */
    lemma {:induction false} HeadIs(order: Order)
      requires Valid() && order.IsActive() && (order in queue || order.remaining == 0)
      ensures head != tail && buffer[head] == order <==>
                slots != [] && slots[0].Live? && slots[0].resting.order == order && !Crammed(slots)
      ensures head != tail && buffer[head] == order ==> queue != [] && queue[0] == order
    {
      if queue != [] {
        assert Item(queue[0], slots[0]) && buffer[At(head, 0)] == queue[0];
      }
    }

    /** Marks the order and takes its quantity out of the level total; the slot stays. */
    method CancelInPlace(order: Order)
      requires Valid()
      requires order in queue || order.remaining == 0
      requires order.IsActive()
      modifies `totalQuantity, `slots, order`status
      ensures Valid()
      ensures order.status == Cancelled && slots == Struck(old(slots), order)
      ensures LiveOrders() == Without(old(LiveOrders()), order)
      ensures Total(LiveOrders()) == old(Total(LiveOrders())) - order.remaining
    {
      ghost var after := CancelEffect(order);
      totalQuantity := Wrap32(totalQuantity - order.remaining);
      slots := after;
      order.Cancel();
    }

    lemma {:induction false} CancelEffect(order: Order) returns (after: seq<Slot>)
      requires Items() && Counted(totalQuantity, slots)
      requires order in queue || order.remaining == 0
      requires order.IsActive()
      ensures |after| == |slots|
      ensures forall i :: 0 <= i < |queue| ==> after[i] == if queue[i] == order then Dead else slots[i]
      ensures after == Struck(slots, order)
      ensures LiveOf(after) == Without(LiveOrders(), order)
      ensures Total(LiveOf(after)) == Total(LiveOrders()) - order.remaining
      ensures Counted(Wrap32(totalQuantity - order.remaining), after)
    {
      if order in queue && order.remaining > 0 {
        var k :| 0 <= k < |queue| && queue[k] == order;
        assert Item(queue[k], slots[k]);
        CancelSlot(slots, k);
        CancelSlotCounted(totalQuantity, slots, k);
        after := slots[k := Dead];
      } else {
        after := slots;
        DeadNotLive(order);
      }
      forall i | 0 <= i < |slots| ensures after[i] == Struck(slots, order)[i] {
        assert Item(queue[i], slots[i]);
      }
    }

    lemma {:induction false} QueueAccounted()
      requires Valid()
      ensures forall m :: m in queue ==> m.Accounted()
    {
    }

    /** The live list holds the true price and open quantity of queued, active orders. */
    lemma {:induction false} LiveInQueue()
      requires Items()
      ensures forall r :: r in LiveOrders() ==>
                r.order in queue && r.order.IsActive() && r == Resting(r.order, price, r.order.remaining)
    {
      LiveOfMembers(slots);
      forall r | r in LiveOrders()
        ensures r.order in queue && r.order.IsActive() && r == Resting(r.order, price, r.order.remaining)
      {
        var i :| 0 <= i < |slots| && slots[i] == Live(r);
        assert Item(queue[i], slots[i]);
      }
    }

    /** What is listed has something open. */
    lemma {:induction false} LiveTotal()
      requires Items()
      ensures Total(LiveOrders()) == 0 <==> LiveOrders() == []
    {
      LiveInQueue();
      if LiveOrders() != [] {
        var r := LiveOrders()[0];
        assert r in LiveOrders();
        LiveOfMembers(slots);
        var i :| 0 <= i < |slots| && slots[i] == Live(r);
        assert Item(queue[i], slots[i]);
      }
    }

    lemma {:induction false} TotalTells()
      requires Valid()
      ensures totalQuantity != 0 ==> LiveOrders() != []
      ensures Total(LiveOrders()) < 0x1_0000_0000 ==> (totalQuantity != 0 <==> LiveOrders() != [])
    {
      LiveTotal();
    }

    /** Matching here touches no order queued elsewhere. */
    lemma {:induction false} TakesFromQueue(want: uint32, price: int64)
      requires Items()
      ensures forall m :: m !in queue ==> TakenFrom(Matched(want, price).fills, m) == 0
    {
      LiveInQueue();
      forall m | m !in queue ensures TakenFrom(Matched(want, price).fills, m) == 0 {
        TakeMakers(LiveOrders(), want, price, m);
      }
    }

    lemma {:induction false} DeadNotLive(order: Order)
      requires Items()
      requires order.IsActive() && order.remaining > 0 ==> order !in queue
      ensures Without(LiveOrders(), order) == LiveOrders()
    {
      LiveOfMembers(slots);
      WithoutAbsent(LiveOrders(), order);
    }

    method MatchOrder(incoming: Order, fills: seq<Fill>) returns (rest: Order?, out: seq<Fill>, ghost goal: Outcome)
      requires Valid() && incoming !in queue && incoming.Accounted()
      modifies this, buffer, incoming`remaining, incoming`filled, queue`remaining, queue`filled
      ensures Valid() && incoming.Accounted()
      ensures goal == old(Matched(incoming.remaining, incoming.price))
      ensures out == fills + goal.fills && LiveOrders() == goal.left && incoming.remaining == goal.remaining
      ensures forall m :: m in old(queue) ==> m.Accounted() && m.filled == old(m.filled) + TakenFrom(goal.fills, m)
      ensures Shed(old(queue)) && slots == old(Left(incoming.remaining))
      ensures old(incoming.remaining) > 0 && !old(Full()) ==> incoming.remaining == 0 || size == 0
      ensures old(Full()) ==> unchanged(this) && unchanged(buffer) && unchanged(incoming)
      ensures old(Full()) ==> forall m :: m in queue ==> unchanged(m)
      ensures rest == if incoming.remaining > 0 then incoming else null
    {
      hide Take, Valid, LiveOf, Consumed, Pending, Matched, Left;
      goal := Matched(incoming.remaining, incoming.price);
      ghost var left := Left(incoming.remaining);
      QueueAccounted();
      PendingStart(incoming);
      var done: seq<Fill> := [];
      while incoming.remaining > 0
        invariant Valid() && incoming.Accounted() && Shed(old(queue))
        invariant Pending(done, incoming) == goal && Left(incoming.remaining) == left
        invariant !old(Full()) ==> !Full()
        invariant old(Full()) ==> unchanged(this) && unchanged(buffer) && unchanged(incoming) && done == []
        invariant old(Full()) ==> forall m :: m in old(queue) ==> unchanged(m)
        invariant forall m :: m in old(queue) ==> m.Accounted() && m.filled == old(m.filled) + TakenFrom(done, m)
        decreases size, incoming.remaining
      {
        CleanHead(incoming, done);
        if head == tail {
          break;
        }
        var fill := FillNext(incoming, done, old(queue));
        done := done + [fill];
      }
      PendingDone(done, incoming);
      out := fills + done;
      rest := if incoming.remaining > 0 then incoming else null;
    }

    /** Cleaning the head changes nothing of what is to come. */
    method CleanHead(incoming: Order, ghost done: seq<Fill>)
      requires Valid() && incoming.remaining > 0
      modifies `head, `size, `queue, `slots, buffer
      ensures Valid() && Shed(old(queue))
      ensures Pending(done, incoming) == old(Pending(done, incoming))
      ensures Left(incoming.remaining) == old(Left(incoming.remaining))
      ensures old(Full()) ==> head == tail && unchanged(this) && unchanged(buffer)
      ensures !old(Full()) ==> !Full() && (head == tail <==> size == 0)
      ensures size <= old(size)
      ensures head != tail ==> queue != [] && slots[0].Live?
    {
      hide Take, Valid, LiveOf, Consumed, Prepend;
      Advance();
      ConsumedShorn(old(slots), slots, incoming.remaining);
    }

    lemma {:induction false} PendingStart(incoming: Order)
      ensures Pending([], incoming) == Matched(incoming.remaining, incoming.price)
      ensures forall m :: TakenFrom([], m) == 0
    {
    }

    lemma {:induction false} PendingDone(done: seq<Fill>, incoming: Order)
      requires Valid() && (Full() || size == 0 || incoming.remaining == 0)
      ensures Pending(done, incoming) == Outcome(done, LiveOrders(), incoming.remaining)
      ensures Left(incoming.remaining) == slots
    {
      if !Full() {
        TakeDone(done, LiveOrders(), incoming.remaining, incoming.price);
        ConsumedDone(slots, incoming.remaining);
      } else {
        assert done + [] == done;
      }
    }

    /** The outcome still to be reached once `done` has been filled. */
    ghost function Pending(done: seq<Fill>, incoming: Order): Outcome
      reads `slots, `size, incoming
    {
      Prepend(done, Matched(incoming.remaining, incoming.price))
    }

    /** The body of the match loop: Advance stopped at a live order, so the skip branch of the source is dead. */
    method FillNext(incoming: Order, ghost done: seq<Fill>, ghost makers: seq<Order>) returns (fill: Fill)
      requires Valid() && queue != [] && slots[0].Live? && !Full()
      requires incoming !in makers && incoming.Accounted() && incoming.remaining > 0
      requires Shed(makers)
      modifies this, buffer, incoming`remaining, incoming`filled, makers`remaining, makers`filled
      ensures Valid() && incoming.Accounted()
      ensures Pending(done + [fill], incoming) == old(Pending(done, incoming))
      ensures Left(incoming.remaining) == old(Left(incoming.remaining))
      ensures Shed(makers)
      ensures incoming.remaining < old(incoming.remaining)
      ensures size <= old(size) && (size == old(size) ==> incoming.remaining == 0)
      ensures forall m :: m in makers ==>
                && (old(m.Accounted()) ==> m.Accounted())
                && TakenFrom(done + [fill], m) - TakenFrom(done, m) == m.filled - old(m.filled)
    {
      hide Valid, Pending, Left, LiveOf, Take, Consumed;
      HeadLive();
      var current := buffer[head];
      assert current in queue;
      fill := FillDue(current, incoming, done);
      AppendFill(done, fill);
    }

    lemma {:induction false} HeadLive()
      requires Valid() && queue != [] && slots[0].Live?
      ensures head < buffer.Length && buffer[head] == queue[0] && queue[0].IsActive() && |queue| == size
    {
      assert Item(queue[0], slots[0]) && At(head, 0) == head;
    }

    /** A fill at the head, in view of what is still to come. */
    method FillDue(current: Order, incoming: Order, ghost done: seq<Fill>) returns (fill: Fill)
      requires Valid() && queue != [] && queue[0] == current && current.IsActive() && !Full()
      requires incoming !in queue && incoming.Accounted() && incoming.remaining > 0
      modifies this, buffer, incoming`remaining, incoming`filled, current`remaining, current`filled
      ensures Valid() && incoming.Accounted() && current.Accounted() && |queue| == size
      ensures Pending(done + [fill], incoming) == old(Pending(done, incoming))
      ensures Left(incoming.remaining) == old(Left(incoming.remaining))
      ensures fill.order == current && fill.quantity > 0
      ensures incoming.remaining == old(incoming.remaining) - fill.quantity
      ensures current.filled == old(current.filled) + fill.quantity
      ensures queue == if current.remaining == 0 then old(queue)[1..] else old(queue)
      ensures current.remaining == 0 || incoming.remaining == 0
    {
      hide Take, Consumed, LiveOf;
      assert Item(queue[0], slots[0]);
      LiveFirst();
      TakeStep(done, LiveOrders(), incoming.remaining, incoming.price);
      ConsumedStep(slots, incoming.remaining, Min(current.remaining, incoming.remaining));
      fill := FillHead(current, incoming);
    }

    lemma {:induction false} LiveFirst()
      ensures slots != [] && slots[0].Live? ==> LiveOrders() != [] && LiveOrders()[0] == slots[0].resting
    {
    }

    /** One fill against the live order at the head. */
    method FillHead(current: Order, incoming: Order) returns (fill: Fill)
      requires Valid() && queue != [] && queue[0] == current && current.IsActive()
      requires incoming !in queue && incoming.Accounted() && incoming.remaining > 0
      modifies this, buffer, incoming`remaining, incoming`filled, current`remaining, current`filled
      ensures Valid() && incoming.Accounted()
      ensures fill == Fill(current, Min(old(current.remaining), old(incoming.remaining)), incoming.price)
      ensures incoming.remaining == old(incoming.remaining) - fill.quantity
      ensures current.remaining == old(current.remaining) - fill.quantity && current.Accounted()
      ensures current.filled == old(current.filled) + fill.quantity
      ensures queue == if current.remaining == 0 then old(queue)[1..] else old(queue)
      ensures |old(slots)| == |old(queue)| && old(slots)[0] == Live(Resting(current, price, old(current.remaining)))
      ensures slots == if current.remaining == 0 then old(slots)[1..] else old(slots)[0 := SlotOf(current)]
      ensures old(LiveOrders()) != [] && LiveOrders() == GiveFront(old(LiveOrders()), fill.quantity)
    {
      assert Item(queue[0], slots[0]);
      fill := Exchange(current, incoming);
      if current.remaining == 0 {
        SkipDead(slots, 1);
        PopHead();
      }
    }

    method Exchange(current: Order, incoming: Order) returns (fill: Fill)
      requires Valid() && queue != [] && queue[0] == current && current.IsActive()
      requires incoming !in queue && incoming.Accounted() && incoming.remaining > 0
      modifies this`totalQuantity, this`slots, incoming`remaining, incoming`filled, current`remaining, current`filled
      ensures Items() && Counted(totalQuantity, slots) && incoming.Accounted()
      ensures fill == Fill(current, Min(old(current.remaining), old(incoming.remaining)), incoming.price)
      ensures incoming.remaining == old(incoming.remaining) - fill.quantity
      ensures current.remaining == old(current.remaining) - fill.quantity
      ensures slots == old(slots)[0 := SlotOf(current)]
    {
      var quantity := Min(current.remaining, incoming.remaining);
      fill := Fill(current, quantity, incoming.price);
      assert Item(queue[0], slots[0]);
      ReduceFront(totalQuantity, slots, quantity);

      current.remaining := current.remaining - quantity;
      incoming.remaining := incoming.remaining - quantity;
      current.filled := current.filled + quantity;
      incoming.filled := incoming.filled + quantity;
      totalQuantity := Wrap32(totalQuantity - quantity);
      slots := slots[0 := SlotOf(current)];
    }
  }
}
