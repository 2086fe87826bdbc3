/** Orders, fills, and the value a ring slot stands for (order.hpp, fill.hpp). */
module Orders {

  type uint32 = x: int | 0 <= x < 0x1_0000_0000
  type uint64 = x: int | 0 <= x < 0x1_0000_0000_0000_0000
  type int64 = x: int | -0x8000_0000_0000_0000 <= x < 0x8000_0000_0000_0000

  const INT64_MAX: int64 := 0x7FFF_FFFF_FFFF_FFFF

  /** What a 32-bit unsigned counter holds after a computation whose exact result is x. */
  function Wrap32(x: int): uint32 {
    x % 0x1_0000_0000
  }

  /** Counting in wrapped arithmetic loses nothing but the wrap. */
  lemma {:induction false} WrapStep(x: int, d: int)
    ensures Wrap32(Wrap32(x) + d) == Wrap32(x + d)
  {
  }

  lemma {:induction false} WrapAdd(x: int, y: int)
    ensures Wrap32(Wrap32(x) + Wrap32(y)) == Wrap32(x + y)
  {
  }

  /** A counter kept by wrapped differences of another wrapped counter still counts right. */
  lemma {:induction false} WrapDifference(all: int, before: int, after: int)
    ensures Wrap32(Wrap32(all) - Wrap32(Wrap32(before) - Wrap32(after))) == Wrap32(all - before + after)
  {
  }

  /** No price is beyond the one a market buy is sent in at. */
  lemma {:induction false} Int64Max(x: int64)
    ensures x <= INT64_MAX
  {
  }

  datatype OrderType = Limit | Market | Ioc | Fok

  datatype OrderStatus = New | Partial | Filled | Cancelled | Rejected

  class Order {
    const id: uint64
    const symbol: string
    const isBuy: bool
    const quantity: uint32
    var orderType: OrderType
    var status: OrderStatus
    var price: int64
    var filled: uint32
    var remaining: uint32

    constructor (id: uint64, symbol: string, isBuy: bool, orderType: OrderType, price: int64, quantity: uint32)
      ensures this.id == id && this.symbol == symbol && this.isBuy == isBuy && this.quantity == quantity
      ensures this.orderType == orderType && this.price == price
      ensures status == New && filled == 0 && remaining == quantity
    {
      this.id, this.symbol, this.isBuy, this.quantity := id, symbol, isBuy, quantity;
      this.orderType, this.price := orderType, price;
      status, filled, remaining := New, 0, quantity;
    }

    predicate IsActive()
      reads this
    {
      status == New || status == Partial
    }

    /** Whatever is done with, or was never let in, is not active. */
    lemma {:induction false} DoneNotActive()
      ensures !IsActive() <==> status in {Filled, Cancelled, Rejected}
    {
    }

    /** Nothing is lost between the two running quantities. */
    predicate Accounted()
      reads this
    {
      filled + remaining == quantity
    }

    method Cancel()
      modifies `status
      ensures status == Cancelled
    {
      status := Cancelled;
    }
  }

  /** One execution against a resting order; `order` is the maker. */
  datatype Fill = Fill(order: Order, quantity: uint32, price: int64)

  /** A live order as the flat price-time list sees it. */
  datatype Resting = Resting(order: Order, price: int64, remaining: uint32)

  /** A ring slot: a live order, or one cancelled in place and not yet skipped. */
  datatype Slot = Dead | Live(resting: Resting)

  function SlotOf(o: Order): Slot
    reads o
  {
    if o.IsActive() && o.remaining > 0 then Live(Resting(o, o.price, o.remaining)) else Dead
  }

  /** The live orders among the slots, in slot order. */
  function LiveOf(s: seq<Slot>): seq<Resting> {
    if s == [] then []
    else if s[0].Live? then [s[0].resting] + LiveOf(s[1..])
    else LiveOf(s[1..])
  }

  /** The exact quantity resting in a list. */
  function Total(rs: seq<Resting>): nat {
    if rs == [] then 0 else rs[0].remaining + Total(rs[1..])
  }

  /** The exact quantity traded by a list of fills. */
  function Traded(fills: seq<Fill>): nat {
    if fills == [] then 0 else fills[0].quantity + Traded(fills[1..])
  }

  /** How much of one maker a list of fills takes. */
  function TakenFrom(fills: seq<Fill>, o: Order): nat {
    if fills == [] then 0
    else (if fills[0].order == o then fills[0].quantity else 0) + TakenFrom(fills[1..], o)
  }

  lemma {:induction false} LiveOfConcat(a: seq<Slot>, b: seq<Slot>)
    ensures LiveOf(a + b) == LiveOf(a) + LiveOf(b)
  {
    if a == [] {
      assert a + b == b;
    } else {
      assert (a + b)[1..] == a[1..] + b;
      LiveOfConcat(a[1..], b);
    }
  }

  lemma {:induction false} TotalConcat(a: seq<Resting>, b: seq<Resting>)
    ensures Total(a + b) == Total(a) + Total(b)
  {
    if a == [] {
      assert a + b == b;
    } else {
      assert (a + b)[1..] == a[1..] + b;
      TotalConcat(a[1..], b);
    }
  }

  lemma {:induction false} AppendFill(fills: seq<Fill>, f: Fill)
    ensures forall m :: TakenFrom(fills + [f], m) == TakenFrom(fills, m) + if f.order == m then f.quantity else 0
  {
    TradedConcat(fills, [f]);
    forall m: Order ensures TakenFrom([f], m) == if f.order == m then f.quantity else 0 {
      assert [f][1..] == [];
    }
  }

  lemma {:induction false} TradedConcat(a: seq<Fill>, b: seq<Fill>)
    ensures Traded(a + b) == Traded(a) + Traded(b)
    ensures forall o :: TakenFrom(a + b, o) == TakenFrom(a, o) + TakenFrom(b, o)
  {
    if a == [] {
      assert a + b == b;
    } else {
      assert (a + b)[1..] == a[1..] + b;
      TradedConcat(a[1..], b);
    }
  }

  /** A live order entering at the back of the queue. */
  lemma {:induction false} AppendLive(total: uint32, s: seq<Slot>, r: Resting)
    requires Counted(total, s)
    ensures LiveOf(s + [Live(r)]) == LiveOf(s) + [r]
    ensures Counted(Wrap32(total + r.remaining), s + [Live(r)])
  {
    LiveOfConcat(s, [Live(r)]);
    assert LiveOf([Live(r)]) == [r];
    TotalConcat(LiveOf(s), [r]);
    assert Total([r]) == r.remaining;
    WrapStep(Total(LiveOf(s)), r.remaining);
  }

  lemma {:induction false} LiveOfAllDead(s: seq<Slot>)
    requires forall i :: 0 <= i < |s| ==> s[i].Dead?
    ensures LiveOf(s) == []
  {
    if s != [] {
      LiveOfAllDead(s[1..]);
    }
  }

  /** Skipping cancelled slots at the head changes nothing. */
  lemma {:induction false} SkipDead(s: seq<Slot>, k: nat)
    requires k <= |s| && forall i :: 0 <= i < k ==> s[i].Dead?
    ensures LiveOf(s[k..]) == LiveOf(s)
  {
    LiveOfAllDead(s[..k]);
    LiveOfConcat(s[..k], s[k..]);
    assert s == s[..k] + s[k..];
  }

  /** A 32-bit running total agrees with the slots, up to the wrap. */
  ghost predicate Counted(total: uint32, s: seq<Slot>) {
    total == Wrap32(Total(LiveOf(s)))
  }

  /** The slot left when the live order at the head gives up `q`. */
  function Reduce(s: Slot, q: uint32): Slot
    requires s.Live? && q <= s.resting.remaining
  {
    if q == s.resting.remaining then Dead else Live(s.resting.(remaining := s.resting.remaining - q))
  }

  lemma {:induction false} ReduceFront(total: uint32, s: seq<Slot>, q: uint32)
    requires s != [] && s[0].Live? && q <= s[0].resting.remaining && Counted(total, s)
    ensures Counted(Wrap32(total - q), s[0 := Reduce(s[0], q)])
  {
    var s' := s[0 := Reduce(s[0], q)];
    assert s'[1..] == s[1..];
    assert LiveOf(s)[1..] == LiveOf(s[1..]);
    assert Total(LiveOf(s')) == Total(LiveOf(s)) - q by {
      if q < s[0].resting.remaining {
        assert LiveOf(s')[1..] == LiveOf(s[1..]);
      }
    }
    WrapStep(Total(LiveOf(s)), 0 - q);
  }

  ghost predicate Distinct(q: seq<Order>) {
    forall i, j :: 0 <= i < j < |q| ==> q[i] != q[j]
  }

  /** The list without one order. */
  function Without(rs: seq<Resting>, o: Order): seq<Resting> {
    if rs == [] then []
    else if rs[0].order == o then Without(rs[1..], o)
    else [rs[0]] + Without(rs[1..], o)
  }

  lemma {:induction false} WithoutConcat(a: seq<Resting>, b: seq<Resting>, o: Order)
    ensures Without(a + b, o) == Without(a, o) + Without(b, o)
  {
    if a == [] {
      assert a + b == b;
    } else {
      assert (a + b)[1..] == a[1..] + b;
      WithoutConcat(a[1..], b, o);
    }
  }

  lemma {:induction false} WithoutAbsent(rs: seq<Resting>, o: Order)
    requires forall r :: r in rs ==> r.order != o
    ensures Without(rs, o) == rs
  {
    if rs != [] {
      WithoutAbsent(rs[1..], o);
    }
  }

  /** Cancelling slot k in place is removing its order from the live list. */
  lemma {:induction false} CancelSlot(s: seq<Slot>, k: nat)
    requires k < |s| && s[k].Live?
    requires forall i :: 0 <= i < |s| && i != k && s[i].Live? ==> s[i].resting.order != s[k].resting.order
    ensures LiveOf(s[k := Dead]) == Without(LiveOf(s), s[k].resting.order)
    ensures Total(LiveOf(s[k := Dead])) == Total(LiveOf(s)) - s[k].resting.remaining
  {
    var t := s[1..];
    if k == 0 {
      LiveOfMembers(t);
      WithoutAbsent(LiveOf(t), s[0].resting.order);
      assert s[0 := Dead][1..] == t;
      assert LiveOf(s)[1..] == LiveOf(t);
    } else {
      CancelSlot(t, k - 1);
      assert s[k := Dead][1..] == t[k - 1 := Dead];
      if s[0].Live? {
        assert LiveOf(s)[1..] == LiveOf(t);
        assert LiveOf(s[k := Dead])[1..] == LiveOf(t[k - 1 := Dead]);
      }
    }
  }

  lemma {:induction false} CancelSlotCounted(total: uint32, s: seq<Slot>, k: nat)
    requires k < |s| && s[k].Live? && Counted(total, s)
    requires forall i :: 0 <= i < |s| && i != k && s[i].Live? ==> s[i].resting.order != s[k].resting.order
    ensures Counted(Wrap32(total - s[k].resting.remaining), s[k := Dead])
  {
    CancelSlot(s, k);
    WrapStep(Total(LiveOf(s)), 0 - s[k].resting.remaining);
  }

  /** The live orders are exactly the live slots. */
  lemma {:induction false} LiveOfMembers(s: seq<Slot>)
    ensures forall i :: 0 <= i < |s| && s[i].Live? ==> s[i].resting in LiveOf(s)
    ensures forall r :: r in LiveOf(s) ==> Live(r) in s
  {
    if s != [] {
      LiveOfMembers(s[1..]);
      assert s == [s[0]] + s[1..];
    }
  }
}
