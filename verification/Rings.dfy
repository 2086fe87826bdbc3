/**
 What the operations do to the ring slots, cancelled ones included: the exact contents of every level after a
 match, a new order or a cancel.
 */
module Rings {
  import opened Orders
  import opened FlatBook

  const MAX_ORDERS: nat := 128

  predicate Crammed(slots: seq<Slot>) {
    |slots| >= MAX_ORDERS
  }

  // ----- one ring -----

  /** What matching leaves: dead slots go only while something is still wanted. */
  function Consumed(slots: seq<Slot>, want: nat): seq<Slot> {
    if slots == [] || want == 0 then slots
    else if slots[0].Dead? then Consumed(slots[1..], want)
    else if slots[0].resting.remaining <= want then Consumed(slots[1..], want - slots[0].resting.remaining)
    else [Reduce(slots[0], want)] + slots[1..]
  }

  /** The slots are what is left after some leading dead ones are gone. */
  ghost predicate Shorn(before: seq<Slot>, slots: seq<Slot>) {
    && |slots| <= |before|
    && slots == before[|before| - |slots|..]
    && forall i :: 0 <= i < |before| - |slots| ==> before[i].Dead?
  }

  lemma {:induction false} ConsumedShorn(before: seq<Slot>, slots: seq<Slot>, want: nat)
    requires Shorn(before, slots) && want > 0
    ensures Consumed(before, want) == Consumed(slots, want)
  {
    if |slots| < |before| {
      assert slots == before[1..][|before| - 1 - |slots|..];
      assert forall i :: 0 <= i < |before| - 1 - |slots| ==> before[1..][i] == before[i + 1];
      ConsumedShorn(before[1..], slots, want);
    } else {
      assert slots == before;
    }
  }

  lemma {:induction false} ConsumedDone(slots: seq<Slot>, want: nat)
    requires slots == [] || want == 0
    ensures Consumed(slots, want) == slots
  {
  }

  /** One fill of the live slot at the head. */
  lemma {:induction false} ConsumedStep(slots: seq<Slot>, want: nat, q: uint32)
    requires slots != [] && slots[0].Live? && 0 < slots[0].resting.remaining
    requires 0 < want && q == if slots[0].resting.remaining <= want then slots[0].resting.remaining else want
    ensures Consumed(slots, want)
            == Consumed(if q == slots[0].resting.remaining then slots[1..] else slots[0 := Reduce(slots[0], q)],
                        want - q)
  {
    if q < slots[0].resting.remaining {
      assert slots[0 := Reduce(slots[0], q)] == [Reduce(slots[0], q)] + slots[1..];
    }
  }

  /** The order's slot is dead, the others are as they were. */
  function Struck(slots: seq<Slot>, o: Order): (now: seq<Slot>)
    ensures |now| == |slots|
  {
    seq(|slots|, i requires 0 <= i < |slots| =>
      if slots[i].Live? && slots[i].resting.order == o then Dead else slots[i])
  }

  /** Without the dead slots at the head. */
  function Cleared(slots: seq<Slot>): seq<Slot> {
    if slots != [] && slots[0].Dead? then Cleared(slots[1..]) else slots
  }

  lemma {:induction false} ClearedShorn(before: seq<Slot>, slots: seq<Slot>)
    requires Shorn(before, slots) && (slots != [] ==> slots[0].Live?)
    ensures Cleared(before) == slots
  {
    if |slots| < |before| {
      assert slots == before[1..][|before| - 1 - |slots|..];
      assert forall i :: 0 <= i < |before| - 1 - |slots| ==> before[1..][i] == before[i + 1];
      ClearedShorn(before[1..], slots);
    } else {
      assert slots == before;
    }
  }

  /** Cancelling the order at the head cleans up behind it; any other slot stays, dead, where it is. */
  function Revoked(slots: seq<Slot>, o: Order): seq<Slot> {
    if slots != [] && slots[0].Live? && slots[0].resting.order == o && !Crammed(slots) then Cleared(Struck(slots, o))
    else Struck(slots, o)
  }

  /** What that comes to: the slot dies, and if it was at the head, exactly the dead slots before a live one go. */
  lemma {:induction false} RevokedIs(slots: seq<Slot>, o: Order)
    ensures if slots != [] && slots[0].Live? && slots[0].resting.order == o && |slots| < 128
            then Shorn(Struck(slots, o), Revoked(slots, o))
                 && (Revoked(slots, o) == [] || Revoked(slots, o)[0].Live?)
            else Revoked(slots, o) == Struck(slots, o)
  {
    ClearedIs(Struck(slots, o));
  }

  lemma {:induction false} ClearedIs(slots: seq<Slot>)
    ensures Shorn(slots, Cleared(slots)) && (Cleared(slots) == [] || Cleared(slots)[0].Live?)
  {
    if slots != [] && slots[0].Dead? {
      ClearedIs(slots[1..]);
      var left := Cleared(slots);
      assert left == slots[1..][|slots| - 1 - |left|..] == slots[|slots| - |left|..];
      assert forall i :: 0 < i < |slots| - |left| ==> slots[i] == slots[1..][i - 1];
    } else {
      assert slots[0..] == slots;
    }
  }

  /** The back of the ring from slot k on, or the same with the first of it reduced. */
  ghost predicate BackFrom(slots: seq<Slot>, k: nat, left: seq<Slot>) {
    && k <= |slots|
    && (left == slots[k..]
        || (k < |slots| && left != [] && left[1..] == slots[k + 1..] && slots[k].Live? && left[0].Live?
            && left[0].resting.order == slots[k].resting.order))
  }

  /** What matching leaves is the back of the ring; a dead slot comes first only behind one that was used up. */
  lemma {:induction false} ConsumedIs(slots: seq<Slot>, want: nat) returns (k: nat)
    ensures BackFrom(slots, k, Consumed(slots, want))
    ensures want == 0 ==> k == 0
    ensures want > 0 && k < |slots| && slots[k].Dead? ==> k > 0 && slots[k - 1].Live?
  {
    k := 0;
    if slots == [] || want == 0 {
      assert slots[0..] == slots;
    } else if slots[0].Dead? || slots[0].resting.remaining <= want {
      var j := ConsumedIs(slots[1..], if slots[0].Dead? then want else want - slots[0].resting.remaining);
      k := j + 1;
      hide Consumed;
      assert slots[1..][j..] == slots[k..];
      assert j < |slots[1..]| ==> slots[1..][j] == slots[k] && slots[1..][j + 1..] == slots[k + 1..];
    }
  }

  // ----- one side -----

  datatype Ring = Ring(price: int64, slots: seq<Slot>)

  /** What a sweep leaves of the other side: emptied rings are gone, and a full one is not touched. */
  function Swept(takerBuys: bool, limit: int64, side: seq<Ring>, want: int): seq<Ring> {
    if side == [] || want <= 0 || !Crosses(takerBuys, limit, side[0].price) || Crammed(side[0].slots) then side
    else
      var left := Consumed(side[0].slots, want);
      if left == [] then Swept(takerBuys, limit, side[1..], want - Total(LiveOf(side[0].slots)))
      else [Ring(side[0].price, left)] + side[1..]
  }

  /** One turn at the front: what it leaves is going to be swept to what the whole was. */
  lemma {:induction false} SweptTurn(
      takerBuys: bool, limit: int64, front: Ring, rest: seq<Ring>, want: int, left: seq<Slot>, still: int)
    requires want > 0 && Crosses(takerBuys, limit, front.price)
    requires if Crammed(front.slots) then left == front.slots && still == want
             else left == Consumed(front.slots, want)
                  && still == if left == [] then want - Total(LiveOf(front.slots)) else 0
    ensures Swept(takerBuys, limit, if left == [] then rest else [Ring(front.price, left)] + rest, still)
            == Swept(takerBuys, limit, [front] + rest, want)
  {
    assert ([front] + rest)[1..] == rest;
    hide Consumed, LiveOf, Total;
  }

  /** A slot joins the back of the ring of its price, or starts one at its place. */
  function Lodged(isBid: bool, side: seq<Ring>, price: int64, slot: Slot): seq<Ring> {
    if side == [] || Better(isBid, price, side[0].price) then [Ring(price, [slot])] + side
    else if side[0].price == price then [Ring(price, side[0].slots + [slot])] + side[1..]
    else [side[0]] + Lodged(isBid, side[1..], price, slot)
  }

  lemma {:induction false} LodgedAt(isBid: bool, side: seq<Ring>, k: nat, price: int64, slot: Slot)
    requires k < |side| && side[k].price == price
    requires forall i :: 0 <= i < k ==> Better(isBid, side[i].price, price)
    ensures Lodged(isBid, side, price, slot) == side[k := Ring(price, side[k].slots + [slot])]
  {
    if k > 0 {
      LodgedAt(isBid, side[1..], k - 1, price, slot);
      SetBehind(side, k, Ring(price, side[k].slots + [slot]));
    }
  }

  /** An empty ring started for the slot first makes no difference. */
  lemma {:induction false} LodgedNew(isBid: bool, side: seq<Ring>, k: nat, price: int64, slot: Slot)
    requires k <= |side|
    requires forall i :: 0 <= i < k ==> Better(isBid, side[i].price, price)
    requires k < |side| ==> Better(isBid, price, side[k].price)
    ensures Lodged(isBid, side, price, slot) == side[..k] + [Ring(price, [slot])] + side[k..]
    ensures Lodged(isBid, side[..k] + [Ring(price, [])] + side[k..], price, slot)
            == side[..k] + [Ring(price, [slot])] + side[k..]
  {
    var begun := side[..k] + [Ring(price, [])] + side[k..];
    LodgedAt(isBid, begun, k, price, slot);
    assert [] + [slot] == [slot];
    assert begun[k := Ring(price, [slot])] == side[..k] + [Ring(price, [slot])] + side[k..];
    LodgedBefore(isBid, side, k, price, slot);
  }

  lemma {:induction false} LodgedBefore(isBid: bool, side: seq<Ring>, k: nat, price: int64, slot: Slot)
    requires k <= |side|
    requires forall i :: 0 <= i < k ==> Better(isBid, side[i].price, price)
    requires k < |side| ==> Better(isBid, price, side[k].price)
    ensures Lodged(isBid, side, price, slot) == side[..k] + [Ring(price, [slot])] + side[k..]
  {
    if k > 0 {
      LodgedBefore(isBid, side[1..], k - 1, price, slot);
      PutBehind(side, k, Ring(price, [slot]));
    }
  }

  /** A cancel at its price; a ring left without slots is gone. */
  function Pruned(side: seq<Ring>, price: int64, o: Order): seq<Ring> {
    if side == [] then []
    else if side[0].price != price then [side[0]] + Pruned(side[1..], price, o)
    else
      var left := Revoked(side[0].slots, o);
      if left == [] then side[1..] else [Ring(price, left)] + side[1..]
  }

  lemma {:induction false} PrunedAt(side: seq<Ring>, k: nat, price: int64, o: Order)
    requires k < |side| && side[k].price == price
    requires forall i :: 0 <= i < k ==> side[i].price != price
    ensures var left := Revoked(side[k].slots, o);
            Pruned(side, price, o)
            == if left == [] then side[..k] + side[k + 1..] else side[k := Ring(price, left)]
  {
    hide Revoked;
    if k > 0 {
      PrunedAt(side[1..], k - 1, price, o);
      CutBehind(side, k);
      SetBehind(side, k, Ring(price, Revoked(side[k].slots, o)));
    }
  }

  lemma {:induction false} PutBehind<T>(s: seq<T>, k: nat, x: T)
    requires 0 < k <= |s|
    ensures s[..k] + [x] + s[k..] == [s[0]] + (s[1..][..k - 1] + [x] + s[1..][k - 1..])
  {
    assert s[1..][..k - 1] == s[1..k] && s[1..][k - 1..] == s[k..];
    assert s[..k] == [s[0]] + s[1..k];
  }

  lemma {:induction false} CutBehind<T>(s: seq<T>, k: nat)
    requires 0 < k < |s|
    ensures s[..k] + s[k + 1..] == [s[0]] + (s[1..][..k - 1] + s[1..][k..])
  {
    assert s[1..][..k - 1] == s[1..k] && s[1..][k..] == s[k + 1..];
    assert s[..k] == [s[0]] + s[1..k];
  }

  lemma {:induction false} SetBehind<T>(s: seq<T>, k: nat, x: T)
    requires 0 < k < |s|
    ensures s[k := x] == [s[0]] + s[1..][k - 1 := x]
  {
  }

  lemma {:induction false} PrunedElsewhere(side: seq<Ring>, price: int64, o: Order)
    requires forall i :: 0 <= i < |side| ==> side[i].price != price
    ensures Pruned(side, price, o) == side
  {
    if side != [] {
      PrunedElsewhere(side[1..], price, o);
    }
  }

  /** Revoking in every ring of the price, and then dropping the one that is left empty, is pruning. */
  lemma {:induction false} PrunedIs(side: seq<Ring>, now: seq<Ring>, price: int64, o: Order)
    requires |now| == |side| && forall i, j :: 0 <= i < j < |side| ==> side[i].price != side[j].price
    requires forall i :: 0 <= i < |side| ==>
               now[i] == if side[i].price == price then Ring(price, Revoked(side[i].slots, o)) else side[i]
    ensures (forall i :: 0 <= i < |now| && side[i].price == price ==> now[i].slots != []) ==>
              Pruned(side, price, o) == now
    ensures forall k :: 0 <= k < |now| && now[k].slots == [] && side[k].price == price ==>
              Pruned(side, price, o) == now[..k] + now[k + 1..]
  {
    if k :| 0 <= k < |side| && side[k].price == price {
      hide Revoked;
      PrunedAt(side, k, price, o);
      assert now[..k] == side[..k] && now[k + 1..] == side[k + 1..];
      assert now == side[k := now[k]];
    } else {
      PrunedElsewhere(side, price, o);
      assert now == side;
    }
  }

  function Views(side: seq<Ring>): seq<LevelView> {
    seq(|side|, i requires 0 <= i < |side| => LevelView(side[i].price, LiveOf(side[i].slots)))
  }
}
