/**
 The specification the order book is held to: each side is one flat list of live orders, best price
 first and oldest first within a price, and an incoming order takes from the front of the other list.
 Nothing here knows about levels, rings, lazy deletion, maps or counters.
 */
module FlatBook {
  import opened Orders

  /** What an incoming order leaves behind: its fills, the other side's list, its own open quantity. */
  datatype Outcome = Outcome(fills: seq<Fill>, left: seq<Resting>, remaining: uint32)

  function Prepend(fills: seq<Fill>, o: Outcome): Outcome {
    o.(fills := fills + o.fills)
  }

  lemma {:induction false} PrependAssoc(a: seq<Fill>, b: seq<Fill>, o: Outcome)
    ensures Prepend(a + b, o) == Prepend(a, Prepend(b, o))
  {
  }

  lemma {:induction false} PrependEnds(fills: seq<Fill>, o: Outcome)
    ensures Prepend([], o) == o
    ensures Prepend(fills, Outcome([], o.left, o.remaining)) == Outcome(fills, o.left, o.remaining)
    ensures forall m :: TakenFrom([], m) == 0
  {
  }

  function Min(a: uint32, b: uint32): uint32 {
    if a <= b then a else b
  }

  /** Takes `want` from the front of the list whatever the prices; every fill is struck at `price`. */
  function Take(list: seq<Resting>, want: uint32, price: int64): Outcome {
    if list == [] || want == 0 then Outcome([], list, want)
    else if list[0].remaining <= want then
      Prepend([Fill(list[0].order, list[0].remaining, price)], Take(list[1..], want - list[0].remaining, price))
    else
      Outcome([Fill(list[0].order, want, price)], [list[0].(remaining := list[0].remaining - want)] + list[1..], 0)
  }

  /** The front order gives `q`; it leaves the list when nothing of it remains. */
  function GiveFront(list: seq<Resting>, q: uint32): seq<Resting>
    requires list != [] && q <= list[0].remaining
  {
    if q == list[0].remaining then list[1..] else [list[0].(remaining := list[0].remaining - q)] + list[1..]
  }

  /** Taking can be done one fill at a time. */
  lemma {:induction false} TakeStep(done: seq<Fill>, list: seq<Resting>, want: uint32, price: int64)
    requires list != [] && list[0].remaining > 0 && want > 0
    ensures var q := Min(list[0].remaining, want);
            Prepend(done, Take(list, want, price)) ==
            Prepend(done + [Fill(list[0].order, q, price)], Take(GiveFront(list, q), want - q, price))
  {
  }

  lemma {:induction false} TakeDone(done: seq<Fill>, list: seq<Resting>, want: uint32, price: int64)
    requires list == [] || want == 0
    ensures Prepend(done, Take(list, want, price)) == Outcome(done, list, want)
  {
  }

  /** What the list loses is what the taker gets. */
  lemma {:induction false} TakeBalance(list: seq<Resting>, want: uint32, price: int64)
    ensures var o := Take(list, want, price); Total(list) - Total(o.left) == want - o.remaining
  {
    if list != [] && want > 0 && list[0].remaining <= want {
      TakeBalance(list[1..], want - list[0].remaining, price);
    }
  }

  /** Every fill of Take is against an order of the list. */
  lemma {:induction false} TakeMakers(list: seq<Resting>, want: uint32, price: int64, m: Order)
    requires forall r :: r in list ==> r.order != m
    ensures TakenFrom(Take(list, want, price).fills, m) == 0
  {
    if list != [] && want > 0 {
      assert list[0] in list;
      if list[0].remaining <= want {
        var rest := Take(list[1..], want - list[0].remaining, price);
        var fills := Take(list, want, price).fills;
        assert fills == [Fill(list[0].order, list[0].remaining, price)] + rest.fills;
        assert fills[1..] == rest.fills;
        TakeMakers(list[1..], want - list[0].remaining, price, m);
      } else {
        assert Take(list, want, price).fills[1..] == [];
      }
    }
  }

  // ----- priority and matching on the flat list -----

  /** Price p strictly precedes price q on the bid side (dearest first) or the ask side (cheapest first). */
  predicate Better(isBid: bool, p: int, q: int) {
    if isBid then p > q else p < q
  }

  /** A taker with this limit accepts a resting price. */
  predicate Crosses(takerBuys: bool, limit: int, price: int) {
    if takerBuys then price <= limit else price >= limit
  }

  /** Greedy matching: from the front of the other side's list while quantity is wanted and the price is acceptable. */
  function Greedy(takerBuys: bool, limit: int64, list: seq<Resting>, want: uint32): Outcome {
    if list == [] || want == 0 || !Crosses(takerBuys, limit, list[0].price) then Outcome([], list, want)
    else if list[0].remaining <= want then
      Prepend([Fill(list[0].order, list[0].remaining, limit)],
              Greedy(takerBuys, limit, list[1..], want - list[0].remaining))
    else
      Outcome([Fill(list[0].order, want, limit)], [list[0].(remaining := list[0].remaining - want)] + list[1..], 0)
  }

  /** A new order queues behind everything at its price or better. */
  function Insert(isBid: bool, list: seq<Resting>, r: Resting): seq<Resting> {
    if list == [] || Better(isBid, r.price, list[0].price) then [r] + list
    else [list[0]] + Insert(isBid, list[1..], r)
  }

  lemma {:induction false} InsertTotal(isBid: bool, list: seq<Resting>, r: Resting)
    ensures Total(Insert(isBid, list, r)) == Total(list) + r.remaining
  {
    if list == [] || Better(isBid, r.price, list[0].price) {
      assert ([r] + list)[1..] == list;
    } else {
      InsertTotal(isBid, list[1..], r);
    }
  }

  // ----- a side seen level by level -----

  datatype LevelView = LevelView(price: int64, live: seq<Resting>)

  function Flatten(v: seq<LevelView>): seq<Resting> {
    if v == [] then [] else v[0].live + Flatten(v[1..])
  }

  ghost predicate Sorted(isBid: bool, v: seq<LevelView>) {
    forall i, j :: 0 <= i < j < |v| ==> Better(isBid, v[i].price, v[j].price)
  }

  ghost predicate Priced(v: seq<LevelView>) {
    forall i, r :: 0 <= i < |v| && r in v[i].live ==> r.price == v[i].price
  }

  lemma {:induction false} FlattenConcat(a: seq<LevelView>, b: seq<LevelView>)
    ensures Flatten(a + b) == Flatten(a) + Flatten(b)
  {
    if a == [] {
      assert a + b == b;
    } else {
      assert (a + b)[1..] == a[1..] + b;
      FlattenConcat(a[1..], b);
    }
  }

  lemma {:induction false} ConcatAssoc(a: seq<Resting>, b: seq<Resting>, c: seq<Resting>)
    ensures a + (b + c) == (a + b) + c
  {
  }

  lemma {:induction false} FlattenMember(v: seq<LevelView>, r: Resting) returns (i: nat)
    requires r in Flatten(v)
    ensures i < |v| && r in v[i].live
  {
    if r in v[0].live {
      i := 0;
    } else {
      var j := FlattenMember(v[1..], r);
      i := j + 1;
    }
  }

  lemma {:induction false} FlattenHas(v: seq<LevelView>, i: nat, r: Resting)
    requires i < |v| && r in v[i].live
    ensures r in Flatten(v)
  {
    if i > 0 {
      FlattenHas(v[1..], i - 1, r);
    }
  }

  lemma {:induction false} FlattenSplit(a: seq<LevelView>, m: LevelView, b: seq<LevelView>)
    ensures Flatten(a + [m] + b) == Flatten(a) + (m.live + Flatten(b))
  {
    assert a + [m] + b == a + ([m] + b);
    FlattenConcat(a, [m] + b);
    assert ([m] + b)[1..] == b;
  }

  // ----- matching level by level is matching on the flat list -----

  lemma {:induction false} GreedyAcross(
      takerBuys: bool, limit: int64, front: seq<Resting>, rest: seq<Resting>, want: uint32)
    requires forall r :: r in front ==> Crosses(takerBuys, limit, r.price)
    ensures var t := Take(front, want, limit);
            Greedy(takerBuys, limit, front + rest, want)
            == Prepend(t.fills, Greedy(takerBuys, limit, t.left + rest, t.remaining))
  {
    if front == [] {
      assert front + rest == rest;
    } else if want > 0 {
      var all := front + rest;
      assert front[0] in front && all[0] == front[0] && all[1..] == front[1..] + rest;
      var t := Take(front, want, limit);
      if front[0].remaining <= want {
        GreedyAcross(takerBuys, limit, front[1..], rest, want - front[0].remaining);
        var u := Take(front[1..], want - front[0].remaining, limit);
        var g := Greedy(takerBuys, limit, u.left + rest, u.remaining);
        PrependAssoc([Fill(front[0].order, front[0].remaining, limit)], u.fills, g);
      } else {
        var reduced := front[0].(remaining := front[0].remaining - want);
        ConcatAssoc([reduced], front[1..], rest);
      }
    }
  }

  /** Once the first level is too dear for the taker, nothing behind it trades either. */
  lemma {:induction false} GreedyStop(takerBuys: bool, limit: int64, v: seq<LevelView>, want: uint32)
    requires Sorted(!takerBuys, v) && Priced(v)
    requires v == [] || want == 0 || !Crosses(takerBuys, limit, v[0].price)
    ensures Greedy(takerBuys, limit, Flatten(v), want) == Outcome([], Flatten(v), want)
  {
    if Flatten(v) != [] && want > 0 {
      var i := FlattenMember(v, Flatten(v)[0]);
    }
  }

  // ----- resting an order on its level is inserting it into the flat list -----

  lemma {:induction false} InsertPast(isBid: bool, a: seq<Resting>, b: seq<Resting>, r: Resting)
    requires forall x :: x in a ==> !Better(isBid, r.price, x.price)
    ensures Insert(isBid, a + b, r) == a + Insert(isBid, b, r)
  {
    if a == [] {
      assert a + b == b && a + Insert(isBid, b, r) == Insert(isBid, b, r);
    } else {
      assert a[0] in a && (a + b)[0] == a[0] && (a + b)[1..] == a[1..] + b;
      InsertPast(isBid, a[1..], b, r);
    }
  }

  lemma {:induction false} InsertBefore(isBid: bool, b: seq<Resting>, r: Resting)
    requires forall x :: x in b ==> Better(isBid, r.price, x.price)
    ensures Insert(isBid, b, r) == [r] + b
  {
  }

  ghost predicate NoneWorse(isBid: bool, v: seq<LevelView>, price: int64) {
    forall i :: 0 <= i < |v| ==> !Better(isBid, price, v[i].price)
  }

  ghost predicate AllWorse(isBid: bool, v: seq<LevelView>, price: int64) {
    forall i :: 0 <= i < |v| ==> Better(isBid, price, v[i].price)
  }

  lemma {:induction false} NoneWorseFlat(isBid: bool, v: seq<LevelView>, price: int64)
    requires Priced(v) && NoneWorse(isBid, v, price)
    ensures forall x :: x in Flatten(v) ==> !Better(isBid, price, x.price)
  {
    if v != [] {
      NoneWorseFlat(isBid, v[1..], price);
    }
  }

  lemma {:induction false} AllWorseFlat(isBid: bool, v: seq<LevelView>, price: int64)
    requires Priced(v) && AllWorse(isBid, v, price)
    ensures forall x :: x in Flatten(v) ==> Better(isBid, price, x.price)
  {
    if v != [] {
      AllWorseFlat(isBid, v[1..], price);
    }
  }

  lemma {:induction false} InsertOnLevel(
      isBid: bool, a: seq<LevelView>, m: LevelView, b: seq<LevelView>, r: Resting)
    requires Priced(a) && NoneWorse(isBid, a, r.price)
    requires forall x :: x in m.live ==> x.price == r.price
    requires Priced(b) && AllWorse(isBid, b, r.price)
    ensures Flatten(a + [LevelView(m.price, m.live + [r])] + b) == Insert(isBid, Flatten(a + [m] + b), r)
  {
    hide Flatten, Insert;
    var fa, fb := Flatten(a), Flatten(b);
    FlattenSplit(a, m, b);
    FlattenSplit(a, LevelView(m.price, m.live + [r]), b);
    NoneWorseFlat(isBid, a, r.price);
    AllWorseFlat(isBid, b, r.price);
    InsertPast(isBid, fa, m.live + fb, r);
    InsertPast(isBid, m.live, fb, r);
    InsertBefore(isBid, fb, r);
    ConcatAssoc(m.live, [r], fb);
  }

  lemma {:induction false} SortedAround(isBid: bool, v: seq<LevelView>, k: nat)
    requires Sorted(isBid, v) && Priced(v) && k < |v|
    ensures Priced(v[..k]) && NoneWorse(isBid, v[..k], v[k].price)
    ensures Priced(v[k + 1..]) && AllWorse(isBid, v[k + 1..], v[k].price)
  {
  }

  /** One level's live list grew at the back by r: the flat list took r in at its priority. */
  lemma {:induction false} AppendView(isBid: bool, v: seq<LevelView>, k: nat, r: Resting)
    requires Sorted(isBid, v) && Priced(v) && k < |v| && v[k].price == r.price
    ensures Flatten(v[k := LevelView(r.price, v[k].live + [r])]) == Insert(isBid, Flatten(v), r)
  {
    SortedAround(isBid, v, k);
    hide Flatten, Insert, Sorted, Priced, NoneWorse, AllWorse;
    PricedAt(v, k);
    InsertOnLevel(isBid, v[..k], v[k], v[k + 1..], r);
    assert v == v[..k] + [v[k]] + v[k + 1..];
    assert v[k := LevelView(r.price, v[k].live + [r])] == v[..k] + [LevelView(r.price, v[k].live + [r])] + v[k + 1..];
  }

  lemma {:induction false} PricedAt(v: seq<LevelView>, k: nat)
    requires Priced(v) && k < |v|
    ensures forall x :: x in v[k].live ==> x.price == v[k].price
  {
  }

  // ----- cancelling on a level is removing from the flat list -----

  lemma {:induction false} FlattenWithout(v: seq<LevelView>, w: seq<LevelView>, o: Order)
    requires |v| == |w| && forall i :: 0 <= i < |v| ==> w[i].live == Without(v[i].live, o)
    ensures Flatten(w) == Without(Flatten(v), o)
  {
    if v != [] {
      FlattenWithout(v[1..], w[1..], o);
      WithoutConcat(v[0].live, Flatten(v[1..]), o);
    }
  }

  lemma {:induction false} TotalReplace(v: seq<LevelView>, k: nat, m: LevelView)
    requires k < |v|
    ensures Total(Flatten(v[k := m])) == Total(Flatten(v)) - Total(v[k].live) + Total(m.live)
  {
    hide Total;
    var w := v[k := m];
    TotalConcat(v[0].live, Flatten(v[1..]));
    TotalConcat(w[0].live, Flatten(w[1..]));
    if k == 0 {
      assert w[1..] == v[1..];
    } else {
      TotalReplace(v[1..], k - 1, m);
      assert w[1..] == v[1..][k - 1 := m];
    }
  }

  /** Cancelling by id. */
  function WithoutId(rs: seq<Resting>, id: uint64): seq<Resting> {
    if rs == [] then []
    else if rs[0].order.id == id then WithoutId(rs[1..], id)
    else [rs[0]] + WithoutId(rs[1..], id)
  }

  lemma {:induction false} WithoutIdIsWithout(rs: seq<Resting>, id: uint64, o: Order)
    requires forall r :: r in rs ==> (r.order.id == id <==> r.order == o)
    ensures WithoutId(rs, id) == Without(rs, o)
  {
    if rs != [] {
      assert rs[0] in rs;
      WithoutIdIsWithout(rs[1..], id, o);
    }
  }

  lemma {:induction false} WithoutIdAbsent(rs: seq<Resting>, id: uint64)
    requires forall r :: r in rs ==> r.order.id != id
    ensures WithoutId(rs, id) == rs
  {
    if rs != [] {
      assert rs[0] in rs;
      WithoutIdAbsent(rs[1..], id);
    }
  }

  /** A level with no live order adds nothing to the flat list. */
  lemma {:induction false} DropEmptyLevel(a: seq<LevelView>, m: LevelView, b: seq<LevelView>)
    requires m.live == []
    ensures Flatten(a + [m] + b) == Flatten(a + b)
  {
    FlattenSplit(a, m, b);
    FlattenConcat(a, b);
    assert [] + Flatten(b) == Flatten(b);
  }
}
