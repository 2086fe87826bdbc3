/**
 What price-time matching on flat lists means, and what holds over every run of submissions and cancels.
 OrderBooks and Engine show that the ring-buffer book takes exactly these steps.
 */
module FlatRuns {
  import opened Orders
  import opened FlatBook

  ghost predicate Positive(list: seq<Resting>) {
    forall i :: 0 <= i < |list| ==> list[i].remaining > 0
  }

  /** Best price first. */
  ghost predicate Ranked(isBid: bool, list: seq<Resting>) {
    forall i, j :: 0 <= i < j < |list| ==> !Better(isBid, list[j].price, list[i].price)
  }

  /** A fill against r at the taker's limit, which suits both sides. */
  predicate Proper(takerBuys: bool, limit: int64, f: Fill, r: Resting) {
    f.order == r.order && f.price == limit && Crosses(takerBuys, limit, r.price) && 0 < f.quantity <= r.remaining
  }

  predicate Exhausts(f: Fill, r: Resting) {
    f.quantity == r.remaining
  }

  /** Fills against a prefix of the list, in order; all but the last exhaust their maker. */
  ghost predicate Prefix(takerBuys: bool, limit: int64, list: seq<Resting>, fills: seq<Fill>) {
    && |fills| <= |list|
    && (forall i :: 0 <= i < |fills| ==> Proper(takerBuys, limit, fills[i], list[i]))
    && (forall i :: 0 <= i < |fills| - 1 ==> Exhausts(fills[i], list[i]))
  }

  /** What a fill leaves of its maker. */
  function Remainder(r: Resting, f: Fill): seq<Resting> {
    if f.quantity < r.remaining then [Resting(r.order, r.price, r.remaining - f.quantity)] else []
  }

  /** The list after the fills: a prefix is gone, and the last maker may keep a rest. */
  function After(list: seq<Resting>, fills: seq<Fill>): seq<Resting>
    requires |fills| <= |list|
  {
    var n := |fills|;
    if n == 0 then list else Remainder(list[n - 1], fills[n - 1]) + list[n..]
  }

  /**
   Fair matching, said without the algorithm: the fills are against a prefix of the list in order, at the
   taker's limit, which suits maker and taker; all but the last exhaust their maker; nothing is lost; and
   the taker stays unsatisfied only when nothing acceptable is left.
   */
  ghost predicate Fair(takerBuys: bool, limit: int64, list: seq<Resting>, want: uint32, o: Outcome) {
    && Prefix(takerBuys, limit, list, o.fills)
    && o.left == After(list, o.fills)
    && Traded(o.fills) + o.remaining == want
    && (o.remaining > 0 ==> o.left == [] || !Crosses(takerBuys, limit, o.left[0].price))
  }

  lemma {:induction false} AfterCons(r: Resting, list: seq<Resting>, f: Fill, fills: seq<Fill>)
    requires f.quantity <= r.remaining && (fills == [] ==> Exhausts(f, r))
    requires |fills| <= |list|
    ensures After([r] + list, [f] + fills) == After(list, fills)
  {
    var all, fs, n := [r] + list, [f] + fills, |fills|;
    assert all[n + 1..] == list[n..] && fs[0] == f && all[0] == r;
    if n == 0 {
      assert [] + list[0..] == list;
    } else {
      assert fs[n] == fills[n - 1] && all[n] == list[n - 1];
    }
  }

  /** The same order at the same price, with something open. */
  predicate Descends(x: Resting, y: Resting) {
    x.order == y.order && x.price == y.price && 0 < x.remaining
  }

  /** What is left keeps identity, price and sequence; only the first may have shrunk. */
  lemma {:induction false} AfterMatches(list: seq<Resting>, fills: seq<Fill>)
    requires |fills| <= |list| && Positive(list)
    ensures var left := After(list, fills); var n := |list| - |left|;
            n >= 0 && forall i :: 0 <= i < |left| ==> Descends(left[i], list[n + i])
  {
    var left, k := After(list, fills), |fills|;
    var n := |list| - |left|;
    var gone := if k == 0 then [] else Remainder(list[k - 1], fills[k - 1]);
    assert left == gone + list[k..] && n == k - |gone|;
    forall i | 0 <= i < |left| ensures Descends(left[i], list[n + i]) {
      if i < |gone| {
        assert left[i] == gone[i] && n + i == k - 1;
      } else {
        assert left[i] == list[n + i];
      }
    }
  }

  lemma {:induction false} PrefixCons(
      takerBuys: bool, limit: int64, r: Resting, list: seq<Resting>, f: Fill, fills: seq<Fill>)
    requires Proper(takerBuys, limit, f, r) && Exhausts(f, r)
    ensures Prefix(takerBuys, limit, [r] + list, [f] + fills) <==> Prefix(takerBuys, limit, list, fills)
  {
    hide Prefix, Proper, Exhausts;
    if Prefix(takerBuys, limit, [r] + list, [f] + fills) {
      PrefixTail(takerBuys, limit, r, list, f, fills);
    } else if Prefix(takerBuys, limit, list, fills) {
      PrefixGrown(takerBuys, limit, r, list, f, fills);
    }
  }

  lemma {:induction false} PrefixTail(
      takerBuys: bool, limit: int64, r: Resting, list: seq<Resting>, f: Fill, fills: seq<Fill>)
    requires Prefix(takerBuys, limit, [r] + list, [f] + fills)
    ensures Prefix(takerBuys, limit, list, fills)
  {
    hide Proper, Exhausts;
    var all, fs := [r] + list, [f] + fills;
    forall i | 0 <= i < |fills| ensures Proper(takerBuys, limit, fills[i], list[i]) {
      assert Proper(takerBuys, limit, fs[i + 1], all[i + 1]);
    }
    forall i | 0 <= i < |fills| - 1 ensures Exhausts(fills[i], list[i]) {
      assert Exhausts(fs[i + 1], all[i + 1]);
    }
  }

  lemma {:induction false} PrefixGrown(
      takerBuys: bool, limit: int64, r: Resting, list: seq<Resting>, f: Fill, fills: seq<Fill>)
    requires Proper(takerBuys, limit, f, r) && Exhausts(f, r) && Prefix(takerBuys, limit, list, fills)
    ensures Prefix(takerBuys, limit, [r] + list, [f] + fills)
  {
    hide Proper, Exhausts;
    var all, fs := [r] + list, [f] + fills;
    forall i | 0 <= i < |fs| ensures Proper(takerBuys, limit, fs[i], all[i]) {
      assert i > 0 ==> Proper(takerBuys, limit, fills[i - 1], list[i - 1]);
    }
    forall i | 0 <= i < |fs| - 1 ensures Exhausts(fs[i], all[i]) {
      assert i > 0 ==> Exhausts(fills[i - 1], list[i - 1]);
    }
  }

  /** A first fill that exhausts its maker can be split off. */
  lemma {:induction false} FairCons(
      takerBuys: bool, limit: int64, r: Resting, list: seq<Resting>, want: uint32, f: Fill, o: Outcome)
    requires Proper(takerBuys, limit, f, r) && Exhausts(f, r) && r.remaining <= want
    ensures Fair(takerBuys, limit, [r] + list, want, Prepend([f], o))
            <==> Fair(takerBuys, limit, list, want - r.remaining, o)
  {
    PrefixCons(takerBuys, limit, r, list, f, o.fills);
    assert ([f] + o.fills)[1..] == o.fills;
    if Prefix(takerBuys, limit, list, o.fills) {
      AfterCons(r, list, f, o.fills);
    }
    hide Prefix, After, Proper;
  }

  /** The exact meaning of greedy matching: its outcome is fair, and no other outcome is. */
  lemma {:induction false} GreedyIffFair(takerBuys: bool, limit: int64, list: seq<Resting>, want: uint32, o: Outcome)
    requires Positive(list)
    ensures Fair(takerBuys, limit, list, want, o) <==> o == Greedy(takerBuys, limit, list, want)
    decreases |list|, 1
  {
    if list == [] || want == 0 || !Crosses(takerBuys, limit, list[0].price) {
      NothingToFill(takerBuys, limit, list, want, o);
    } else if list[0].remaining <= want {
      ExhaustFirst(takerBuys, limit, list, want, o);
    } else {
      PartialFirst(takerBuys, limit, list, want, o);
    }
  }

  lemma {:induction false} NothingToFill(takerBuys: bool, limit: int64, list: seq<Resting>, want: uint32, o: Outcome)
    requires list == [] || want == 0 || !Crosses(takerBuys, limit, list[0].price)
    ensures Fair(takerBuys, limit, list, want, o) <==> o == Outcome([], list, want)
  {
  }

  lemma {:induction false} ExhaustFirst(takerBuys: bool, limit: int64, list: seq<Resting>, want: uint32, o: Outcome)
    requires Positive(list) && list != [] && Crosses(takerBuys, limit, list[0].price) && list[0].remaining <= want
    ensures Fair(takerBuys, limit, list, want, o) <==> o == Greedy(takerBuys, limit, list, want)
    decreases |list|, 0
  {
    hide *;
    var r, rest := list[0], list[1..];
    var f := Fill(r.order, r.remaining, limit);
    FirstDue(takerBuys, limit, list, want, o);
    if o.fills != [] && o.fills[0] == f {
      var tail := Outcome(o.fills[1..], o.left, o.remaining);
      PrependTail(f, o, tail);
      FairCons(takerBuys, limit, r, rest, want, f, tail);
      GreedyIffFair(takerBuys, limit, rest, want - r.remaining, tail);
      PrependOnce(f, tail, Greedy(takerBuys, limit, rest, want - r.remaining));
    } else {
      PrependFirst(f, Greedy(takerBuys, limit, rest, want - r.remaining));
    }
  }

  /** The fill due first, for greedy and for fair matching alike. */
  lemma {:induction false} FirstDue(takerBuys: bool, limit: int64, list: seq<Resting>, want: uint32, o: Outcome)
    requires Positive(list) && list != [] && Crosses(takerBuys, limit, list[0].price) && list[0].remaining <= want
    ensures list == [list[0]] + list[1..] && Positive(list[1..])
    ensures var f := Fill(list[0].order, list[0].remaining, limit);
            && Proper(takerBuys, limit, f, list[0]) && Exhausts(f, list[0])
            && Greedy(takerBuys, limit, list, want)
               == Prepend([f], Greedy(takerBuys, limit, list[1..], want - list[0].remaining))
            && (Fair(takerBuys, limit, list, want, o) ==> o.fills != [] && o.fills[0] == f)
  {
    if Fair(takerBuys, limit, list, want, o) {
      FirstFill(takerBuys, limit, list, want, o);
    }
    hide Fair;
  }

  lemma {:induction false} PrependTail(f: Fill, o: Outcome, tail: Outcome)
    requires o.fills != [] && o.fills[0] == f && tail == Outcome(o.fills[1..], o.left, o.remaining)
    ensures o == Prepend([f], tail)
  {
  }

  lemma {:induction false} PrependFirst(f: Fill, o: Outcome)
    ensures Prepend([f], o).fills != [] && Prepend([f], o).fills[0] == f
  {
  }

  lemma {:induction false} PrependOnce(f: Fill, o: Outcome, p: Outcome)
    ensures Prepend([f], o) == Prepend([f], p) <==> o == p
  {
    assert Prepend([f], o).fills[1..] == o.fills && Prepend([f], p).fills[1..] == p.fills;
  }

  /** When the first maker suits and fits, a fair outcome starts by exhausting it. */
  lemma {:induction false} FirstFill(takerBuys: bool, limit: int64, list: seq<Resting>, want: uint32, o: Outcome)
    requires Positive(list) && list != [] && Crosses(takerBuys, limit, list[0].price) && list[0].remaining <= want
    requires Fair(takerBuys, limit, list, want, o)
    ensures o.fills != [] && o.fills[0] == Fill(list[0].order, list[0].remaining, limit)
  {
    assert list[0..] == list;
    assert o.fills != [];
    assert Proper(takerBuys, limit, o.fills[0], list[0]);
    if |o.fills| == 1 {
      assert o.fills[1..] == [];
      assert Traded(o.fills) == o.fills[0].quantity;
    }
  }

  lemma {:induction false} PartialFirst(takerBuys: bool, limit: int64, list: seq<Resting>, want: uint32, o: Outcome)
    requires list != [] && Crosses(takerBuys, limit, list[0].price) && 0 < want < list[0].remaining
    ensures Fair(takerBuys, limit, list, want, o) <==> o == Greedy(takerBuys, limit, list, want)
  {
    var f := Fill(list[0].order, want, limit);
    assert [f][1..] == [];
    if Fair(takerBuys, limit, list, want, o) {
      assert list[0..] == list;
      assert o.fills != [];
      assert Traded(o.fills) == o.fills[0].quantity + Traded(o.fills[1..]);
      assert Proper(takerBuys, limit, o.fills[0], list[0]);
      assert |o.fills| == 1 && o.fills[1..] == [];
      assert o.fills == [f];
    }
  }

  // ----- runs -----

  datatype FlatState = FlatState(bids: seq<Resting>, asks: seq<Resting>) {
    function Side(isBid: bool): seq<Resting> {
      if isBid then bids else asks
    }

    function WithSides(isBid: bool, mine: seq<Resting>, theirs: seq<Resting>): FlatState {
      if isBid then FlatState(mine, theirs) else FlatState(theirs, mine)
    }
  }

  datatype Op = Submit(order: Order, price: int64, want: uint32) | Cancel(id: uint64)

  datatype Effect = Effect(state: FlatState, fills: seq<Fill>, remaining: uint32)

  function Submitted(f: FlatState, order: Order, price: int64, want: uint32): Effect {
    var o := Greedy(order.isBuy, price, f.Side(!order.isBuy), want);
    var mine := f.Side(order.isBuy);
    var mine' := if o.remaining > 0 then Insert(order.isBuy, mine, Resting(order, price, o.remaining)) else mine;
    Effect(f.WithSides(order.isBuy, mine', o.left), o.fills, o.remaining)
  }

  function Step(f: FlatState, op: Op): FlatState {
    match op
    case Submit(order, price, want) => Submitted(f, order, price, want).state
    case Cancel(id) => FlatState(WithoutId(f.bids, id), WithoutId(f.asks, id))
  }

  function Run(ops: seq<Op>): FlatState {
    if ops == [] then FlatState([], []) else Step(Run(ops[..|ops| - 1]), ops[|ops| - 1])
  }

  /** Best price first on each side, nothing exhausted, and no bid reaches an ask. */
  ghost predicate Sound(f: FlatState) {
    && Positive(f.bids) && Positive(f.asks)
    && Ranked(true, f.bids) && Ranked(false, f.asks)
    && (forall b, a :: b in f.bids && a in f.asks ==> b.price < a.price)
  }

  /** What a submission leaves open, nothing on the other side is within its limit of. */
  lemma {:induction false} NothingWithinLimit(f: FlatState, order: Order, price: int64, want: uint32)
    requires Sound(f)
    ensures var e := Submitted(f, order, price, want);
            e.remaining > 0 ==>
              forall r :: r in e.state.Side(!order.isBuy) ==> if order.isBuy then r.price > price else r.price < price
  {
    var list, o := f.Side(!order.isBuy), Greedy(order.isBuy, price, f.Side(!order.isBuy), want);
    GreedyIffFair(order.isBuy, price, list, want, o);
    SubmitSound(f, order, price, want);
    assert Submitted(f, order, price, want).state.Side(!order.isBuy) == o.left;
    hide Greedy;
  }

  /** The list after a step holds old orders at their old prices, in their old sequence. */
  ghost predicate Thinned(was: seq<Resting>, now: seq<Resting>, at: seq<nat>) {
    && |at| == |now|
    && (forall i :: 0 <= i < |at| ==> at[i] < |was|)
    && (forall i, j :: 0 <= i < j < |at| ==> at[i] < at[j])
    && (forall i :: 0 <= i < |now| ==> Descends(now[i], was[at[i]]))
  }

  lemma {:induction false} GreedyLeaves(takerBuys: bool, limit: int64, list: seq<Resting>, want: uint32)
    requires Positive(list)
    ensures var o := Greedy(takerBuys, limit, list, want);
            |o.fills| <= |list| && o.left == After(list, o.fills)
  {
    GreedyIffFair(takerBuys, limit, list, want, Greedy(takerBuys, limit, list, want));
    hide Greedy, After, Traded, Crosses;
  }

  /** Greedy fills run down a prefix of the list, each taking something at a price that suits the taker. */
  lemma {:induction false} GreedyPrefix(takerBuys: bool, limit: int64, list: seq<Resting>, want: uint32)
    requires Positive(list)
    ensures var fills := Greedy(takerBuys, limit, list, want).fills;
            && |fills| <= |list|
            && forall i :: 0 <= i < |fills| ==> Proper(takerBuys, limit, fills[i], list[i])
  {
    GreedyIffFair(takerBuys, limit, list, want, Greedy(takerBuys, limit, list, want));
    hide Greedy, After, Traded, Proper;
  }

  lemma {:induction false} GreedyFills(takerBuys: bool, limit: int64, list: seq<Resting>, want: uint32)
    requires Positive(list)
    ensures var o := Greedy(takerBuys, limit, list, want); Traded(o.fills) + o.remaining == want
  {
    GreedyIffFair(takerBuys, limit, list, want, Greedy(takerBuys, limit, list, want));
    hide Greedy, After, Traded, Prefix;
  }

  lemma {:induction false} GreedyThins(takerBuys: bool, limit: int64, list: seq<Resting>, want: uint32)
    returns (at: seq<nat>)
    requires Positive(list)
    ensures Thinned(list, Greedy(takerBuys, limit, list, want).left, at)
  {
    hide Greedy, After, Positive;
    var o := Greedy(takerBuys, limit, list, want);
    GreedyLeaves(takerBuys, limit, list, want);
    AfterMatches(list, o.fills);
    var n := |list| - |o.left|;
    at := seq(|o.left|, i requires 0 <= i < |o.left| => n + i);
  }

  lemma {:induction false} WithoutIdThins(list: seq<Resting>, id: uint64) returns (at: seq<nat>)
    requires Positive(list)
    ensures Thinned(list, WithoutId(list, id), at)
  {
    if list == [] {
      at := [];
    } else {
      var rest := WithoutIdThins(list[1..], id);
      var later := seq(|rest|, i requires 0 <= i < |rest| => rest[i] + 1);
      hide Thinned;
      assert list == [list[0]] + list[1..];
      if list[0].order.id == id {
        at := later;
        ThinnedSkip(list[0], list[1..], WithoutId(list[1..], id), rest, at);
      } else {
        at := [0] + later;
        ThinnedCons(list[0], list[1..], WithoutId(list[1..], id), rest, at);
      }
    }
  }

  lemma {:induction false} ThinnedSkip(
      r: Resting, was: seq<Resting>, now: seq<Resting>, rest: seq<nat>, at: seq<nat>)
    requires Thinned(was, now, rest)
    requires |at| == |rest| && forall i :: 0 <= i < |rest| ==> at[i] == rest[i] + 1
    ensures Thinned([r] + was, now, at)
  {
    hide Descends;
    var was' := [r] + was;
    forall i | 0 <= i < |now| ensures Descends(now[i], was'[at[i]]) {
      assert was'[at[i]] == was[rest[i]];
    }
  }

  lemma {:induction false} ThinnedCons(
      r: Resting, was: seq<Resting>, now: seq<Resting>, rest: seq<nat>, at: seq<nat>)
    requires r.remaining > 0 && Thinned(was, now, rest)
    requires |at| == |rest| + 1 && at[0] == 0 && forall i :: 0 <= i < |rest| ==> at[i + 1] == rest[i] + 1
    ensures Thinned([r] + was, [r] + now, at)
  {
    forall i, j | 0 <= i < j < |at| ensures at[i] < at[j] {
      assert at[j] == rest[j - 1] + 1;
      assert i > 0 ==> at[i] == rest[i - 1] + 1;
    }
    assert Descends(r, r);
    hide Descends;
    var now', was' := [r] + now, [r] + was;
    forall i | 0 <= i < |now'| ensures Descends(now'[i], was'[at[i]]) {
      if i > 0 {
        assert at[i] == rest[i - 1] + 1;
        assert Descends(now[i - 1], was[rest[i - 1]]);
      }
    }
  }

  lemma {:induction false} ThinnedRanked(isBid: bool, was: seq<Resting>, now: seq<Resting>, at: seq<nat>)
    requires Ranked(isBid, was) && Thinned(was, now, at)
    ensures Ranked(isBid, now) && Positive(now)
    ensures forall x :: x in now ==> exists y :: y in was && y.order == x.order && y.price == x.price
  {
  }

  /** Where a new order goes: behind everything not worse than it, ahead of everything worse. */
  lemma {:induction false} InsertPlace(isBid: bool, list: seq<Resting>, r: Resting) returns (k: nat)
    requires Ranked(isBid, list)
    ensures k <= |list| && Insert(isBid, list, r) == list[..k] + [r] + list[k..]
    ensures forall i :: 0 <= i < k ==> !Better(isBid, r.price, list[i].price)
    ensures forall i :: k <= i < |list| ==> Better(isBid, r.price, list[i].price)
  {
    if list == [] || Better(isBid, r.price, list[0].price) {
      k := 0;
      assert list[..0] + [r] + list[0..] == [r] + list;
    } else {
      hide Better;
      var rest := list[1..];
      var j := InsertPlace(isBid, rest, r);
      k := j + 1;
      assert [list[0]] + (rest[..j] + [r] + rest[j..]) == list[..k] + [r] + list[k..];
      assert forall i :: k <= i < |list| ==> list[i] == rest[i - 1];
      assert forall i :: 1 <= i < k ==> list[i] == rest[i - 1];
    }
  }

  lemma {:induction false} InsertRanked(isBid: bool, list: seq<Resting>, r: Resting)
    requires Ranked(isBid, list) && Positive(list) && r.remaining > 0
    ensures Ranked(isBid, Insert(isBid, list, r)) && Positive(Insert(isBid, list, r))
    ensures forall x :: x in Insert(isBid, list, r) ==> x == r || x in list
  {
    hide Insert;
    var k := InsertPlace(isBid, list, r);
    var now := list[..k] + [r] + list[k..];
    forall i | 0 <= i < |now| ensures now[i] == if i < k then list[i] else if i == k then r else list[i - 1] {
      MiddleAt(list[..k], r, list[k..], i);
    }
    InsertedRanked(isBid, list, r, k, now);
  }

  lemma {:induction false} InsertedRanked(isBid: bool, list: seq<Resting>, r: Resting, k: nat, now: seq<Resting>)
    requires Ranked(isBid, list) && Positive(list) && r.remaining > 0 && k <= |list| && |now| == |list| + 1
    requires forall i :: 0 <= i < k ==> !Better(isBid, r.price, list[i].price)
    requires forall i :: k <= i < |list| ==> Better(isBid, r.price, list[i].price)
    requires forall i {:trigger now[i]} :: 0 <= i < |now| ==>
               now[i] == if i < k then list[i] else if i == k then r else list[i - 1]
    ensures Ranked(isBid, now) && Positive(now) && forall x :: x in now ==> x == r || x in list
  {
    forall x | x in now ensures x == r || x in list {
      var i :| 0 <= i < |now| && now[i] == x;
    }
  }

  lemma {:induction false} GreedyStops(takerBuys: bool, limit: int64, list: seq<Resting>, want: uint32)
    requires Positive(list)
    ensures var o := Greedy(takerBuys, limit, list, want);
            o.remaining > 0 ==> o.left == [] || !Crosses(takerBuys, limit, o.left[0].price)
  {
    GreedyIffFair(takerBuys, limit, list, want, Greedy(takerBuys, limit, list, want));
    hide Greedy, Prefix, After;
  }

  /** What stops greedy matching keeps the book uncrossed when the rest is inserted. */
  lemma {:induction false} RestIsClear(takerBuys: bool, limit: int64, list: seq<Resting>, want: uint32)
    requires Positive(list) && Ranked(!takerBuys, list)
    ensures var o := Greedy(takerBuys, limit, list, want);
            o.remaining > 0 ==> forall x :: x in o.left ==> !Crosses(takerBuys, limit, x.price)
  {
    hide Greedy, Thinned;
    var o := Greedy(takerBuys, limit, list, want);
    GreedyStops(takerBuys, limit, list, want);
    var at := GreedyThins(takerBuys, limit, list, want);
    ThinnedRanked(!takerBuys, list, o.left, at);
    if o.remaining > 0 {
      forall x | x in o.left ensures !Crosses(takerBuys, limit, x.price) {
        var i :| 0 <= i < |o.left| && o.left[i] == x;
      }
    }
  }

  lemma {:induction false} SubmitSound(f: FlatState, order: Order, price: int64, want: uint32)
    requires Sound(f)
    ensures Sound(Submitted(f, order, price, want).state)
  {
    var theirs, mine := f.Side(!order.isBuy), f.Side(order.isBuy);
    var o := Greedy(order.isBuy, price, theirs, want);
    var at := GreedyThins(order.isBuy, price, theirs, want);
    ThinnedRanked(!order.isBuy, theirs, o.left, at);
    RestIsClear(order.isBuy, price, theirs, want);
    if o.remaining > 0 {
      InsertRanked(order.isBuy, mine, Resting(order, price, o.remaining));
    }
  }

  lemma {:induction false} StepSound(f: FlatState, op: Op)
    requires Sound(f)
    ensures Sound(Step(f, op))
  {
    match op
    case Submit(order, price, want) =>
      SubmitSound(f, order, price, want);
    case Cancel(id) =>
      var at := WithoutIdThins(f.bids, id);
      ThinnedRanked(true, f.bids, WithoutId(f.bids, id), at);
      at := WithoutIdThins(f.asks, id);
      ThinnedRanked(false, f.asks, WithoutId(f.asks, id), at);
  }

  /** In every run, the book stays sorted and never crosses. */
  lemma {:induction false} RunSound(ops: seq<Op>)
    ensures Sound(Run(ops))
  {
    if ops != [] {
      RunSound(ops[..|ops| - 1]);
      StepSound(Run(ops[..|ops| - 1]), ops[|ops| - 1]);
    }
  }

  // ----- time priority over runs -----

  /** When an order was submitted: the index of its submission, or |ops| when it never was. */
  function Arrival(ops: seq<Op>, o: Order): nat {
    if ops == [] then 0
    else if ops[0].Submit? && ops[0].order == o then 0
    else 1 + Arrival(ops[1..], o)
  }

  ghost predicate OnceEach(ops: seq<Op>) {
    forall i, j :: 0 <= i < j < |ops| && ops[i].Submit? && ops[j].Submit? ==> ops[i].order != ops[j].order
  }

  lemma {:induction false} ArrivalBound(ops: seq<Op>, o: Order)
    ensures Arrival(ops, o) <= |ops|
    ensures Arrival(ops, o) < |ops| ==> ops[Arrival(ops, o)].Submit? && ops[Arrival(ops, o)].order == o
    ensures Arrival(ops, o) == |ops| <==> forall i :: 0 <= i < |ops| ==> !(ops[i].Submit? && ops[i].order == o)
  {
    if ops != [] {
      ArrivalBound(ops[1..], o);
      assert forall i :: 1 <= i < |ops| ==> ops[i] == ops[1..][i - 1];
      assert forall i :: 0 <= i < |ops| - 1 ==> ops[1..][i] == ops[i + 1];
    }
  }

  lemma {:induction false} ArrivalStable(ops: seq<Op>, op: Op, o: Order)
    ensures Arrival(ops, o) < |ops| ==> Arrival(ops + [op], o) == Arrival(ops, o)
    ensures Arrival(ops, o) == |ops| && op.Submit? && op.order == o ==> Arrival(ops + [op], o) == |ops|
  {
    if ops == [] {
      assert (ops + [op])[0] == op;
    } else {
      assert (ops + [op])[1..] == ops[1..] + [op];
      ArrivalStable(ops[1..], op, o);
    }
  }

  /** Equal prices stand in order of arrival. */
  ghost predicate InTime(ops: seq<Op>, list: seq<Resting>) {
    && (forall i :: 0 <= i < |list| ==> Arrival(ops, list[i].order) < |ops|)
    && (forall i, j :: 0 <= i < j < |list| && list[i].price == list[j].price ==>
          Arrival(ops, list[i].order) < Arrival(ops, list[j].order))
  }

  lemma {:induction false} ThinnedInTime(ops: seq<Op>, was: seq<Resting>, now: seq<Resting>, at: seq<nat>)
    requires InTime(ops, was) && Thinned(was, now, at)
    ensures InTime(ops, now)
  {
  }

  lemma {:induction false} LaterInTime(ops: seq<Op>, op: Op, list: seq<Resting>)
    requires InTime(ops, list)
    ensures InTime(ops + [op], list)
  {
    forall i | 0 <= i < |list| ensures Arrival(ops + [op], list[i].order) == Arrival(ops, list[i].order) {
      ArrivalStable(ops, op, list[i].order);
    }
  }

  /** Behind the orders it ties with, the newest arrival is in its place. */
  lemma {:induction false} LastInTime(ops: seq<Op>, isBid: bool, a: seq<Resting>, r: Resting, b: seq<Resting>)
    requires InTime(ops, a + b) && Arrival(ops, r.order) < |ops|
    requires forall i :: 0 <= i < |a| ==> Arrival(ops, a[i].order) < Arrival(ops, r.order)
    requires forall i :: 0 <= i < |b| ==> Better(isBid, r.price, b[i].price)
    ensures InTime(ops, a + [r] + b)
  {
    hide Arrival;
    var was, now := a + b, a + [r] + b;
    assert forall i :: 0 <= i < |a| ==> was[i] == a[i];
    forall i | 0 <= i < |now| ensures Arrival(ops, now[i].order) < |ops| {
      MiddleAt(a, r, b, i);
    }
    forall i, j | 0 <= i < j < |now| && now[i].price == now[j].price
      ensures Arrival(ops, now[i].order) < Arrival(ops, now[j].order)
    {
      MiddleAt(a, r, b, i);
      MiddleAt(a, r, b, j);
    }
  }

  /** Where the elements stand after one more is put between two lists. */
  lemma {:induction false} MiddleAt(a: seq<Resting>, r: Resting, b: seq<Resting>, i: nat)
    requires i <= |a| + |b|
    ensures var was, now := a + b, a + [r] + b;
            if i < |a| then now[i] == was[i] == a[i]
            else if i == |a| then now[i] == r
            else now[i] == was[i - 1] == b[i - |a| - 1]
  {
  }

  lemma {:induction false} InsertInTime(ops: seq<Op>, isBid: bool, list: seq<Resting>, r: Resting)
    requires ops != [] && Ranked(isBid, list) && InTime(ops[..|ops| - 1], list)
    requires ops[|ops| - 1].Submit? && ops[|ops| - 1].order == r.order && OnceEach(ops)
    ensures InTime(ops, Insert(isBid, list, r))
  {
    var before, op := ops[..|ops| - 1], ops[|ops| - 1];
    assert ops == before + [op];
    ArrivalBound(before, r.order);
    hide Arrival;
    LaterInTime(before, op, list);
    ArrivalStable(before, op, r.order);
    forall i | 0 <= i < |list| ensures Arrival(ops, list[i].order) < |ops| - 1 {
      ArrivalStable(before, op, list[i].order);
    }
    var k := InsertPlace(isBid, list, r);
    assert list == list[..k] + list[k..];
    LastInTime(ops, isBid, list[..k], r, list[k..]);
  }

  lemma {:induction false} SubmitInTime(ops: seq<Op>, f: FlatState, order: Order, price: int64, want: uint32)
    requires OnceEach(ops) && ops != [] && ops[|ops| - 1] == Submit(order, price, want) && Sound(f)
    requires InTime(ops[..|ops| - 1], f.bids) && InTime(ops[..|ops| - 1], f.asks)
    ensures var g := Submitted(f, order, price, want).state; InTime(ops, g.bids) && InTime(ops, g.asks)
  {
    var before, op := ops[..|ops| - 1], ops[|ops| - 1];
    assert ops == before + [op];
    var theirs, mine := f.Side(!order.isBuy), f.Side(order.isBuy);
    var o := Greedy(order.isBuy, price, theirs, want);
    hide Greedy, Insert, InTime, OnceEach, Thinned;
    var at := GreedyThins(order.isBuy, price, theirs, want);
    ThinnedInTime(before, theirs, o.left, at);
    LaterInTime(before, op, o.left);
    LaterInTime(before, op, mine);
    InsertInTime(ops, order.isBuy, mine, Resting(order, price, o.remaining));
  }

  lemma {:induction false} CancelInTime(ops: seq<Op>, op: Op, list: seq<Resting>, id: uint64)
    requires InTime(ops, list) && Positive(list)
    ensures InTime(ops + [op], WithoutId(list, id))
  {
    hide WithoutId, InTime, Thinned;
    var at := WithoutIdThins(list, id);
    ThinnedInTime(ops, list, WithoutId(list, id), at);
    LaterInTime(ops, op, WithoutId(list, id));
  }

  /** In every run, both sides are in price-time order: best price first, then order of arrival. */
  lemma {:induction false} RunPriceTime(ops: seq<Op>)
    requires OnceEach(ops)
    ensures Sound(Run(ops)) && InTime(ops, Run(ops).bids) && InTime(ops, Run(ops).asks)
  {
    RunSound(ops);
    if ops == [] {
      assert Run(ops) == FlatState([], []);
    } else {
      var before := ops[..|ops| - 1];
      RunLast(ops);
      hide *;
      RunPriceTime(before);
      StepPriceTime(ops, Run(before));
    }
  }

  lemma {:induction false} RunLast(ops: seq<Op>)
    requires ops != []
    ensures var before, op := ops[..|ops| - 1], ops[|ops| - 1];
            Run(ops) == Step(Run(before), op) && ops == before + [op] && (OnceEach(ops) ==> OnceEach(before))
  {
    hide Step, OnceEach;
    OnceBefore(ops);
  }

  lemma {:induction false} OnceBefore(ops: seq<Op>)
    requires ops != []
    ensures OnceEach(ops) ==> OnceEach(ops[..|ops| - 1])
  {
  }

  lemma {:induction false} StepPriceTime(ops: seq<Op>, f: FlatState)
    requires OnceEach(ops) && ops != [] && Sound(f)
    requires InTime(ops[..|ops| - 1], f.bids) && InTime(ops[..|ops| - 1], f.asks)
    ensures var g := Step(f, ops[|ops| - 1]); InTime(ops, g.bids) && InTime(ops, g.asks)
  {
    hide InTime, Submitted, WithoutId, OnceEach;
    var before, op := ops[..|ops| - 1], ops[|ops| - 1];
    match op
    case Submit(order, price, want) =>
      SubmitInTime(ops, f, order, price, want);
    case Cancel(id) =>
      assert ops == before + [op];
      CancelInTime(before, op, f.bids, id);
      CancelInTime(before, op, f.asks, id);
  }

  /** Nothing is created or lost in one submission. */
  /** Cancelling keeps every other order, in its place, and no order of that id. */
  lemma {:induction false} WithoutIdKeeps(list: seq<Resting>, id: uint64)
    ensures forall r :: r in WithoutId(list, id) <==> r in list && r.order.id != id
    ensures |WithoutId(list, id)| <= |list|
  {
    if list != [] {
      WithoutIdKeeps(list[1..], id);
      assert list == [list[0]] + list[1..];
    }
  }

  lemma {:induction false} SubmitConserves(f: FlatState, order: Order, price: int64, want: uint32)
    requires Sound(f)
    ensures var e := Submitted(f, order, price, want);
            && Traded(e.fills) + e.remaining == want
            && Total(e.state.Side(order.isBuy)) == Total(f.Side(order.isBuy)) + e.remaining
            && Total(e.state.Side(!order.isBuy)) + Traded(e.fills) == Total(f.Side(!order.isBuy))
  {
    var theirs, mine := f.Side(!order.isBuy), f.Side(order.isBuy);
    var o := Greedy(order.isBuy, price, theirs, want);
    GreedyIffFair(order.isBuy, price, theirs, want, o);
    GreedyTotal(order.isBuy, price, theirs, want);
    InsertTotal(order.isBuy, mine, Resting(order, price, o.remaining));
  }

  lemma {:induction false} GreedyTotal(takerBuys: bool, limit: int64, list: seq<Resting>, want: uint32)
    ensures var o := Greedy(takerBuys, limit, list, want); Total(o.left) + Traded(o.fills) == Total(list)
  {
    if list == [] || want == 0 || !Crosses(takerBuys, limit, list[0].price) {
    } else if list[0].remaining <= want {
      GreedyTotal(takerBuys, limit, list[1..], want - list[0].remaining);
      var o := Greedy(takerBuys, limit, list, want);
      var rest := Greedy(takerBuys, limit, list[1..], want - list[0].remaining);
      assert o.fills[1..] == rest.fills;
    } else {
      var o := Greedy(takerBuys, limit, list, want);
      assert o.fills[1..] == [] && o.left[1..] == list[1..];
    }
  }
}
