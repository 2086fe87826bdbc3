/**
 The limit order book: two sorted vectors of levels, one price map shared by both sides, an id index
 for cancels, and depth and best-price counters kept incrementally (order_book.hpp, order_book.cpp).
 */
module OrderBooks {
  import opened Orders
  import opened FlatBook
  import opened Rings
  import opened PriceLevels

  datatype Location = Location(price: int64, isBid: bool, order: Order)

  ghost function ViewOf(levels: seq<PriceLevel>): (v: seq<LevelView>)
    reads levels
    ensures |v| == |levels|
    ensures forall i :: 0 <= i < |v| ==> v[i] == LevelView(levels[i].price, levels[i].LiveOrders())
  {
    seq(|levels|, i requires 0 <= i < |levels| reads levels => LevelView(levels[i].price, levels[i].LiveOrders()))
  }

  /** The rings of some levels. */
  ghost function RingsOf(levels: seq<PriceLevel>): (v: seq<Ring>)
    reads levels
    ensures |v| == |levels|
    ensures forall i :: 0 <= i < |v| ==> v[i] == Ring(levels[i].price, levels[i].slots)
  {
    seq(|levels|, i requires 0 <= i < |levels| reads levels => Ring(levels[i].price, levels[i].slots))
  }

  lemma {:induction false} RingsCut(levels: seq<PriceLevel>, k: nat)
    requires k < |levels|
    ensures RingsOf(levels[..k] + levels[k + 1..]) == RingsOf(levels)[..k] + RingsOf(levels)[k + 1..]
  {
  }

  twostate lemma RingsViewed(levels: seq<PriceLevel>)
    ensures old(ViewOf(levels)) == Views(old(RingsOf(levels)))
  {
  }

  lemma {:induction false} RingsView(levels: seq<PriceLevel>)
    ensures ViewOf(levels) == Views(RingsOf(levels))
  {
  }

  /** Each order gave what the fills took from it. */
  twostate predicate Paid(makers: set<Order>, new made: seq<Fill>)
    reads makers
  {
    forall m :: m in makers ==> m.filled == old(m.filled) + TakenFrom(made, m)
  }

  twostate predicate Kept(levels: seq<PriceLevel>)
    reads levels
  {
    forall i :: 0 <= i < |levels| ==> levels[i].slots == old(levels[i].slots) && levels[i].size == old(levels[i].size)
  }

  twostate lemma ViewKept(levels: seq<PriceLevel>)
    requires forall i :: 0 <= i < |levels| ==> levels[i].slots == old(levels[i].slots)
    ensures ViewOf(levels) == old(ViewOf(levels))
  {
    assert forall i :: 0 <= i < |levels| ==> ViewOf(levels)[i] == old(ViewOf(levels))[i];
  }

  twostate lemma RingsKept(levels: seq<PriceLevel>)
    requires forall i :: 0 <= i < |levels| ==> levels[i].slots == old(levels[i].slots)
    ensures RingsOf(levels) == old(RingsOf(levels))
  {
    assert forall i :: 0 <= i < |levels| ==> RingsOf(levels)[i] == old(RingsOf(levels))[i];
  }

  lemma {:induction false} ViewInsert(levels: seq<PriceLevel>, k: nat, level: PriceLevel)
    requires k <= |levels|
    ensures var v := ViewOf(levels);
            && v == v[..k] + v[k..]
            && ViewOf(levels[..k] + [level] + levels[k..])
               == v[..k] + [LevelView(level.price, level.LiveOrders())] + v[k..]
  {
    hide LiveOf;
  }

  lemma {:induction false} ViewCut(levels: seq<PriceLevel>, k: nat)
    requires k < |levels|
    ensures var v := ViewOf(levels);
            v == v[..k] + [v[k]] + v[k + 1..] && ViewOf(levels[..k] + levels[k + 1..]) == v[..k] + v[k + 1..]
  {
  }

  ghost predicate Ordered(isBid: bool, levels: seq<PriceLevel>) {
    forall i, j :: 0 <= i < j < |levels| ==> Better(isBid, levels[i].price, levels[j].price)
  }

  /** No level of one side reaches a level of the other, whether or not it still holds a live order. */
  ghost predicate Apart(isBid: bool, mine: seq<PriceLevel>, theirs: seq<PriceLevel>) {
    forall i, j :: 0 <= i < |mine| && 0 <= j < |theirs| ==> Better(!isBid, mine[i].price, theirs[j].price)
  }

  predicate Has(m: map<int64, PriceLevel>, level: PriceLevel) {
    level.price in m && m[level.price] == level
  }

  ghost predicate AllFiled(levels: seq<PriceLevel>, m: map<int64, PriceLevel>) {
    forall i :: 0 <= i < |levels| ==> Has(m, levels[i])
  }

  /** Sides sorted and never crossed; the shared map holds exactly the levels of both sides under their prices. */
  ghost predicate Shaped(isBid: bool, mine: seq<PriceLevel>, theirs: seq<PriceLevel>, m: map<int64, PriceLevel>) {
    && Ordered(isBid, mine) && Ordered(!isBid, theirs) && Apart(isBid, mine, theirs)
    && AllFiled(mine, m) && AllFiled(theirs, m)
    && (forall p :: p in m ==> m[p].price == p && (m[p] in mine || m[p] in theirs))
    && (forall p, q :: p in m && q in m && m[p].buffer == m[q].buffer ==> p == q)
  }

  lemma {:induction false} ShapedFlip(
      isBid: bool, mine: seq<PriceLevel>, theirs: seq<PriceLevel>, m: map<int64, PriceLevel>)
    requires Shaped(isBid, mine, theirs, m)
    ensures Shaped(!isBid, theirs, mine, m)
  {
  }

  /** Cutting position k out of a vector loses only that element. */
  lemma {:induction false} CutKeeps(levels: seq<PriceLevel>, k: nat)
    requires k < |levels|
    ensures forall l :: l in levels && l != levels[k] ==> l in levels[..k] + levels[k + 1..]
  {
  }

  lemma {:induction false} ShapedDrop(
      isBid: bool, mine: seq<PriceLevel>, theirs: seq<PriceLevel>, m: map<int64, PriceLevel>, k: nat)
    requires Shaped(isBid, mine, theirs, m) && k < |mine|
    ensures Shaped(isBid, mine[..k] + mine[k + 1..], theirs, m - {mine[k].price})
  {
    var mine', m' := mine[..k] + mine[k + 1..], m - {mine[k].price};
    assert forall i :: 0 <= i < |mine'| ==> mine'[i] == mine[if i < k then i else i + 1];
    CutKeeps(mine, k);
    forall j | 0 <= j < |theirs| ensures Has(m', theirs[j]) {
      assert Better(!isBid, mine[k].price, theirs[j].price);
    }
  }

  /** Where a level with this price stands, or would stand, in a sorted vector. */
  ghost predicate Place(isBid: bool, levels: seq<PriceLevel>, k: nat, price: int) {
    && k <= |levels|
    && (forall i :: 0 <= i < k ==> Better(isBid, levels[i].price, price))
    && (forall i :: k <= i < |levels| ==> !Better(isBid, levels[i].price, price))
  }

  /** The first level that does not beat the price, by halving. */
  method LowerBound(isBid: bool, levels: seq<PriceLevel>, price: int64) returns (k: nat)
    requires Ordered(isBid, levels)
    ensures Place(isBid, levels, k, price)
  {
    var lo, hi := 0, |levels|;
    while lo < hi
      invariant 0 <= lo <= hi <= |levels|
      invariant forall i :: 0 <= i < lo ==> Better(isBid, levels[i].price, price)
      invariant forall i :: hi <= i < |levels| ==> !Better(isBid, levels[i].price, price)
    {
      var mid := (lo + hi) / 2;
      if Better(isBid, levels[mid].price, price) {
        lo := mid + 1;
      } else {
        hi := mid;
      }
    }
    k := lo;
  }

  /** A price clear of the other side. */
  ghost predicate Clear(isBid: bool, price: int, theirs: seq<PriceLevel>) {
    forall j :: 0 <= j < |theirs| ==> Better(!isBid, price, theirs[j].price)
  }

  lemma {:induction false} InsertKeeps(levels: seq<PriceLevel>, k: nat, level: PriceLevel)
    requires k <= |levels|
    ensures forall l :: l in levels ==> l in levels[..k] + [level] + levels[k..]
  {
  }

  lemma {:induction false} OrderedInsert(isBid: bool, mine: seq<PriceLevel>, k: nat, level: PriceLevel)
    requires Ordered(isBid, mine) && Place(isBid, mine, k, level.price)
    requires forall i :: 0 <= i < |mine| ==> mine[i].price != level.price
    ensures Ordered(isBid, mine[..k] + [level] + mine[k..])
  {
  }

  lemma {:induction false} ApartInsert(
      isBid: bool, mine: seq<PriceLevel>, theirs: seq<PriceLevel>, k: nat, level: PriceLevel)
    requires k <= |mine| && Apart(isBid, mine, theirs) && Clear(isBid, level.price, theirs)
    ensures Apart(isBid, mine[..k] + [level] + mine[k..], theirs)
  {
  }

  lemma {:induction false} FiledInsert(mine: seq<PriceLevel>, m: map<int64, PriceLevel>, k: nat, level: PriceLevel)
    requires k <= |mine| && AllFiled(mine, m) && level.price !in m
    ensures AllFiled(mine[..k] + [level] + mine[k..], m[level.price := level])
    ensures forall i :: 0 <= i < |mine| ==> mine[i].price != level.price
  {
  }

  lemma {:induction false} ShapedInsert(
      isBid: bool, mine: seq<PriceLevel>, theirs: seq<PriceLevel>, m: map<int64, PriceLevel>,
      k: nat, level: PriceLevel)
    requires Shaped(isBid, mine, theirs, m) && level.price !in m
    requires Place(isBid, mine, k, level.price) && Clear(isBid, level.price, theirs)
    requires forall p :: p in m ==> m[p].buffer != level.buffer
    ensures Shaped(isBid, mine[..k] + [level] + mine[k..], theirs, m[level.price := level])
  {
    var mine', m' := mine[..k] + [level] + mine[k..], m[level.price := level];
    FiledInsert(mine, m, k, level);
    FiledInsert(theirs, m, 0, level);
    forall j | 0 <= j < |theirs| ensures Has(m', theirs[j]) {
      assert Has(m, theirs[j]);
    }
    OrderedInsert(isBid, mine, k, level);
    ApartInsert(isBid, mine, theirs, k, level);
    InsertKeeps(mine, k, level);
    assert mine'[k] == level;
    hide Ordered, Place, Apart, AllFiled, Clear;
  }

  /** Without that clearance the sides could not be apart: a level may stand on a side only if it is clear. */
  lemma {:induction false} ClearNeeded(
      isBid: bool, mine: seq<PriceLevel>, theirs: seq<PriceLevel>, m: map<int64, PriceLevel>, k: nat)
    requires Shaped(isBid, mine, theirs, m) && k < |mine|
    ensures Clear(isBid, mine[k].price, theirs)
  {
  }

  /** The sweep would come to a full ring with quantity left, after everything better was not enough. */
  ghost predicate Jams(takerBuys: bool, limit: int64, want: int, levels: seq<PriceLevel>)
    reads levels
  {
    && levels != [] && want > 0 && Crosses(takerBuys, limit, levels[0].price)
    && (levels[0].Full() || Jams(takerBuys, limit, want - Total(levels[0].LiveOrders()), levels[1..]))
  }

  /** Levels that kept their slots jam whom they jammed before. */
  twostate lemma {:induction false} JamsKept(levels: seq<PriceLevel>)
    requires Kept(levels)
    ensures forall buys, limit, want :: Jams(buys, limit, want, levels) == old(Jams(buys, limit, want, levels))
  {
    if levels != [] {
      assert Kept(levels[1..]);
      JamsKept(levels[1..]);
    }
  }

  /** A sweep jams exactly when a level within the limit is full and all better ones together hold too little. */
  lemma {:induction false} JamsIff(takerBuys: bool, limit: int64, want: int, levels: seq<PriceLevel>)
    requires Ordered(!takerBuys, levels)
    decreases |levels|
    ensures Jams(takerBuys, limit, want, levels) <==>
            exists k :: 0 <= k < |levels| && levels[k].Full() && Crosses(takerBuys, limit, levels[k].price)
                        && Total(Flatten(ViewOf(levels[..k]))) < want
  {
    hide LiveOf, Flatten, Total, ViewOf;
    NothingAhead(levels);
    if levels != [] && want > 0 && Crosses(takerBuys, limit, levels[0].price) && !levels[0].Full() {
      var less, behind := want - Total(levels[0].LiveOrders()), levels[1..];
      JamsIff(takerBuys, limit, less, behind);
      forall k | 0 <= k < |behind|
        ensures behind[k] == levels[k + 1]
        ensures Total(Flatten(ViewOf(behind[..k]))) < less <==> Total(Flatten(ViewOf(levels[..k + 1]))) < want
      {
        TotalBehind(levels, k + 1);
      }
    }
  }

  lemma {:induction false} NothingAhead(levels: seq<PriceLevel>)
    ensures Total(Flatten(ViewOf(levels[..0]))) == 0
  {
  }

  /** Without a full level nothing jams. */
  lemma {:induction false} NeverJams(takerBuys: bool, limit: int64, want: int, levels: seq<PriceLevel>)
    requires forall i :: 0 <= i < |levels| ==> !levels[i].Full()
    decreases |levels|
    ensures !Jams(takerBuys, limit, want, levels)
  {
    if levels != [] {
      NeverJams(takerBuys, limit, want - Total(levels[0].LiveOrders()), levels[1..]);
    }
  }

  lemma {:induction false} TotalBehind(levels: seq<PriceLevel>, k: nat)
    requires 0 < k <= |levels|
    ensures Total(Flatten(ViewOf(levels[..k])))
            == Total(levels[0].LiveOrders()) + Total(Flatten(ViewOf(levels[1..][..k - 1])))
  {
    assert ViewOf(levels[..k])[1..] == ViewOf(levels[1..][..k - 1]);
    TotalConcat(levels[0].LiveOrders(), Flatten(ViewOf(levels[1..][..k - 1])));
  }

  lemma {:induction false} PrefixTotal(levels: seq<PriceLevel>, n: nat)
    requires n <= |levels|
    ensures Total(Flatten(ViewOf(levels[..n]))) <= Total(Flatten(ViewOf(levels)))
    ensures n == |levels| ==> Total(Flatten(ViewOf(levels[..n]))) == Total(Flatten(ViewOf(levels)))
  {
    assert levels == levels[..n] + levels[n..];
    assert ViewOf(levels) == ViewOf(levels[..n]) + ViewOf(levels[n..]);
    FlattenConcat(ViewOf(levels[..n]), ViewOf(levels[n..]));
    TotalConcat(Flatten(ViewOf(levels[..n])), Flatten(ViewOf(levels[n..])));
    assert n == |levels| ==> levels[..n] == levels;
  }

  class OrderBook {
    var bidLevels: seq<PriceLevel>
    var askLevels: seq<PriceLevel>
    var priceToLevel: map<int64, PriceLevel>
    var orderIndex: map<uint64, Location>
    var bestBid: int64
    var bestAsk: int64
    var bidDepth: uint32
    var askDepth: uint32
    var sequence: nat

    /** Every order that ever rested in this book. */
    ghost var known: set<Order>

    constructor ()
      ensures Valid() && known == {} && orderIndex == map[] && sequence == 0
      ensures bidLevels == [] && askLevels == [] && Flat(true) == [] && Flat(false) == []
      ensures fresh(Buffers()) && priceToLevel == map[]
    {
      bidLevels, askLevels, priceToLevel, orderIndex := [], [], map[], map[];
      bestBid, bestAsk, bidDepth, askDepth, sequence := 0, INT64_MAX, 0, 0, 0;
      known := {};
    }

    function Levels(isBid: bool): seq<PriceLevel>
      reads `bidLevels, `askLevels
    {
      if isBid then bidLevels else askLevels
    }

    function Depth(isBid: bool): uint32
      reads `bidDepth, `askDepth
    {
      if isBid then bidDepth else askDepth
    }

    /** One side as the flat price-time list of its live orders. */
    ghost function Flat(isBid: bool): seq<Resting>
      reads `bidLevels, `askLevels, Levels(isBid)
    {
      Flatten(ViewOf(Levels(isBid)))
    }

    /** One side, ring by ring. */
    ghost function Rings(isBid: bool): seq<Ring>
      reads `bidLevels, `askLevels, Levels(isBid)
    {
      RingsOf(Levels(isBid))
    }

    ghost function Buffers(): set<array<Order?>>
      reads `priceToLevel, priceToLevel.Values
    {
      set p | p in priceToLevel :: priceToLevel[p].buffer
    }

    predicate Filed(level: PriceLevel)
      reads `priceToLevel
    {
      Has(priceToLevel, level)
    }

    ghost predicate Shape()
      reads `bidLevels, `askLevels, `priceToLevel
    {
      Shaped(true, bidLevels, askLevels, priceToLevel)
    }

    ghost predicate LevelOk(level: PriceLevel)
      reads `known, level, level.buffer, known
    {
      (forall i :: 0 <= i < |level.queue| ==> level.queue[i] in known) && level.Valid()
    }

    ghost predicate Contents()
      reads `priceToLevel, `known, priceToLevel.Values, Buffers(), known
    {
      forall p :: p in priceToLevel ==> LevelOk(priceToLevel[p])
    }

    ghost predicate Located(loc: Location)
      reads `bidLevels, `askLevels, `priceToLevel, priceToLevel.Values
    {
      && loc.price in priceToLevel
      && priceToLevel[loc.price] in Levels(loc.isBid)
      && loc.order in priceToLevel[loc.price].queue
    }

    ghost predicate LocationOk(id: uint64)
      requires id in orderIndex
      reads `bidLevels, `askLevels, `priceToLevel, `orderIndex, `known, priceToLevel.Values, known
    {
      var loc := orderIndex[id];
      && loc.order in known
      && loc.order.id == id && loc.price == loc.order.price && loc.isBid == loc.order.isBuy
      && loc.order.IsActive()
      && (loc.order.remaining > 0 ==> Located(loc))
    }

    ghost predicate Indexed(o: Order)
      reads `orderIndex
    {
      o.id in orderIndex && orderIndex[o.id].order == o
    }

    /** Index entries are live orders at their true place or filled ones; every live order has its entry. */
    ghost predicate IndexOk()
      reads `bidLevels, `askLevels, `priceToLevel, `orderIndex, `known, priceToLevel.Values, known
    {
      && (forall id :: id in orderIndex ==> LocationOk(id))
      && (forall p, i :: p in priceToLevel && 0 <= i < |priceToLevel[p].slots| && priceToLevel[p].slots[i].Live? ==>
            Indexed(priceToLevel[p].slots[i].resting.order))
    }

    ghost predicate KnownOk()
      reads `known, known
    {
      forall o :: o in known ==> o.Accounted()
    }

    ghost predicate Core()
      reads `bidLevels, `askLevels, `priceToLevel, `orderIndex, `known, priceToLevel.Values, Buffers(), known
    {
      Shape() && Contents() && IndexOk() && KnownOk()
    }

    /** Nothing but one level, its buffer and the quantities of its own orders changed. */
    twostate predicate OnlyLevel(level: PriceLevel)
      reads this, priceToLevel.Values, Buffers(), known
    {
      && unchanged(this)
      && (forall p :: p in priceToLevel && priceToLevel[p] != level ==>
            unchanged(priceToLevel[p]) && unchanged(priceToLevel[p].buffer))
      && (forall o :: o in known ==> o.price == old(o.price) && o.status == old(o.status))
      && (forall o :: o in known ==> o.remaining <= old(o.remaining))
      && (forall o :: o in known && o !in old(level.queue) ==> unchanged(o))
    }

    twostate lemma ContentsKept(level: PriceLevel)
      requires old(Shape()) && old(Contents()) && old(Filed(level))
      requires OnlyLevel(level) && LevelOk(level)
      ensures Contents()
    {
      forall p | p in priceToLevel && p != level.price ensures LevelOk(priceToLevel[p]) {
        var l := priceToLevel[p];
        assert old(LevelOk(l)) && old(LevelOk(level));
        forall i | 0 <= i < |l.queue| ensures unchanged(l.queue[i]) {
          assert old(l.Item(l.queue[i], l.slots[i]));
        }
      }
    }

    twostate lemma IndexKept(level: PriceLevel)
      requires old(Shape()) && old(Contents()) && old(IndexOk()) && old(Filed(level))
      requires OnlyLevel(level) && LevelOk(level) && level.Shed(old(level.queue))
      ensures IndexOk()
    {
      hide Shape, Contents, PriceLevel.Valid;
      LiveKept(level);
      forall id | id in orderIndex ensures LocationOk(id) {
        var loc := orderIndex[id];
        assert old(LocationOk(id));
        if loc.order.remaining > 0 {
          assert old(Located(loc));
        }
      }
    }

    /** What is still live on the level was live, and so is still indexed. */
    twostate lemma LiveKept(level: PriceLevel)
      requires old(Shape()) && old(Contents()) && old(IndexOk()) && old(Filed(level))
      requires OnlyLevel(level) && LevelOk(level) && level.Shed(old(level.queue))
      ensures forall p, i :: p in priceToLevel && 0 <= i < |priceToLevel[p].slots| && priceToLevel[p].slots[i].Live? ==>
                Indexed(priceToLevel[p].slots[i].resting.order)
    {
      hide LiveOf, Counted;
      forall p, i | p in priceToLevel && 0 <= i < |priceToLevel[p].slots| && priceToLevel[p].slots[i].Live?
        ensures Indexed(priceToLevel[p].slots[i].resting.order)
      {
        if p == level.price {
          var o := level.queue[i];
          assert level.Item(o, level.slots[i]);
          var j :| 0 <= j < |old(level.queue)| && old(level.queue)[j] == o;
          assert old(LevelOk(level));
          assert old(level.Item(level.queue[j], level.slots[j]));
          assert old(priceToLevel[p].slots[j].Live?);
        } else {
          assert old(priceToLevel[p].slots[i].Live?);
        }
      }
    }

    twostate lemma CoreKept(level: PriceLevel)
      requires old(Core()) && old(Filed(level))
      requires OnlyLevel(level) && LevelOk(level) && level.Shed(old(level.queue)) && KnownOk()
      ensures Core()
    {
      ContentsKept(level);
      IndexKept(level);
    }

    /** Not a field of the book, of this level or of any order has changed. */
    twostate predicate StandsStill(level: PriceLevel, incoming: Order)
      reads this, level, level.buffer, known, incoming
    {
      && unchanged(this) && unchanged(level) && unchanged(level.buffer) && unchanged(incoming)
      && forall o :: o in known ==> unchanged(o)
    }

    /** Matches against one level; only its own orders give anything. */
    method MatchLevel(level: PriceLevel, incoming: Order)
      returns (made: seq<Fill>)
      requires LevelOk(level) && KnownOk()
      requires incoming !in known && incoming.Accounted()
      modifies level, level.buffer, incoming`remaining, incoming`filled, known`remaining, known`filled
      ensures LevelOk(level) && KnownOk() && level.Shed(old(level.queue)) && incoming.Accounted()
      ensures Outcome(made, level.LiveOrders(), incoming.remaining)
              == old(level.Matched(incoming.remaining, incoming.price))
      ensures old(incoming.remaining) > 0 && !old(level.Full()) ==> incoming.remaining == 0 || level.size == 0
      ensures old(level.Full()) ==> StandsStill(level, incoming)
      ensures Paid(old(known), made) && level.size <= old(level.size)
      ensures forall m :: m in known && m !in old(level.queue) ==> unchanged(m)
      ensures level.slots == old(level.Left(incoming.remaining))
    {
      hide Take, PriceLevel.Matched, LiveOf, PriceLevel.Full;
      level.TakesFromQueue(incoming.remaining, incoming.price);
      var rest;
      ghost var goal;
      rest, made, goal := level.MatchOrder(incoming, []);
      assert [] + goal.fills == goal.fills;
      forall m | m in known
        ensures m.Accounted() && m.filled == old(m.filled) + TakenFrom(made, m)
      {
        if m in old(level.queue) {
        } else {
          assert TakenFrom(made, m) == 0;
        }
      }
    }

    ghost predicate DepthOk(isBid: bool)
      reads `bidLevels, `askLevels, `bidDepth, `askDepth, Levels(isBid)
    {
      Depth(isBid) == Wrap32(Total(Flat(isBid)))
    }

    /** The incremental depths are what recomputing them from the levels would give. */
    ghost predicate DepthsOk()
      reads `bidLevels, `askLevels, `bidDepth, `askDepth, bidLevels, askLevels
    {
      DepthOk(true) && DepthOk(false)
    }

    ghost predicate NoneEmpty()
      reads `priceToLevel, priceToLevel.Values
    {
      forall p :: p in priceToLevel ==> priceToLevel[p].size > 0
    }

    /** Every level holds something, except perhaps the one at this price. */
    ghost predicate Crowded(price: int64)
      reads `priceToLevel, priceToLevel.Values
    {
      forall p :: p in priceToLevel && p != price ==> priceToLevel[p].size > 0
    }

    /** The occupied slots at a price, cancelled ones included. */
    ghost function Occupied(price: int64): nat
      reads `priceToLevel, priceToLevel.Values
    {
      if price in priceToLevel then priceToLevel[price].size else 0
    }

    twostate predicate NoneGrew()
      reads `priceToLevel, priceToLevel.Values
    {
      forall p :: Occupied(p) <= old(Occupied(p))
    }

    /** Only the level at this price may have gained a slot, and only one. */
    twostate predicate OneGrew(price: int64)
      reads `priceToLevel, priceToLevel.Values
    {
      forall p :: Occupied(p) <= old(Occupied(p)) + if p == price then 1 else 0
    }

    /** Every level is one the book had, or a new one. */
    twostate predicate Renewed()
      reads `priceToLevel
    {
      forall p :: p in priceToLevel ==>
        (p in old(priceToLevel) && priceToLevel[p] == old(priceToLevel)[p])
        || (fresh(priceToLevel[p]) && fresh(priceToLevel[p].buffer))
    }

    twostate lemma StillOccupied()
      requires unchanged(`priceToLevel) && forall p :: p in priceToLevel ==> unchanged(priceToLevel[p])
      ensures forall p :: Occupied(p) == old(Occupied(p))
    {
    }

    lemma {:induction false} FrontSplit(isBid: bool)
      requires Levels(isBid) != []
      ensures Flat(isBid) == Levels(isBid)[0].LiveOrders() + Flatten(ViewOf(Levels(isBid)[1..]))
    {
      assert ViewOf(Levels(isBid))[1..] == ViewOf(Levels(isBid)[1..]);
    }

    lemma {:induction false} SideShape(isBid: bool)
      requires Shape()
      ensures Shaped(isBid, Levels(isBid), Levels(!isBid), priceToLevel)
    {
    }

    /** Levels without orders may come and go, and counters may move, without touching the core. */
    twostate lemma Reshaped()
      requires old(Core()) && Shape() && orderIndex == old(orderIndex) && known == old(known)
      requires forall p :: p in old(priceToLevel) && old(priceToLevel)[p].queue != [] ==>
                 p in priceToLevel && priceToLevel[p] == old(priceToLevel)[p]
      requires forall side, l :: l in old(Levels(side)) && l.queue != [] ==> l in Levels(side)
      requires forall p :: p in priceToLevel ==>
                 (p in old(priceToLevel) && priceToLevel[p] == old(priceToLevel)[p])
                 || (priceToLevel[p].Valid() && priceToLevel[p].queue == [])
      requires forall p :: p in old(priceToLevel) ==>
                 unchanged(old(priceToLevel)[p]) && unchanged(old(priceToLevel)[p].buffer)
      requires forall o :: o in known ==> unchanged(o)
      ensures Core()
    {
      forall p | p in priceToLevel ensures LevelOk(priceToLevel[p]) {
        if p in old(priceToLevel) && priceToLevel[p] == old(priceToLevel)[p] {
          assert old(LevelOk(priceToLevel[p]));
        }
      }
      forall id | id in orderIndex ensures LocationOk(id) {
        var loc := orderIndex[id];
        assert old(LocationOk(id));
        if loc.order.remaining > 0 {
          assert old(Located(loc));
        }
      }
      forall p, i | p in priceToLevel && 0 <= i < |priceToLevel[p].slots| && priceToLevel[p].slots[i].Live?
        ensures Indexed(priceToLevel[p].slots[i].resting.order)
      {
        assert LevelOk(priceToLevel[p]);
        assert old(priceToLevel[p].slots[i].Live?);
      }
    }

    /** The counters are no part of the core, and neither is a freshly allocated level. */
    twostate lemma CoreFrame()
      requires old(Core()) && unchanged(`bidLevels, `askLevels, `priceToLevel, `orderIndex, `known)
      requires forall p :: p in priceToLevel ==> unchanged(priceToLevel[p]) && unchanged(priceToLevel[p].buffer)
      requires forall o :: o in known ==> unchanged(o)
      ensures Core()
    {
      Reshaped();
    }

    lemma {:induction false} ShapeWithout(isBid: bool, k: nat)
      requires Shape() && k < |Levels(isBid)|
      ensures Filed(Levels(isBid)[k])
      ensures var levels := Levels(isBid);
              Shaped(isBid, levels[..k] + levels[k + 1..], Levels(!isBid), priceToLevel - {levels[k].price})
    {
      SideShape(isBid);
      ShapedDrop(isBid, Levels(isBid), Levels(!isBid), priceToLevel, k);
    }

    /** The level at position k, now without orders, leaves the side and the map. */
    method DropLevel(isBid: bool, k: nat)
      requires Core() && k < |Levels(isBid)| && Levels(isBid)[k].queue == []
      modifies `priceToLevel, `bidLevels, `askLevels
      ensures Core()
      ensures Levels(isBid) == old(Levels(isBid)[..k] + Levels(isBid)[k + 1..])
      ensures Levels(!isBid) == old(Levels(!isBid))
      ensures priceToLevel == old(priceToLevel - {Levels(isBid)[k].price})
    {
      hide Contents, IndexOk, KnownOk, Shaped;
      var levels := Levels(isBid);
      ShapeWithout(isBid, k);
      priceToLevel := priceToLevel - {levels[k].price};
      SetLevels(isBid, levels[..k] + levels[k + 1..]);
      CutKeeps(levels, k);
      Reshaped();
    }

    /** Replaces one side's vector; the shape is judged from that side. */
    method SetLevels(isBid: bool, levels: seq<PriceLevel>)
      requires Shaped(isBid, levels, Levels(!isBid), priceToLevel)
      modifies `bidLevels, `askLevels
      ensures Levels(isBid) == levels && Levels(!isBid) == old(Levels(!isBid)) && Shape()
    {
      if isBid {
        bidLevels := levels;
      } else {
        askLevels := levels;
        ShapedFlip(false, askLevels, bidLevels, priceToLevel);
      }
    }

    /** What greedy matching of the incoming order against the other side comes to. */
    ghost function Plan(incoming: Order): Outcome
      reads `bidLevels, `askLevels, Levels(!incoming.isBuy), incoming
    {
      Greedy(incoming.isBuy, incoming.price, Flat(!incoming.isBuy), incoming.remaining)
    }

    lemma {:induction false} PlanIs(incoming: Order)
      ensures Plan(incoming) == Greedy(incoming.isBuy, incoming.price, Flat(!incoming.isBuy), incoming.remaining)
    {
    }

    /** Greedy matching starts by taking from the front level, when the limit reaches it. */
    lemma {:induction false} PlanFront(takerBuys: bool, limit: int64, want: uint32)
      requires Levels(!takerBuys) != [] && Levels(!takerBuys)[0].Items()
      requires Crosses(takerBuys, limit, Levels(!takerBuys)[0].price)
      ensures var t := Levels(!takerBuys)[0].Matched(want, limit);
              Greedy(takerBuys, limit, Flat(!takerBuys), want)
              == Prepend(t.fills, Greedy(takerBuys, limit,
                                         t.left + Flatten(ViewOf(Levels(!takerBuys)[1..])), t.remaining))
    {
      hide Greedy, Take, LiveOf, Flatten, ViewOf, Crosses, PriceLevel.Items;
      var level := Levels(!takerBuys)[0];
      FrontSplit(!takerBuys);
      level.LiveInQueue();
      GreedyAcross(takerBuys, limit, level.LiveOrders(), Flatten(ViewOf(Levels(!takerBuys)[1..])), want);
    }

    method MatchKeepingCore(level: PriceLevel, incoming: Order)
      returns (made: seq<Fill>)
      requires Core() && Filed(level) && incoming !in known && incoming.Accounted() && incoming.remaining > 0
      modifies level, level.buffer, incoming`remaining, incoming`filled, known`remaining, known`filled
      ensures Core() && incoming.Accounted()
      ensures Outcome(made, level.LiveOrders(), incoming.remaining)
              == old(level.Matched(incoming.remaining, incoming.price))
      ensures incoming.remaining == 0 || level.size == 0 || old(level.Full())
      ensures old(level.Full()) ==> StandsStill(level, incoming)
      ensures level.size <= old(level.size)
      ensures Paid(old(known), made)
      ensures level.slots == old(level.Left(incoming.remaining))
    {
      made := MatchLevel(level, incoming);
      CoreKept(level);
    }

    method MatchFront(level: PriceLevel, incoming: Order)
      returns (made: seq<Fill>)
      requires Core() && Levels(!incoming.isBuy) != [] && Levels(!incoming.isBuy)[0] == level
      requires incoming !in known && incoming.Accounted() && incoming.remaining > 0
      requires Crosses(incoming.isBuy, incoming.price, level.price)
      modifies level, level.buffer, incoming`remaining, incoming`filled, known`remaining, known`filled
      ensures Core() && incoming.Accounted()
      ensures Outcome(made, level.LiveOrders(), incoming.remaining)
              == old(level.Matched(incoming.remaining, incoming.price))
      ensures incoming.remaining == 0 || level.size == 0 || old(level.Full())
      ensures old(level.Full()) ==> StandsStill(level, incoming)
      ensures level.size <= old(level.size)
      ensures Paid(old(known), made)
      ensures old(Plan(incoming)) == Prepend(made, Plan(incoming))
      ensures Kept(old(Levels(!incoming.isBuy)[1..]))
      ensures ViewOf(Levels(!incoming.isBuy)[1..]) == old(ViewOf(Levels(!incoming.isBuy)[1..]))
      ensures Kept(old(Levels(incoming.isBuy)))
      ensures level.slots == old(level.Left(incoming.remaining))
    {
      hide Core, Greedy, Flatten, LiveOf, Take;
      ghost var behind := Levels(!incoming.isBuy)[1..];
      ghost var own := Levels(incoming.isBuy);
      LevelAlone(!incoming.isBuy, 0, Levels(!incoming.isBuy), own);
      CoreLevel(!incoming.isBuy, 0);
      PlanFront(incoming.isBuy, incoming.price, incoming.remaining);
      made := MatchKeepingCore(level, incoming);
      ViewKept(behind);
      FrontSplit(!incoming.isBuy);
    }

    lemma {:induction false} CoreLevel(isBid: bool, k: nat)
      requires Core() && k < |Levels(isBid)|
      ensures Filed(Levels(isBid)[k]) && LevelOk(Levels(isBid)[k])
      ensures Levels(isBid)[k].totalQuantity == Wrap32(Total(Levels(isBid)[k].LiveOrders()))
      ensures Levels(isBid)[k].size == |Levels(isBid)[k].slots|
      ensures Levels(isBid)[k].size == 0 ==> Levels(isBid)[k].LiveOrders() == []
    {
    }

    lemma {:induction false} LevelAlone(isBid: bool, k: nat, mine: seq<PriceLevel>, theirs: seq<PriceLevel>)
      requires Core() && mine == Levels(isBid) && theirs == Levels(!isBid) && k < |mine|
      ensures forall i :: 0 <= i < |mine| && i != k ==> mine[i] != mine[k]
      ensures forall i :: 0 <= i < |theirs| ==> theirs[i] != mine[k]
    {
    }

    lemma {:induction false} FrontTotal(isBid: bool)
      requires Levels(isBid) != []
      ensures Total(Flat(isBid)) ==
              Total(Levels(isBid)[0].LiveOrders()) + Total(Flatten(ViewOf(Levels(isBid)[1..])))
    {
      FrontSplit(isBid);
      TotalConcat(Levels(isBid)[0].LiveOrders(), Flatten(ViewOf(Levels(isBid)[1..])));
    }

    /** A level's total went from `before` to `after`; the side's depth follows by the wrapped difference. */
    method LowerDepth(
        isBid: bool, before: uint32, after: uint32, ghost was: int, ghost b: int, ghost a: int, ghost incoming: Order)
      requires Core() && Depth(isBid) == Wrap32(was) && DepthOk(!isBid)
      requires before == Wrap32(b) && after == Wrap32(a) && Total(Flat(isBid)) == was - b + a
      modifies `bidDepth, `askDepth
      ensures Core() && DepthOk(isBid) && DepthOk(!isBid)
      ensures before == after ==> unchanged(this)
      ensures Plan(incoming) == old(Plan(incoming))
    {
      hide Greedy;
      hide LiveOf, ViewOf;
      hide Core, Flatten, Total;
      WrapDifference(was, b, a);
      var diff := Wrap32(before - after);
      if isBid {
        bidDepth := Wrap32(bidDepth - diff);
      } else {
        askDepth := Wrap32(askDepth - diff);
      }
      CoreFrame();
    }

    method MatchFrontDepth(level: PriceLevel, incoming: Order)
      returns (made: seq<Fill>)
      requires Core() && Levels(!incoming.isBuy) != [] && Levels(!incoming.isBuy)[0] == level
      requires DepthOk(incoming.isBuy) && DepthOk(!incoming.isBuy)
      requires incoming !in known && incoming.Accounted() && incoming.remaining > 0
      requires Crosses(incoming.isBuy, incoming.price, level.price)
      modifies `bidDepth, `askDepth
      modifies level, level.buffer, incoming`remaining, incoming`filled, known`remaining, known`filled
      ensures Core() && incoming.Accounted()
      ensures DepthOk(incoming.isBuy) && DepthOk(!incoming.isBuy)
      ensures incoming.remaining == 0 || level.size == 0 || old(level.Full())
      ensures old(level.Full()) ==> StandsStill(level, incoming)
      ensures level.size <= old(level.size)
      ensures Paid(old(known), made)
      ensures Outcome(made, level.LiveOrders(), incoming.remaining)
              == old(level.Matched(incoming.remaining, incoming.price))
      ensures old(Plan(incoming)) == Prepend(made, Plan(incoming))
      ensures Kept(old(Levels(!incoming.isBuy)[1..]))
      ensures Kept(old(Levels(incoming.isBuy)))
      ensures level.slots == old(level.Left(incoming.remaining))
    {
      hide Core, Plan, Greedy, Take, Flatten, LiveOf, Total, ViewOf, PriceLevel.Left, PriceLevel.Matched;
      var side := !incoming.isBuy;
      FrontTotal(side);
      CoreLevel(side, 0);
      ghost var was, b := Total(Flat(side)), Total(level.LiveOrders());
      var before := level.totalQuantity;
      made := MatchFront(level, incoming);
      ViewKept(Levels(incoming.isBuy));
      FrontTotal(side);
      CoreLevel(side, 0);
      LowerDepth(side, before, level.totalQuantity, was, b, Total(level.LiveOrders()), incoming);
    }

    lemma {:induction false} EmptyFront(isBid: bool)
      requires Core() && Levels(isBid) != [] && Levels(isBid)[0].size == 0
      ensures Levels(isBid)[0].queue == [] && Flat(isBid) == Flatten(ViewOf(Levels(isBid)[1..]))
    {
      CoreLevel(isBid, 0);
      FrontSplit(isBid);
    }

    /** Drops the swept front level; the flat list does not notice. */
    method DropFront(isBid: bool)
      requires Core() && Levels(isBid) != [] && Levels(isBid)[0].size == 0
      requires DepthOk(isBid) && DepthOk(!isBid)
      modifies `priceToLevel, `bidLevels, `askLevels
      ensures Core() && DepthOk(isBid) && DepthOk(!isBid)
      ensures Levels(isBid) == old(Levels(isBid)[1..]) && Levels(!isBid) == old(Levels(!isBid))
      ensures priceToLevel == old(priceToLevel - {Levels(isBid)[0].price})
      ensures Flat(isBid) == old(Flat(isBid))
    {
      hide Core, Flatten, Total;
      EmptyFront(isBid);
      ghost var behind := Levels(isBid)[1..];
      DropLevel(isBid, 0);
      assert Levels(isBid) == behind;
    }

    lemma {:induction false} MapPrices()
      requires Core()
      ensures forall p :: p in priceToLevel ==> priceToLevel[p].price == p
    {
    }

    /** The sweep of this order would come to a full level. */
    ghost predicate Jammed(incoming: Order)
      reads `bidLevels, `askLevels, Levels(!incoming.isBuy), incoming
    {
      Jams(incoming.isBuy, incoming.price, incoming.remaining, Levels(!incoming.isBuy))
    }

    lemma {:induction false} RoomEverywhere(takerBuys: bool, limit: int64, want: int)
      requires Core() && forall p :: Occupied(p) < MAX_ORDERS
      ensures !Jams(takerBuys, limit, want, Levels(!takerBuys))
    {
      var levels := Levels(!takerBuys);
      forall i | 0 <= i < |levels| ensures !levels[i].Full() {
        assert Filed(levels[i]) && Occupied(levels[i].price) == levels[i].size;
      }
      NeverJams(takerBuys, limit, want, levels);
    }

    /** Past a full level within its limit gets nobody who wants more than the whole side holds. */
    lemma {:induction false} FullLevelJams(incoming: Order, price: int64)
      requires Core() && Occupied(price) >= MAX_ORDERS && priceToLevel[price] in Levels(!incoming.isBuy)
      requires Crosses(incoming.isBuy, incoming.price, price) && Total(Flat(!incoming.isBuy)) < incoming.remaining
      ensures Jammed(incoming)
    {
      hide Contents, IndexOk, KnownOk, Flatten, Total, Jams, LiveOf, ViewOf, Crosses;
      var levels := Levels(!incoming.isBuy);
      SideShape(!incoming.isBuy);
      assert priceToLevel[price] in levels;
      var k :| 0 <= k < |levels| && levels[k] == priceToLevel[price];
      hide Shaped, Shape;
      PrefixTotal(levels, k);
      JamsIff(incoming.isBuy, incoming.price, incoming.remaining, levels);
    }

    lemma {:induction false} OnlySide(isBid: bool, price: int64)
      requires Core() && price in priceToLevel && Levels(!isBid) == []
      ensures priceToLevel[price] in Levels(isBid)
    {
      SideShape(isBid);
    }

    /** Then the loop has not come to its end. */
    lemma {:induction false} JammedGoesOn(incoming: Order)
      requires Jammed(incoming)
      ensures Levels(!incoming.isBuy) != [] && incoming.remaining > 0
      ensures Crosses(incoming.isBuy, incoming.price, Levels(!incoming.isBuy)[0].price)
    {
    }

    /** After matching the front level, what is left jams exactly if it was to jam before. */
    twostate lemma JamStep(incoming: Order)
      requires old(Levels(!incoming.isBuy)) == Levels(!incoming.isBuy) != [] && old(incoming.remaining) > 0
      requires Kept(Levels(!incoming.isBuy)[1..])
      requires incoming.price == old(incoming.price)
      requires Crosses(incoming.isBuy, incoming.price, Levels(!incoming.isBuy)[0].price)
      requires var level := Levels(!incoming.isBuy)[0];
               && old(level.Matched(incoming.remaining, incoming.price)).left == level.LiveOrders()
               && old(level.Matched(incoming.remaining, incoming.price)).remaining == incoming.remaining
               && (old(level.Full()) ==> level.Full())
               && (!old(level.Full()) ==> !level.Full())
               && (level.size == 0 ==> level.LiveOrders() == [])
               && (incoming.remaining == 0 || level.size == 0 || level.Full())
      ensures var levels := Levels(!incoming.isBuy);
              Jams(incoming.isBuy, incoming.price, incoming.remaining,
                   if levels[0].size == 0 then levels[1..] else levels) == old(Jammed(incoming))
      ensures old(Levels(!incoming.isBuy)[0].Full()) ==> old(Jammed(incoming))
    {
      var level := Levels(!incoming.isBuy)[0];
      var behind := Levels(!incoming.isBuy)[1..];
      var had := old(Total(level.LiveOrders()));
      assert old(Jammed(incoming))
             == (old(level.Full()) || old(Jams(incoming.isBuy, incoming.price, incoming.remaining - had, behind)));
      JamsKept(Levels(!incoming.isBuy)[1..]);
      TakeBalance(old(level.LiveOrders()), old(incoming.remaining), incoming.price);
    }

    /** What the sweep is going to leave of the other side, ring by ring. */
    ghost function SweptRings(incoming: Order): seq<Ring>
      reads `bidLevels, `askLevels, Levels(!incoming.isBuy), incoming
    {
      Swept(incoming.isBuy, incoming.price, Rings(!incoming.isBuy), incoming.remaining)
    }

    lemma {:induction false} SweptIs(incoming: Order)
      ensures SweptRings(incoming)
              == Swept(incoming.isBuy, incoming.price, Rings(!incoming.isBuy), incoming.remaining)
    {
    }

    lemma {:induction false} SweptDone(incoming: Order)
      requires var levels := Levels(!incoming.isBuy);
               levels == [] || incoming.remaining == 0 || !Crosses(incoming.isBuy, incoming.price, levels[0].price)
      ensures SweptRings(incoming) == Rings(!incoming.isBuy)
    {
    }

    /** After matching the front level, the sweep is going to leave what it was going to leave. */
    twostate lemma SweptStep(incoming: Order)
      requires old(Levels(!incoming.isBuy)) == Levels(!incoming.isBuy) != [] && old(incoming.remaining) > 0
      requires Kept(Levels(!incoming.isBuy)[1..])
      requires incoming.price == old(incoming.price)
      requires Crosses(incoming.isBuy, incoming.price, Levels(!incoming.isBuy)[0].price)
      requires var level := Levels(!incoming.isBuy)[0];
               && old(level.Matched(incoming.remaining, incoming.price)).left == level.LiveOrders()
               && old(level.Matched(incoming.remaining, incoming.price)).remaining == incoming.remaining
               && level.slots == old(level.Left(incoming.remaining))
               && level.size == |level.slots| && old(level.size) == |old(level.slots)|
               && (incoming.remaining == 0 || level.size == 0 || old(level.Full()))
      ensures var levels := Levels(!incoming.isBuy);
              Swept(incoming.isBuy, incoming.price, RingsOf(if levels[0].size == 0 then levels[1..] else levels),
                    incoming.remaining) == old(SweptRings(incoming))
    {
      hide Take, Consumed, LiveOf, Total, Swept, RingsOf, Crosses;
      var levels := Levels(!incoming.isBuy);
      RingsKept(levels[1..]);
      RingsFront(levels);
      ghost var was := old(levels[0].slots);
      NothingLeft(levels[0]);
      TakeBalance(old(levels[0].LiveOrders()), old(incoming.remaining), incoming.price);
      SweptTurn(incoming.isBuy, incoming.price, Ring(levels[0].price, was), RingsOf(levels[1..]),
                old(incoming.remaining), levels[0].slots, incoming.remaining);
    }

    static twostate lemma RingsFront(levels: seq<PriceLevel>)
      requires levels != []
      ensures RingsOf(levels) == [Ring(levels[0].price, levels[0].slots)] + RingsOf(levels[1..])
      ensures old(RingsOf(levels)) == [Ring(levels[0].price, old(levels[0].slots))] + old(RingsOf(levels[1..]))
    {
    }

    static lemma {:induction false} NothingLeft(level: PriceLevel)
      ensures level.slots == [] ==> Total(level.LiveOrders()) == 0
    {
    }

    /** Matching the front level, in view of what the sweep has still to come to. */
    method MatchFrontOn(level: PriceLevel, incoming: Order)
      returns (made: seq<Fill>)
      requires Core() && Levels(!incoming.isBuy) != [] && Levels(!incoming.isBuy)[0] == level
      requires DepthOk(incoming.isBuy) && DepthOk(!incoming.isBuy)
      requires incoming !in known && incoming.Accounted() && incoming.remaining > 0
      requires Crosses(incoming.isBuy, incoming.price, level.price)
      modifies `bidDepth, `askDepth
      modifies level, level.buffer, incoming`remaining, incoming`filled, known`remaining, known`filled
      ensures Core() && incoming.Accounted()
      ensures DepthOk(incoming.isBuy) && DepthOk(!incoming.isBuy)
      ensures incoming.remaining == 0 || level.size == 0 || old(Jammed(incoming))
      ensures old(level.Full()) ==> made == [] && level.size > 0 && StandsStill(level, incoming)
      ensures level.size <= old(level.size)
      ensures Paid(old(known), made)
      ensures old(Plan(incoming)) == Prepend(made, Plan(incoming))
      ensures Rings(incoming.isBuy) == old(Rings(incoming.isBuy))
      ensures var levels := Levels(!incoming.isBuy);
              Jams(incoming.isBuy, incoming.price, incoming.remaining,
                   if level.size == 0 then levels[1..] else levels) == old(Jammed(incoming))
      ensures var levels := Levels(!incoming.isBuy);
              Swept(incoming.isBuy, incoming.price, RingsOf(if level.size == 0 then levels[1..] else levels),
                    incoming.remaining) == old(SweptRings(incoming))
    {
      hide Core, Plan, Greedy, Take, Flatten, LiveOf, Total, ViewOf, Jams, DepthOk, LevelOk, Swept, RingsOf, Consumed;
      CoreLevel(!incoming.isBuy, 0);
      made := MatchFrontDepth(level, incoming);
      RingsKept(Levels(incoming.isBuy));
      CoreLevel(!incoming.isBuy, 0);
      JamStep(incoming);
      SweptStep(incoming);
    }

    /** One turn of the sweep loop. */
    method SweepFront(level: PriceLevel, incoming: Order)
      returns (made: seq<Fill>)
      requires Core() && NoneEmpty() && DepthOk(incoming.isBuy) && DepthOk(!incoming.isBuy)
      requires Levels(!incoming.isBuy) != [] && Levels(!incoming.isBuy)[0] == level
      requires incoming !in known && incoming.Accounted() && incoming.remaining > 0
      requires Crosses(incoming.isBuy, incoming.price, level.price)
      modifies `bidDepth, `askDepth, `priceToLevel, `bidLevels, `askLevels
      modifies level, level.buffer, incoming`remaining, incoming`filled, known`remaining, known`filled
      ensures Core() && NoneEmpty() && DepthOk(incoming.isBuy) && DepthOk(!incoming.isBuy) && incoming.Accounted()
      ensures Paid(old(known), made)
      ensures old(Plan(incoming)) == Prepend(made, Plan(incoming))
      ensures Levels(incoming.isBuy) == old(Levels(incoming.isBuy))
      ensures Rings(incoming.isBuy) == old(Rings(incoming.isBuy))
      ensures forall p :: p in priceToLevel ==> p in old(priceToLevel) && priceToLevel[p] == old(priceToLevel)[p]
      ensures NoneGrew()
      ensures |Levels(!incoming.isBuy)| <= old(|Levels(!incoming.isBuy)|)
      ensures |Levels(!incoming.isBuy)| == old(|Levels(!incoming.isBuy)|) ==>
                incoming.remaining == 0 || old(Jammed(incoming))
      ensures Jammed(incoming) == old(Jammed(incoming))
      ensures old(level.Full()) ==> made == [] && StandsStill(level, incoming)
      ensures SweptRings(incoming) == old(SweptRings(incoming))
    {
      hide Core, Greedy, Flatten, Total, Take, Jams, PriceLevel.LiveOrders, Flat, Prepend, Plan, Rings;
      hide PriceLevel.Full, Kept, Paid, NoneGrew, Occupied, Swept, RingsOf, Jammed, SweptRings, DepthOk, Crosses;
      MapPrices();
      CoreLevel(!incoming.isBuy, 0);
      made := MatchFrontOn(level, incoming);
      DropEmptied(level, incoming);
      Shrunk(level);
    }

    /** The front level goes if the match has emptied it. */
    method DropEmptied(level: PriceLevel, incoming: Order)
      requires Core() && Levels(!incoming.isBuy) != [] && Levels(!incoming.isBuy)[0] == level && Crowded(level.price)
      requires DepthOk(incoming.isBuy) && DepthOk(!incoming.isBuy)
      modifies `priceToLevel, `bidLevels, `askLevels
      ensures Core() && NoneEmpty() && DepthOk(incoming.isBuy) && DepthOk(!incoming.isBuy)
      ensures Levels(!incoming.isBuy)
              == if level.size == 0 then old(Levels(!incoming.isBuy))[1..] else old(Levels(!incoming.isBuy))
      ensures Levels(incoming.isBuy) == old(Levels(incoming.isBuy))
      ensures Rings(incoming.isBuy) == old(Rings(incoming.isBuy)) && Plan(incoming) == old(Plan(incoming))
      ensures var left := if level.size == 0 then old(Levels(!incoming.isBuy))[1..] else old(Levels(!incoming.isBuy));
              && Jammed(incoming) == old(Jams(incoming.isBuy, incoming.price, incoming.remaining, left))
              && SweptRings(incoming)
                 == old(Swept(incoming.isBuy, incoming.price, RingsOf(left), incoming.remaining))
      ensures forall p :: p in priceToLevel ==> p in old(priceToLevel) && priceToLevel[p] == old(priceToLevel)[p]
      ensures level.size > 0 ==> unchanged(this)
    {
      hide Core, Flatten, Total, LiveOf, DepthOk, Flat, Greedy, Swept, Jams;
      MapPrices();
      CoreLevel(!incoming.isBuy, 0);
      if level.Empty() {
        DropFront(!incoming.isBuy);
      }
    }

    /** Levels that went, and a level that lost slots, leave no level with more. */
    twostate lemma Shrunk(level: PriceLevel)
      requires forall p :: p in priceToLevel ==> p in old(priceToLevel) && priceToLevel[p] == old(priceToLevel)[p]
      requires level.size <= old(level.size)
      requires forall p :: p in priceToLevel && priceToLevel[p] != level ==> unchanged(priceToLevel[p])
      ensures NoneGrew()
    {
    }

    lemma {:induction false} SideView(isBid: bool)
      requires Core()
      ensures Sorted(isBid, ViewOf(Levels(isBid))) && Priced(ViewOf(Levels(isBid)))
    {
      SideShape(isBid);
      forall i, r | 0 <= i < |Levels(isBid)| && r in ViewOf(Levels(isBid))[i].live
        ensures r.price == ViewOf(Levels(isBid))[i].price
      {
        CoreLevel(isBid, i);
        Levels(isBid)[i].LiveInQueue();
      }
    }

    /** The sweep ends where greedy matching ends. */
    lemma {:induction false} PlanDone(incoming: Order)
      requires Core()
      requires var levels := Levels(!incoming.isBuy);
               levels == [] || incoming.remaining == 0 || !Crosses(incoming.isBuy, incoming.price, levels[0].price)
      ensures Plan(incoming) == Outcome([], Flat(!incoming.isBuy), incoming.remaining)
    {
      SideView(!incoming.isBuy);
      GreedyStop(incoming.isBuy, incoming.price, ViewOf(Levels(!incoming.isBuy)), incoming.remaining);
    }

    /** The loop of `match`: best level first, while the limit reaches it and quantity is left. */
    method Sweep(incoming: Order) returns (made: seq<Fill>)
      requires Core() && NoneEmpty() && DepthOk(incoming.isBuy) && DepthOk(!incoming.isBuy)
      requires incoming !in known && incoming.Accounted() && !Jammed(incoming)
      modifies `bidDepth, `askDepth, `priceToLevel, `bidLevels, `askLevels
      modifies priceToLevel.Values, Buffers(), incoming`remaining, incoming`filled, known`remaining, known`filled
      ensures Core() && NoneEmpty() && DepthOk(incoming.isBuy) && DepthOk(!incoming.isBuy) && incoming.Accounted()
      ensures old(Plan(incoming)) == Outcome(made, Flat(!incoming.isBuy), incoming.remaining)
      ensures Paid(old(known), made)
      ensures Levels(incoming.isBuy) == old(Levels(incoming.isBuy))
      ensures Rings(incoming.isBuy) == old(Rings(incoming.isBuy))
      ensures forall p :: p in priceToLevel ==> p in old(priceToLevel) && priceToLevel[p] == old(priceToLevel)[p]
      ensures NoneGrew()
      ensures incoming.remaining > 0 && Levels(!incoming.isBuy) != [] ==>
                !Crosses(incoming.isBuy, incoming.price, Levels(!incoming.isBuy)[0].price)
      ensures Rings(!incoming.isBuy) == old(SweptRings(incoming))
    {
      hide Rings, RingsOf, Kept;
      hide Core, Greedy, Flatten, Total, Take, NoneEmpty, DepthOk, Plan, ViewOf, Flat, Crosses;
      hide TakenFrom, Traded, Prepend, LevelOk, Jammed, SweptRings, Wrap32;
      made := [];
      PrependEnds(made, Plan(incoming));
      while Levels(!incoming.isBuy) != [] && incoming.remaining > 0
        invariant Core() && NoneEmpty() && DepthOk(incoming.isBuy) && DepthOk(!incoming.isBuy) && incoming.Accounted()
        invariant old(Plan(incoming)) == Prepend(made, Plan(incoming))
        invariant Paid(old(known), made)
        invariant Levels(incoming.isBuy) == old(Levels(incoming.isBuy))
        invariant Rings(incoming.isBuy) == old(Rings(incoming.isBuy))
        invariant forall p :: p in priceToLevel ==> p in old(priceToLevel) && priceToLevel[p] == old(priceToLevel)[p]
        invariant NoneGrew()
        invariant !Jammed(incoming) && SweptRings(incoming) == old(SweptRings(incoming))
        decreases |Levels(!incoming.isBuy)|, incoming.remaining
      {
        var level := Levels(!incoming.isBuy)[0];
        if !Crosses(incoming.isBuy, incoming.price, level.price) {
          break;
        }
        CoreLevel(!incoming.isBuy, 0);
        var more := SweepFront(level, incoming);
        TradedConcat(made, more);
        PrependAssoc(made, more, Plan(incoming));
        made := made + more;
      }
      PlanDone(incoming);
      SweptDone(incoming);
      PrependEnds(made, Plan(incoming));
    }

    /** Let a jammed order's loop take any number of turns: it has still not come to its end. */
    method SweepTurns(incoming: Order, turns: nat) returns (made: seq<Fill>)
      requires Core() && NoneEmpty() && DepthOk(incoming.isBuy) && DepthOk(!incoming.isBuy)
      requires incoming !in known && incoming.Accounted() && Jammed(incoming)
      modifies `bidDepth, `askDepth, `priceToLevel, `bidLevels, `askLevels
      modifies priceToLevel.Values, Buffers(), incoming`remaining, incoming`filled, known`remaining, known`filled
      ensures Core() && NoneEmpty() && Jammed(incoming)
      ensures Levels(!incoming.isBuy) != [] && incoming.remaining > 0
      ensures Crosses(incoming.isBuy, incoming.price, Levels(!incoming.isBuy)[0].price)
      ensures old(Plan(incoming)) == Prepend(made, Plan(incoming))
    {
      hide Core, Greedy, Flatten, Total, Take, NoneEmpty, DepthOk, Plan, ViewOf, Flat, Crosses;
      hide TakenFrom, Traded, Prepend, LevelOk, Jammed;
      made := [];
      PrependEnds(made, Plan(incoming));
      var i := 0;
      while i < turns
        invariant 0 <= i <= turns
        invariant Core() && NoneEmpty() && DepthOk(incoming.isBuy) && DepthOk(!incoming.isBuy) && incoming.Accounted()
        invariant old(Plan(incoming)) == Prepend(made, Plan(incoming)) && Jammed(incoming)
        invariant forall p :: p in priceToLevel ==> p in old(priceToLevel) && priceToLevel[p] == old(priceToLevel)[p]
      {
        JammedGoesOn(incoming);
        CoreLevel(!incoming.isBuy, 0);
        var more := SweepFront(Levels(!incoming.isBuy)[0], incoming);
        PrependAssoc(made, more, Plan(incoming));
        made := made + more;
        i := i + 1;
      }
      JammedGoesOn(incoming);
    }

    /** Files a new level, still without orders, where the sort order wants it. */
    method InsertLevel(level: PriceLevel, isBid: bool) returns (ghost k: nat)
      requires Core() && level.Valid() && level.queue == [] && level.price !in priceToLevel
      requires Clear(isBid, level.price, Levels(!isBid))
      requires forall p :: p in priceToLevel ==> priceToLevel[p].buffer != level.buffer
      modifies `priceToLevel, `bidLevels, `askLevels
      ensures Core() && priceToLevel == old(priceToLevel)[level.price := level]
      ensures Place(isBid, old(Levels(isBid)), k, level.price)
      ensures Levels(isBid) == old(Levels(isBid)[..k] + [level] + Levels(isBid)[k..])
      ensures Levels(!isBid) == old(Levels(!isBid))
    {
      hide Contents, IndexOk, KnownOk, Shaped;
      var levels := Levels(isBid);
      var at := PlaceFor(isBid, level.price);
      k := at;
      SideShape(isBid);
      ShapedInsert(isBid, levels, Levels(!isBid), priceToLevel, k, level);
      priceToLevel := priceToLevel[level.price := level];
      SetLevels(isBid, levels[..at] + [level] + levels[at..]);
      InsertKeeps(levels, k, level);
      Reshaped();
    }

    method PlaceFor(isBid: bool, price: int64) returns (k: nat)
      requires Shape()
      ensures Place(isBid, Levels(isBid), k, price)
    {
      SideShape(isBid);
      k := LowerBound(isBid, Levels(isBid), price);
    }

    /** The side-blind lookup finds a level of the right side whenever the price is clear of the other. */
    lemma {:induction false} OwnLevel(isBid: bool, price: int64) returns (k: nat)
      requires Core() && price in priceToLevel && Clear(isBid, price, Levels(!isBid))
      ensures k < |Levels(isBid)| && Levels(isBid)[k] == priceToLevel[price]
    {
      SideShape(isBid);
      var level := priceToLevel[price];
      var theirs := Levels(!isBid);
      assert forall j :: 0 <= j < |theirs| ==> theirs[j] != level;
      k :| 0 <= k < |Levels(isBid)| && Levels(isBid)[k] == level;
    }

    function FindLevel(price: int64): PriceLevel?
      reads `priceToLevel
    {
      if price in priceToLevel then priceToLevel[price] else null
    }

    /** A level without orders is invisible in the flat list. */
    lemma {:induction false} EmptyLevelFlat(was: seq<PriceLevel>, k: nat, level: PriceLevel)
      requires k <= |was| && level.LiveOrders() == []
      ensures Flatten(ViewOf(was[..k] + [level] + was[k..])) == Flatten(ViewOf(was))
    {
      hide Flatten, LiveOf, ViewOf;
      var v, m := ViewOf(was), LevelView(level.price, []);
      ViewInsert(was, k, level);
      DropEmptyLevel(v[..k], m, v[k..]);
    }

    /** Nor does it matter to where an order at its price goes. */
    lemma {:induction false} EmptyLevelRings(
        isBid: bool, was: seq<PriceLevel>, k: nat, level: PriceLevel, slot: Slot)
      requires level.slots == [] && Place(isBid, was, k, level.price)
      requires forall i :: 0 <= i < |was| ==> was[i].price != level.price
      ensures var now := was[..k] + [level] + was[k..];
              Lodged(isBid, RingsOf(now), level.price, slot) == Lodged(isBid, RingsOf(was), level.price, slot)
    {
      var now, side := was[..k] + [level] + was[k..], RingsOf(was);
      assert RingsOf(now) == side[..k] + [Ring(level.price, [])] + side[k..];
      LodgedNew(isBid, side, k, level.price, slot);
    }

    lemma {:induction false} NoSuchLevel(isBid: bool, price: int64)
      requires Shape() && price !in priceToLevel
      ensures forall i :: 0 <= i < |Levels(isBid)| ==> Levels(isBid)[i].price != price
    {
      SideShape(isBid);
    }

    /** The level for a price on one side, created if the price has none. */
    method LevelFor(isBid: bool, price: int64, ghost slot: Slot) returns (level: PriceLevel, ghost k: nat)
      requires Core() && Clear(isBid, price, Levels(!isBid))
      modifies `priceToLevel, `bidLevels, `askLevels
      ensures Core() && Filed(level) && level.price == price
      ensures old(NoneEmpty()) ==> Crowded(price)
      ensures NoneGrew() && Occupied(price) == old(Occupied(price))
      ensures k < |Levels(isBid)| && Levels(isBid)[k] == level
      ensures Flat(isBid) == old(Flat(isBid)) && Levels(!isBid) == old(Levels(!isBid))
      ensures priceToLevel == old(priceToLevel)[price := level]
      ensures price in old(priceToLevel) ==> level == old(priceToLevel)[price]
      ensures price !in old(priceToLevel) ==> fresh(level) && fresh(level.buffer) && level.size == 0
      ensures Lodged(isBid, Rings(isBid), price, slot) == old(Lodged(isBid, Rings(isBid), price, slot))
      ensures Rings(!isBid) == old(Rings(!isBid))
    {
      hide Core, Flatten, Clear, Rings, Lodged, Flat;
      var found := FindLevel(price);
      if found == null {
        level, k := StartLevel(isBid, price, slot);
      } else {
        level := found;
        k := OwnLevel(isBid, price);
      }
      MapPrices();
    }

    /** Starts a level for a price that has none. */
    method StartLevel(isBid: bool, price: int64, ghost slot: Slot) returns (level: PriceLevel, ghost k: nat)
      requires Core() && Clear(isBid, price, Levels(!isBid)) && price !in priceToLevel
      modifies `priceToLevel, `bidLevels, `askLevels
      ensures Core() && priceToLevel == old(priceToLevel)[price := level] && level.price == price
      ensures fresh(level) && fresh(level.buffer) && level.size == 0
      ensures k < |Levels(isBid)| && Levels(isBid)[k] == level
      ensures Flat(isBid) == old(Flat(isBid)) && Levels(!isBid) == old(Levels(!isBid))
      ensures Lodged(isBid, Rings(isBid), price, slot) == old(Lodged(isBid, Rings(isBid), price, slot))
      ensures Rings(!isBid) == old(Rings(!isBid))
    {
      hide Core, Flatten, Clear, Lodged, Ordered, ViewOf, RingsOf, Wrap32;
      level := new PriceLevel(price);
      CoreFrame();
      NoSuchLevel(isBid, price);
      NothingIn(level);
      k := InsertLevel(level, isBid);
      ViewKept(old(Levels(isBid)));
      RingsKept(old(Levels(isBid)));
      RingsKept(old(Levels(!isBid)));
      EmptyLevelFlat(old(Levels(isBid)), k, level);
      EmptyLevelRings(isBid, old(Levels(isBid)), k, level, slot);
    }

    lemma {:induction false} NothingIn(level: PriceLevel)
      requires level.Valid() && level.queue == []
      ensures level.slots == [] && level.LiveOrders() == [] && level.size == 0
    {
    }

    /** No live order carries this id: cancels by id would be ambiguous otherwise. */
    predicate FreshId(order: Order)
      reads `orderIndex, (set id | id in orderIndex :: orderIndex[id].order)
    {
      order.id in orderIndex ==> orderIndex[order.id].order.remaining == 0
    }

    /** A live order new to the book, under an id no live order carries. */
    ghost predicate Restable(order: Order)
      reads `orderIndex, `known, (set id | id in orderIndex :: orderIndex[id].order), order
    {
      order !in known && order.Accounted() && order.IsActive() && order.remaining > 0 && FreshId(order)
    }

    /** The level for the order's price stands on the order's own side. */
    ghost predicate Home(order: Order)
      reads `bidLevels, `askLevels, `priceToLevel, order
    {
      order.price in priceToLevel && priceToLevel[order.price] in Levels(order.isBuy)
    }

    /** One live order joined the back of one level and the index; nothing else moved. */
    twostate predicate Joined(order: Order)
      reads `bidLevels, `askLevels, `priceToLevel, `orderIndex, `known, priceToLevel.Values, Buffers(), known, order
    {
      && unchanged(`bidLevels, `askLevels, `priceToLevel)
      && old(Restable(order)) && unchanged(order) && old(Home(order))
      && var level := priceToLevel[order.price];
      && level.queue == old(level.queue) + [order] && level.slots == old(level.slots) + [SlotOf(order)]
      && known == old(known) + {order}
      && orderIndex == old(orderIndex)[order.id := Location(order.price, order.isBuy, order)]
      && (forall p :: p in priceToLevel && p != order.price ==>
            unchanged(priceToLevel[p]) && unchanged(priceToLevel[p].buffer))
      && (forall o :: o in old(known) ==> unchanged(o))
    }

    twostate lemma LevelSame(level: PriceLevel)
      requires old(LevelOk(level)) && unchanged(level) && unchanged(level.buffer)
      requires old(known) <= known && forall o :: o in old(known) ==> unchanged(o)
      ensures LevelOk(level)
    {
      hide LiveOf, Total;
      forall i | 0 <= i < |level.queue| ensures level.Item(level.queue[i], level.slots[i]) {
        assert old(level.Item(level.queue[i], level.slots[i]));
      }
    }

    twostate lemma ContentsWithOrder(order: Order)
      requires old(Core()) && Joined(order) && priceToLevel[order.price].Valid()
      ensures Contents() && KnownOk()
    {
      hide LiveOf, Total, Shape;
      forall p | p in priceToLevel ensures LevelOk(priceToLevel[p]) {
        assert old(LevelOk(priceToLevel[p]));
        hide PriceLevel.Valid;
        if p != order.price {
          LevelSame(priceToLevel[p]);
        }
      }
      hide LevelOk;
    }

    twostate lemma IndexWithOrder(order: Order)
      requires old(Core()) && Joined(order)
      ensures IndexOk()
    {
      hide Shape, Contents, KnownOk, LevelOk, PriceLevel.Valid;
      LiveWithOrder(order);
      var level := priceToLevel[order.price];
      forall id | id in orderIndex ensures LocationOk(id) {
        if id == order.id {
          assert level.queue[|old(level.queue)|] == order;
        } else {
          assert old(LocationOk(id));
          assert orderIndex[id].order.remaining > 0 ==> old(Located(orderIndex[id]));
        }
      }
    }

    /** The joined order is indexed, and it takes the id of no live order. */
    twostate lemma LiveWithOrder(order: Order)
      requires old(Core()) && Joined(order)
      ensures forall p, i :: p in priceToLevel && 0 <= i < |priceToLevel[p].slots| && priceToLevel[p].slots[i].Live? ==>
                Indexed(priceToLevel[p].slots[i].resting.order)
    {
      hide LiveOf, Counted, Shape;
      forall p, i | p in priceToLevel && 0 <= i < |priceToLevel[p].slots| && priceToLevel[p].slots[i].Live?
        ensures Indexed(priceToLevel[p].slots[i].resting.order)
      {
        var l := priceToLevel[p];
        assert old(LevelOk(l));
        if p != order.price || i < |old(l.slots)| {
          assert old(l.slots[i].Live?) && old(l.Item(l.queue[i], l.slots[i]));
        }
      }
    }

    twostate lemma CoreWithOrder(order: Order)
      requires old(Core()) && Joined(order) && priceToLevel[order.price].Valid()
      ensures Core()
    {
      ContentsWithOrder(order);
      IndexWithOrder(order);
    }

    lemma {:induction false} Separate(level: PriceLevel)
      requires Core() && Filed(level)
      ensures forall p :: p in priceToLevel && p != level.price ==>
                priceToLevel[p] != level && priceToLevel[p].buffer != level.buffer
    {
    }

    lemma {:induction false} NotQueued(level: PriceLevel, order: Order)
      requires Core() && Filed(level) && order !in known
      ensures level.Valid() && order !in level.queue
    {
    }

    /** The book's side of resting an order: the level's ring, the index and the known set. */
    method AddToLevel(level: PriceLevel, order: Order)
      requires Core() && Restable(order) && Home(order)
      requires Filed(level) && level.price == order.price
      requires !level.Full()
      modifies level, level.buffer, `orderIndex, `known
      ensures Core()
      ensures orderIndex == old(orderIndex)[order.id := Location(order.price, order.isBuy, order)]
      ensures known == old(known) + {order}
      ensures level.LiveOrders() == old(level.LiveOrders()) + [Resting(order, order.price, order.remaining)]
      ensures level.size == old(level.size) + 1
      ensures level.slots == old(level.slots) + [Live(Resting(order, order.price, order.remaining))]
    {
      hide PriceLevel.Valid;
      hide Core, LiveOf, Home, FreshId;
      NotQueued(level, order);
      Separate(level);
      level.AddOrder(order);
      orderIndex := orderIndex[order.id := Location(order.price, order.isBuy, order)];
      known := known + {order};
      CoreWithOrder(order);
    }

    ghost predicate HasRoom(order: Order)
      reads `bidLevels, `askLevels, `priceToLevel, priceToLevel.Values, order
    {
      Home(order) ==> !priceToLevel[order.price].Full()
    }

    lemma {:induction false} RoomKnown(order: Order)
      requires Core() && HasRoom(order) && Clear(order.isBuy, order.price, Levels(!order.isBuy))
      ensures order.price in priceToLevel ==> !priceToLevel[order.price].Full()
    {
    }

    method RaiseDepth(isBid: bool, more: uint32, ghost was: int)
      requires Core() && Depth(isBid) == Wrap32(was) && Total(Flat(isBid)) == was + more && DepthOk(!isBid)
      modifies `bidDepth, `askDepth
      ensures Core() && DepthOk(isBid) && DepthOk(!isBid)
      ensures Rings(true) == old(Rings(true)) && Rings(false) == old(Rings(false))
    {
      hide Core, Flatten, Total;
      WrapStep(was, more);
      if isBid {
        bidDepth := Wrap32(bidDepth + more);
      } else {
        askDepth := Wrap32(askDepth + more);
      }
      CoreFrame();
    }

    lemma {:induction false} RingsPlace(isBid: bool, k: nat, slot: Slot)
      requires Core() && k < |Levels(isBid)|
      ensures var side := Rings(isBid);
              Lodged(isBid, side, side[k].price, slot) == side[k := Ring(side[k].price, side[k].slots + [slot])]
    {
      SideShape(isBid);
      LodgedAt(isBid, Rings(isBid), k, Rings(isBid)[k].price, slot);
    }

    /** On its level, at the back: which is where the flat list inserts it. */
    method AppendAt(level: PriceLevel, ghost k: nat, order: Order)
      requires Core() && Restable(order) && Filed(level) && level.price == order.price
      requires k < |Levels(order.isBuy)| && Levels(order.isBuy)[k] == level && !level.Full()
      modifies level, level.buffer, `orderIndex, `known
      ensures Core() && (old(Crowded(order.price)) ==> NoneEmpty())
      ensures OneGrew(order.price) && Occupied(order.price) == old(Occupied(order.price)) + 1
      ensures Flat(order.isBuy)
              == Insert(order.isBuy, old(Flat(order.isBuy)), Resting(order, order.price, order.remaining))
      ensures Flat(!order.isBuy) == old(Flat(!order.isBuy))
      ensures orderIndex == old(orderIndex)[order.id := Location(order.price, order.isBuy, order)]
      ensures known == old(known) + {order}
      ensures Rings(order.isBuy)
              == Lodged(order.isBuy, old(Rings(order.isBuy)), order.price,
                     Live(Resting(order, order.price, order.remaining)))
      ensures Rings(!order.isBuy) == old(Rings(!order.isBuy))
    {
      hide Core, Flatten, LiveOf, Insert, Sorted, Priced, Lodged;
      ghost var was, r := ViewOf(Levels(order.isBuy)), Resting(order, order.price, order.remaining);
      SideView(order.isBuy);
      AppendView(order.isBuy, was, k, r);
      LevelAlone(order.isBuy, k, Levels(order.isBuy), Levels(!order.isBuy));
      MapPrices();
      ghost var side, slot := Rings(order.isBuy), Live(r);
      RingsPlace(order.isBuy, k, slot);
      AddToLevel(level, order);
      ViewKept(Levels(!order.isBuy));
      RingsKept(Levels(!order.isBuy));
      assert Rings(order.isBuy) == side[k := Ring(r.price, side[k].slots + [slot])];
      assert ViewOf(Levels(order.isBuy)) == was[k := LevelView(r.price, was[k].live + [r])];
    }

    /** Puts an order that no longer trades on its own side: levels, index and known set, not yet depth. */
    method FileOrder(order: Order)
      requires Core() && NoneEmpty() && Restable(order) && HasRoom(order)
      requires Clear(order.isBuy, order.price, Levels(!order.isBuy))
      modifies `priceToLevel, `bidLevels, `askLevels, `orderIndex, `known, priceToLevel.Values, Buffers()
      ensures Core() && NoneEmpty()
      ensures Flat(order.isBuy)
              == Insert(order.isBuy, old(Flat(order.isBuy)), Resting(order, order.price, order.remaining))
      ensures Levels(!order.isBuy) == old(Levels(!order.isBuy)) && Flat(!order.isBuy) == old(Flat(!order.isBuy))
      ensures orderIndex == old(orderIndex)[order.id := Location(order.price, order.isBuy, order)]
      ensures Renewed()
      ensures OneGrew(order.price) && Occupied(order.price) == old(Occupied(order.price)) + 1
      ensures known == old(known) + {order}
      ensures Rings(order.isBuy)
              == Lodged(order.isBuy, old(Rings(order.isBuy)), order.price,
                     Live(Resting(order, order.price, order.remaining)))
      ensures Rings(!order.isBuy) == old(Rings(!order.isBuy))
    {
      hide Core, Flatten, LiveOf, Insert, Clear, HasRoom, Occupied, NoneEmpty, Crowded, Rings, Lodged;
      RoomKnown(order);
      var level;
      ghost var k;
      level, k := LevelFor(order.isBuy, order.price, Live(Resting(order, order.price, order.remaining)));
      AppendAt(level, k, order);
    }

    /** Past the sweep nothing on the other side is within the limit, so the order may rest. */
    lemma {:induction false} ClearAfterSweep(order: Order)
      requires Core()
      requires Levels(!order.isBuy) != [] ==> !Crosses(order.isBuy, order.price, Levels(!order.isBuy)[0].price)
      ensures Clear(order.isBuy, order.price, Levels(!order.isBuy))
    {
    }

    /** The tail of `match` and `add_order`: the open quantity rests. */
    method Rest(order: Order)
      requires Core() && NoneEmpty() && DepthOk(order.isBuy) && DepthOk(!order.isBuy)
      requires Restable(order) && HasRoom(order) && Clear(order.isBuy, order.price, Levels(!order.isBuy))
      modifies `priceToLevel, `bidLevels, `askLevels, `orderIndex, `known, `bidDepth, `askDepth
      modifies priceToLevel.Values, Buffers()
      ensures Core() && NoneEmpty() && DepthOk(order.isBuy) && DepthOk(!order.isBuy)
      ensures Flat(order.isBuy)
              == Insert(order.isBuy, old(Flat(order.isBuy)), Resting(order, order.price, order.remaining))
      ensures Levels(!order.isBuy) == old(Levels(!order.isBuy)) && Flat(!order.isBuy) == old(Flat(!order.isBuy))
      ensures orderIndex == old(orderIndex)[order.id := Location(order.price, order.isBuy, order)]
      ensures Renewed()
      ensures OneGrew(order.price) && Occupied(order.price) == old(Occupied(order.price)) + 1
      ensures known == old(known) + {order}
      ensures Rings(order.isBuy)
              == Lodged(order.isBuy, old(Rings(order.isBuy)), order.price,
                     Live(Resting(order, order.price, order.remaining)))
      ensures Rings(!order.isBuy) == old(Rings(!order.isBuy))
    {
      hide OneGrew, Wrap32, ViewOf;
      hide Core, Flatten, LiveOf, Insert, Clear, Total, Restable, HasRoom, Rings, Lodged;
      ghost var was := Total(Flat(order.isBuy));
      InsertTotal(order.isBuy, Flat(order.isBuy), Resting(order, order.price, order.remaining));
      FileOrder(order);
      RaiseDepth(order.isBuy, order.remaining, was);
    }

    ghost predicate BestOk()
      reads `bidLevels, `askLevels, `bestBid, `bestAsk
    {
      && bestBid == (if bidLevels == [] then 0 else bidLevels[0].price)
      && bestAsk == (if askLevels == [] then INT64_MAX else askLevels[0].price)
    }

    method UpdateBestPrices()
      modifies `bestBid, `bestAsk
      ensures BestOk()
    {
      bestBid := if bidLevels == [] then 0 else bidLevels[0].price;
      bestAsk := if askLevels == [] then INT64_MAX else askLevels[0].price;
    }

    ghost predicate Valid()
      reads this, priceToLevel.Values, Buffers(), known
    {
      Core() && NoneEmpty() && DepthsOk() && BestOk()
    }

    /** The book never crosses, drained levels included, and so each price belongs to one side. */
    lemma {:induction false} NeverCrosses()
      requires Valid()
      ensures forall i, j :: 0 <= i < |bidLevels| && 0 <= j < |askLevels| ==> bidLevels[i].price < askLevels[j].price
      ensures bidLevels != [] && askLevels != [] ==> bestBid < bestAsk
      ensures forall p :: p in priceToLevel ==> (priceToLevel[p] in bidLevels <==> priceToLevel[p] !in askLevels)
    {
    }

    /**
     A best price is the price of the best live order exactly when the front level still holds one: a front
     level can be left with cancelled slots only.
     */
    lemma {:induction false} BestIsLiveIff(isBid: bool)
      requires Valid() && Flat(isBid) != []
      ensures Levels(isBid) != []
      ensures (if isBid then bestBid else bestAsk) == Flat(isBid)[0].price <==> Levels(isBid)[0].LiveOrders() != []
    {
      var v := ViewOf(Levels(isBid));
      SideView(isBid);
      hide Core, NoneEmpty, DepthsOk, LiveOf;
      var i := FlattenMember(v, Flat(isBid)[0]);
      FrontSplit(isBid);
      if v[0].live != [] {
        assert Flat(isBid)[0] == v[0].live[0] && v[0].live[0] in v[0].live;
      }
    }

    /** The same in what a caller can read: the front level's quantity, as long as it has not wrapped. */
    lemma {:induction false} BestReadableIff(isBid: bool)
      requires Valid() && Flat(isBid) != []
      ensures Levels(isBid) != []
      ensures var best, front := if isBid then bestBid else bestAsk, Levels(isBid)[0];
              && (front.totalQuantity != 0 ==> best == Flat(isBid)[0].price)
              && (Total(front.LiveOrders()) < 0x1_0000_0000 ==>
                    (front.totalQuantity != 0 <==> best == Flat(isBid)[0].price))
    {
      hide *;
      BestIsLiveIff(isBid);
      FrontReadable(isBid);
    }

    lemma {:induction false} FrontReadable(isBid: bool)
      requires Valid() && Levels(isBid) != []
      ensures var front := Levels(isBid)[0];
              && (front.totalQuantity != 0 ==> front.LiveOrders() != [])
              && (Total(front.LiveOrders()) < 0x1_0000_0000 ==>
                    (front.totalQuantity != 0 <==> front.LiveOrders() != []))
    {
      hide Core, NoneEmpty, DepthsOk, BestOk, LiveOf, Total, PriceLevel.Valid, Wrap32;
      CoreLevel(isBid, 0);
      Levels(isBid)[0].TotalTells();
    }

    /** The rings are all there is to the flat lists and the best prices. */
    lemma {:induction false} RingsTell(isBid: bool)
      requires Valid()
      ensures Flat(isBid) == Flatten(Views(Rings(isBid)))
      ensures Rings(isBid) != [] ==> (if isBid then bestBid else bestAsk) == Rings(isBid)[0].price
    {
      RingsView(Levels(isBid));
      hide Core, NoneEmpty, DepthsOk, Flatten;
    }

    lemma {:induction false} NoRings(isBid: bool)
      requires Valid() && Rings(isBid) == []
      ensures Levels(isBid) == [] && Flat(isBid) == []
      ensures if isBid then bestBid == 0 else bestAsk == 0x7FFF_FFFF_FFFF_FFFF
    {
    }

    twostate lemma FlatFromRings(isBid: bool)
      requires Rings(isBid) == old(Rings(isBid))
      ensures Flat(isBid) == old(Flat(isBid))
    {
      RingsView(Levels(isBid));
      RingsViewed(old(Levels(isBid)));
      hide ViewOf, RingsOf, Flatten, Views;
    }

    lemma {:induction false} RoomInRings()
      requires Core()
      requires forall isBid, i :: 0 <= i < |Rings(isBid)| ==> !Crammed(Rings(isBid)[i].slots)
      ensures forall p :: Occupied(p) < MAX_ORDERS
    {
      forall p | p in priceToLevel ensures priceToLevel[p].size < MAX_ORDERS {
        ByPrice();
        var isBid := priceToLevel[p] in bidLevels;
        var k :| 0 <= k < |Levels(isBid)| && Levels(isBid)[k] == priceToLevel[p];
        assert !Crammed(Rings(isBid)[k].slots);
      }
    }

    lemma {:induction false} EntryFiled(id: uint64)
      requires Core() && id in orderIndex && orderIndex[id].order.remaining > 0
      ensures orderIndex[id].price in priceToLevel
    {
      assert LocationOk(id);
    }

    /** The last two lines of every successful operation. */
    method Refresh()
      requires Core() && NoneEmpty() && DepthsOk()
      modifies `bestBid, `bestAsk, `sequence
      ensures Valid() && sequence == old(sequence) + 1
      ensures Flat(true) == old(Flat(true)) && Flat(false) == old(Flat(false))
      ensures Rings(true) == old(Rings(true)) && Rings(false) == old(Rings(false))
    {
      hide *;
      UpdateBestPrices();
      sequence := sequence + 1;
      StillValid();
    }

    /** Setting the best prices right makes an otherwise sound book valid. */
    twostate lemma StillValid()
      requires old(Core()) && old(NoneEmpty()) && old(DepthsOk()) && BestOk()
      requires unchanged(`bidLevels, `askLevels, `priceToLevel, `orderIndex, `known, `bidDepth, `askDepth)
      requires forall p :: p in priceToLevel ==> unchanged(priceToLevel[p]) && unchanged(priceToLevel[p].buffer)
      requires forall o :: o in known ==> unchanged(o)
      ensures Valid()
      ensures Flat(true) == old(Flat(true)) && Flat(false) == old(Flat(false))
      ensures Rings(true) == old(Rings(true)) && Rings(false) == old(Rings(false))
    {
      CoreFrame();
      FlatKept();
      hide Core, Flatten, Total, LiveOf, ViewOf, Wrap32;
    }

    lemma {:induction false} EntryKnown(id: uint64)
      requires Core() && id in orderIndex
      ensures orderIndex[id].order in known && orderIndex[id].order.Accounted()
      ensures orderIndex[id].order.id == id && orderIndex[id].order.price == orderIndex[id].price
    {
    }

    /** The sweep comes to an end, and what it leaves open has an id no live order has, and a slot. */
    ghost predicate Feasible(incoming: Order)
      reads `bidLevels, `askLevels, `priceToLevel, `orderIndex, priceToLevel.Values, Levels(!incoming.isBuy)
      reads (set id | id in orderIndex :: orderIndex[id].order), incoming
    {
      !Jammed(incoming) && (Plan(incoming).remaining > 0 ==> FreshId(incoming) && HasRoom(incoming))
    }

    /** The sweep leaves the order's own side, its room and the freshness of its id as they were. */
    method SweepAside(incoming: Order) returns (made: seq<Fill>)
      requires Core() && NoneEmpty() && DepthOk(incoming.isBuy) && DepthOk(!incoming.isBuy)
      requires incoming !in known && incoming.Accounted() && !Jammed(incoming)
      modifies `bidDepth, `askDepth, `priceToLevel, `bidLevels, `askLevels
      modifies priceToLevel.Values, Buffers(), incoming`remaining, incoming`filled, known`remaining, known`filled
      ensures Core() && NoneEmpty() && DepthOk(incoming.isBuy) && DepthOk(!incoming.isBuy) && incoming.Accounted()
      ensures old(Plan(incoming)) == Outcome(made, Flat(!incoming.isBuy), incoming.remaining)
      ensures Flat(incoming.isBuy) == old(Flat(incoming.isBuy))
      ensures Paid(old(known), made)
      ensures forall p :: p in priceToLevel ==> p in old(priceToLevel) && priceToLevel[p] == old(priceToLevel)[p]
      ensures NoneGrew()
      ensures old(FreshId(incoming)) ==> FreshId(incoming)
      ensures old(HasRoom(incoming)) ==> HasRoom(incoming)
      ensures incoming.remaining > 0 && Levels(!incoming.isBuy) != [] ==>
                !Crosses(incoming.isBuy, incoming.price, Levels(!incoming.isBuy)[0].price)
      ensures Rings(!incoming.isBuy) == old(SweptRings(incoming))
      ensures Rings(incoming.isBuy) == old(Rings(incoming.isBuy))
    {
      hide ViewOf, RingsOf;
      hide Wrap32;
      hide Core, Flatten, LiveOf, Total, Greedy, NoneEmpty, DepthOk, Plan, Better, Crosses, TakenFrom;
      if incoming.id in orderIndex {
        EntryKnown(incoming.id);
      }
      made := Sweep(incoming);
      FlatFromRings(incoming.isBuy);
      assert Occupied(incoming.price) <= old(Occupied(incoming.price));
      if incoming.id in orderIndex {
        EntryKnown(incoming.id);
      }
    }

    /** Sweeping only lowers quantities and leaves the own side alone, so the order may still rest. */
    method SweepForRest(incoming: Order) returns (made: seq<Fill>)
      requires Core() && NoneEmpty() && DepthOk(true) && DepthOk(false)
      requires incoming !in known && incoming.Accounted() && incoming.IsActive()
      requires Feasible(incoming)
      modifies `bidDepth, `askDepth, `priceToLevel, `bidLevels, `askLevels
      modifies priceToLevel.Values, Buffers(), incoming`remaining, incoming`filled, known`remaining, known`filled
      ensures Core() && NoneEmpty() && DepthOk(incoming.isBuy) && DepthOk(!incoming.isBuy) && incoming.Accounted()
      ensures old(Plan(incoming)) == Outcome(made, Flat(!incoming.isBuy), incoming.remaining)
      ensures Flat(incoming.isBuy) == old(Flat(incoming.isBuy))
      ensures Paid(old(known), made)
      ensures forall p :: p in priceToLevel ==> p in old(priceToLevel) && priceToLevel[p] == old(priceToLevel)[p]
      ensures NoneGrew()
      ensures incoming.remaining > 0 ==>
                && Restable(incoming) && HasRoom(incoming)
                && Clear(incoming.isBuy, incoming.price, Levels(!incoming.isBuy))
      ensures Rings(!incoming.isBuy) == old(SweptRings(incoming))
      ensures Rings(incoming.isBuy) == old(Rings(incoming.isBuy))
    {
      hide Core, Flatten, LiveOf, Clear, Total, Greedy, NoneEmpty, DepthOk, Plan, FreshId, HasRoom, Flat, ViewOf;
      made := SweepAside(incoming);
      if incoming.remaining > 0 {
        ClearAfterSweep(incoming);
      }
    }

    /** What follows the sweep: what is left rests, and the counters are refreshed. */
    method RestLeft(order: Order)
      requires Core() && NoneEmpty() && DepthOk(order.isBuy) && DepthOk(!order.isBuy)
      requires order.remaining > 0 ==>
                 && Restable(order) && HasRoom(order) && Clear(order.isBuy, order.price, Levels(!order.isBuy))
      modifies this, priceToLevel.Values, Buffers()
      ensures Valid()
      ensures Flat(order.isBuy) ==
              if order.remaining == 0 then old(Flat(order.isBuy))
              else Insert(order.isBuy, old(Flat(order.isBuy)), Resting(order, order.price, order.remaining))
      ensures Flat(!order.isBuy) == old(Flat(!order.isBuy))
      ensures Renewed() && OneGrew(order.price) && (order.remaining == 0 ==> NoneGrew())
      ensures known == if order.remaining > 0 then old(known) + {order} else old(known)
      ensures orderIndex ==
              if order.remaining == 0 then old(orderIndex)
              else old(orderIndex)[order.id := Location(order.price, order.isBuy, order)]
      ensures sequence == old(sequence) + 1
      ensures Rings(order.isBuy) ==
              if order.remaining == 0 then old(Rings(order.isBuy))
              else Lodged(order.isBuy, old(Rings(order.isBuy)), order.price,
                     Live(Resting(order, order.price, order.remaining)))
      ensures Rings(!order.isBuy) == old(Rings(!order.isBuy))
    {
      hide Core, Flatten, LiveOf, Insert, Clear, Total, HasRoom, NoneEmpty, DepthOk, Restable, Flat, ViewOf, BestOk;
      if order.remaining > 0 {
        Rest(order);
      }
      Refresh();
    }

    /** `match` proper: sweep the other side, rest what is left, refresh the counters. */
    method Trade(incoming: Order) returns (made: seq<Fill>)
      requires Valid() && incoming !in known && incoming.Accounted() && incoming.IsActive()
      requires Feasible(incoming)
      modifies this, priceToLevel.Values, Buffers()
      modifies incoming`remaining, incoming`filled, known`remaining, known`filled
      ensures Valid() && incoming.Accounted()
      ensures old(Plan(incoming)) == Outcome(made, Flat(!incoming.isBuy), incoming.remaining)
      ensures Flat(incoming.isBuy) ==
              if incoming.remaining == 0 then old(Flat(incoming.isBuy))
              else Insert(incoming.isBuy, old(Flat(incoming.isBuy)),
                          Resting(incoming, incoming.price, incoming.remaining))
      ensures Paid(old(known), made)
      ensures Renewed()
      ensures OneGrew(incoming.price) && (incoming.remaining == 0 ==> NoneGrew())
      ensures known == if incoming.remaining > 0 then old(known) + {incoming} else old(known)
      ensures orderIndex ==
              if incoming.remaining == 0 then old(orderIndex)
              else old(orderIndex)[incoming.id := Location(incoming.price, incoming.isBuy, incoming)]
      ensures sequence == old(sequence) + 1
      ensures Rings(!incoming.isBuy) == old(SweptRings(incoming))
      ensures Rings(incoming.isBuy) ==
              if incoming.remaining == 0 then old(Rings(incoming.isBuy))
              else Lodged(incoming.isBuy, old(Rings(incoming.isBuy)), incoming.price,
                     Live(Resting(incoming, incoming.price, incoming.remaining)))
    {
      hide Core, Flatten, LiveOf, Insert, Clear, Total, HasRoom, Greedy, NoneEmpty, DepthOk;
      hide Restable, FreshId, Feasible, Plan, Flat, ViewOf, BestOk, TakenFrom, Rings, Lodged, SweptRings;
      made := SweepForRest(incoming);
      RestLeft(incoming);
    }

    method Match(incoming: Order, fills: seq<Fill>) returns (rest: Order?, out: seq<Fill>, ghost made: seq<Fill>)
      requires Valid() && incoming !in known && incoming.Accounted() && incoming.IsActive()
      requires Feasible(incoming)
      modifies this, priceToLevel.Values, Buffers()
      modifies incoming`remaining, incoming`filled, known`remaining, known`filled
      ensures Valid() && incoming.Accounted()
      ensures out == fills + made
      ensures old(Plan(incoming)) == Outcome(made, Flat(!incoming.isBuy), incoming.remaining)
      ensures Flat(incoming.isBuy) ==
              if incoming.remaining == 0 then old(Flat(incoming.isBuy))
              else Insert(incoming.isBuy, old(Flat(incoming.isBuy)),
                          Resting(incoming, incoming.price, incoming.remaining))
      ensures Paid(old(known), made)
      ensures Renewed()
      ensures OneGrew(incoming.price) && (incoming.remaining == 0 ==> NoneGrew())
      ensures known == if incoming.remaining > 0 then old(known) + {incoming} else old(known)
      ensures orderIndex ==
              if incoming.remaining == 0 then old(orderIndex)
              else old(orderIndex)[incoming.id := Location(incoming.price, incoming.isBuy, incoming)]
      ensures sequence == old(sequence) + if old(incoming.remaining) == 0 then 0 else 1
      ensures rest == if old(incoming.remaining) == 0 || incoming.remaining > 0 then incoming else null
      ensures Rings(!incoming.isBuy) == old(SweptRings(incoming))
      ensures Rings(incoming.isBuy) ==
              if incoming.remaining == 0 then old(Rings(incoming.isBuy))
              else Lodged(incoming.isBuy, old(Rings(incoming.isBuy)), incoming.price,
                     Live(Resting(incoming, incoming.price, incoming.remaining)))
    {
      hide Core, Flatten, LiveOf, Insert, Clear, Total, Feasible, Flat, ViewOf, BestOk;
      if incoming.remaining == 0 {
        made := [];
        rest, out := incoming, fills;
        assert fills + made == fills;
      } else {
        var taken := Trade(incoming);
        made := taken;
        out := fills + taken;
        rest := if incoming.remaining > 0 then incoming else null;
      }
    }

    /** Rests an order without matching it; only sound when nothing on the other side is within its limit. */
    method AddOrder(order: Order) returns (ok: bool)
      requires Valid() && Restable(order) && HasRoom(order)
      requires Clear(order.isBuy, order.price, Levels(!order.isBuy))
      modifies this, priceToLevel.Values, Buffers()
      ensures Valid() && ok
      ensures Flat(order.isBuy)
              == Insert(order.isBuy, old(Flat(order.isBuy)), Resting(order, order.price, order.remaining))
      ensures Levels(!order.isBuy) == old(Levels(!order.isBuy)) && Flat(!order.isBuy) == old(Flat(!order.isBuy))
      ensures orderIndex == old(orderIndex)[order.id := Location(order.price, order.isBuy, order)]
      ensures Renewed()
      ensures OneGrew(order.price) && Occupied(order.price) == old(Occupied(order.price)) + 1
      ensures known == old(known) + {order} && sequence == old(sequence) + 1
      ensures Rings(order.isBuy)
              == Lodged(order.isBuy, old(Rings(order.isBuy)), order.price,
                     Live(Resting(order, order.price, order.remaining)))
      ensures Rings(!order.isBuy) == old(Rings(!order.isBuy))
    {
      hide Core, Flatten, LiveOf, Insert, Clear, Total, HasRoom, FreshId, Flat, ViewOf, BestOk, Restable, DepthOk;
      Rest(order);
      Refresh();
      ok := true;
    }

    /** What the flat list holds is indexed, live, priced right and on its own side. */
    lemma {:induction false} FlatMember(isBid: bool, r: Resting)
      requires Core() && r in Flat(isBid)
      ensures Indexed(r.order) && r.order in known && r.order.isBuy == isBid && r.order.IsActive()
      ensures r == Resting(r.order, r.order.price, r.order.remaining) && r.remaining > 0
    {
      var i := FlattenMember(ViewOf(Levels(isBid)), r);
      var level := Levels(isBid)[i];
      CoreLevel(isBid, i);
      LiveOfMembers(level.slots);
      var j :| 0 <= j < |level.slots| && level.slots[j] == Live(r);
      assert level.Item(level.queue[j], level.slots[j]);
      assert priceToLevel[level.price].slots[j].Live?;
      assert LocationOk(r.order.id);
      SideShape(isBid);
    }

    /** A cancel took one order out: its slot, its status and its index entry. */
    twostate predicate Withdrawn(order: Order)
      reads `bidLevels, `askLevels, `priceToLevel, `orderIndex, `known, priceToLevel.Values, Buffers(), known, order
    {
      && unchanged(`bidLevels, `askLevels, `priceToLevel, `known)
      && old(Indexed(order)) && orderIndex == old(orderIndex) - {order.id}
      && order.price in priceToLevel
      && order.status == Cancelled && order.remaining == old(order.remaining)
      && order.filled == old(order.filled) && order.price == old(order.price)
      && (forall p :: p in priceToLevel && p != order.price ==>
            unchanged(priceToLevel[p]) && unchanged(priceToLevel[p].buffer))
      && (forall o :: o in known && o != order ==> unchanged(o))
    }

    twostate lemma ContentsWithoutOrder(order: Order)
      requires old(Core()) && Withdrawn(order) && priceToLevel[order.price].Valid()
      requires var level := priceToLevel[order.price]; level.Shed(old(level.queue))
      ensures Contents() && KnownOk()
    {
      assert old(LocationOk(order.id));
      forall p | p in priceToLevel ensures LevelOk(priceToLevel[p]) {
        var l := priceToLevel[p];
        assert old(LevelOk(l));
        if p == order.price {
          forall i | 0 <= i < |l.queue| ensures l.queue[i] in known {
            assert l.queue[i] in l.queue;
          }
        } else {
          forall i | 0 <= i < |l.queue| ensures l.queue[i] != order {
            assert old(l.Item(l.queue[i], l.slots[i]));
          }
        }
      }
    }

    twostate lemma IndexWithoutOrder(order: Order)
      requires old(Core()) && Withdrawn(order) && priceToLevel[order.price].Valid()
      requires var level := priceToLevel[order.price]; level.Shed(old(level.queue))
      ensures IndexOk()
    {
      hide Shape, Contents, KnownOk, LevelOk, PriceLevel.Valid;
      LiveWithoutOrder(order);
      forall id | id in orderIndex ensures LocationOk(id) {
        var loc := orderIndex[id];
        assert old(LocationOk(id)) && loc.order != order;
        assert loc.order in known;
        if loc.order.remaining > 0 {
          assert old(Located(loc));
        }
      }
    }

    /** What is still live is still indexed. */
    twostate lemma LiveWithoutOrder(order: Order)
      requires old(Core()) && Withdrawn(order) && priceToLevel[order.price].Valid()
      requires var level := priceToLevel[order.price]; level.Shed(old(level.queue))
      ensures forall p, i :: p in priceToLevel && 0 <= i < |priceToLevel[p].slots| && priceToLevel[p].slots[i].Live? ==>
                Indexed(priceToLevel[p].slots[i].resting.order)
    {
      hide PriceLevel.Valid, Contents, Shape, KnownOk, LocationOk, LiveOf;
      OtherWithoutOrder(order);
      LivePrices();
      forall p, i | p in priceToLevel && 0 <= i < |priceToLevel[p].slots| && priceToLevel[p].slots[i].Live?
        ensures Indexed(priceToLevel[p].slots[i].resting.order)
      {
        var l := priceToLevel[p];
        if p == order.price {
          var o := l.slots[i].resting.order;
          assert o in old(l.queue) && o != order && Live(Resting(o, o.price, o.remaining)) in old(l.slots);
          var j :| 0 <= j < |old(l.slots)| && old(l.slots)[j] == Live(Resting(o, o.price, o.remaining));
          assert old(priceToLevel[p].slots[j].Live?);
        } else {
          assert old(priceToLevel[p].slots[i].Live?);
        }
      }
    }

    twostate lemma LivePrices()
      requires old(Core()) && unchanged(`priceToLevel)
      ensures forall p, i :: p in priceToLevel && 0 <= i < |old(priceToLevel[p].slots)|
                             && old(priceToLevel[p].slots)[i].Live? ==>
                old(priceToLevel[p].slots[i].resting.order.price) == p
    {
      hide LiveOf, Counted, IndexOk;
      forall p, i | p in priceToLevel && 0 <= i < |old(priceToLevel[p].slots)| && old(priceToLevel[p].slots)[i].Live?
        ensures old(priceToLevel[p].slots[i].resting.order.price) == p
      {
        assert old(LevelOk(priceToLevel[p]));
        assert old(priceToLevel[p].Item(priceToLevel[p].queue[i], priceToLevel[p].slots[i]));
      }
    }

    /** The other live orders of the level were live on it before. */
    twostate lemma OtherWithoutOrder(order: Order)
      requires old(Core()) && Withdrawn(order) && priceToLevel[order.price].Valid()
      requires var level := priceToLevel[order.price]; level.Shed(old(level.queue))
      ensures var level := priceToLevel[order.price];
              forall i :: 0 <= i < |level.slots| && level.slots[i].Live? ==>
                var o := level.slots[i].resting.order;
                o in old(level.queue) && o != order && Live(Resting(o, o.price, o.remaining)) in old(level.slots)
    {
      var l := priceToLevel[order.price];
      assert old(LevelOk(l));
      hide LiveOf, Counted, IndexOk, Shape;
      forall i | 0 <= i < |l.slots| && l.slots[i].Live?
        ensures var o := l.slots[i].resting.order;
                o in old(l.queue) && o != order && Live(Resting(o, o.price, o.remaining)) in old(l.slots)
      {
        var o := l.queue[i];
        assert l.Item(o, l.slots[i]) && o in l.queue;
        var j :| 0 <= j < |old(l.queue)| && old(l.queue)[j] == o;
        assert old(l.Item(l.queue[j], l.slots[j]));
        assert o != order && o in known;
        assert old(l.slots)[j] == Live(Resting(o, o.price, o.remaining));
      }
    }

    twostate lemma CoreWithoutOrder(order: Order)
      requires old(Core()) && Withdrawn(order) && priceToLevel[order.price].Valid()
      requires var level := priceToLevel[order.price]; level.Shed(old(level.queue))
      ensures Core()
    {
      ContentsWithoutOrder(order);
      IndexWithoutOrder(order);
    }

    /** The level's own part of a withdrawal, and the index entry. */
    method WithdrawLocal(level: PriceLevel, order: Order)
      requires level.Valid() && order.IsActive() && (order in level.queue || order.remaining == 0)
      modifies level, level.buffer, order`status, `orderIndex
      ensures level.Valid() && level.Shed(old(level.queue)) && order.status == Cancelled
      ensures order.remaining == 0 ==> level.size == old(level.size)
      ensures orderIndex == old(orderIndex) - {order.id}
      ensures level.LiveOrders() == Without(old(level.LiveOrders()), order)
      ensures Total(level.LiveOrders()) == old(Total(level.LiveOrders())) - order.remaining
      ensures level.slots == Revoked(old(level.slots), order)
    {
      hide LiveOf, Total, Without, Revoked, PriceLevel.Valid;
      level.RemoveOrder(order);
      orderIndex := orderIndex - {order.id};
    }

    lemma {:induction false} WithdrawFacts(level: PriceLevel, order: Order)
      requires Core() && Indexed(order) && order.price in priceToLevel && priceToLevel[order.price] == level
      ensures level.Valid() && Filed(level) && order.IsActive() && (order in level.queue || order.remaining == 0)
    {
    }

    /** Takes one indexed order off its level and out of the index; the level itself stays for now. */
    method Withdraw(level: PriceLevel, order: Order)
      requires Core() && Indexed(order) && order.price in priceToLevel && priceToLevel[order.price] == level
      modifies level, level.buffer, order`status, `orderIndex
      ensures Core() && order.status == Cancelled && orderIndex == old(orderIndex) - {order.id}
      ensures order.remaining == 0 ==> level.size == old(level.size)
      ensures level.LiveOrders() == Without(old(level.LiveOrders()), order)
      ensures Total(level.LiveOrders()) == old(Total(level.LiveOrders())) - order.remaining
      ensures level.slots == Revoked(old(level.slots), order)
    {
      hide Core, LiveOf, Total, Without;
      WithdrawFacts(level, order);
      Separate(level);
      WithdrawLocal(level, order);
      CoreWithoutOrder(order);
    }

    /** The index knows exactly the live orders: an entry is in the flat list, true to price and quantity, or filled. */
    lemma {:induction false} IndexIsFlat(id: uint64)
      requires Core() && id in orderIndex
      ensures var loc := orderIndex[id];
              loc.order.remaining > 0 <==> Resting(loc.order, loc.price, loc.order.remaining) in Flat(loc.isBid)
    {
      var loc := orderIndex[id];
      assert LocationOk(id);
      if loc.order.remaining > 0 {
        var k := LivePlace(loc.order);
        var level := Levels(loc.isBid)[k];
        CoreLevel(loc.isBid, k);
        var i :| 0 <= i < |level.queue| && level.queue[i] == loc.order;
        assert level.Item(level.queue[i], level.slots[i]);
        LiveOfMembers(level.slots);
        FlattenHas(ViewOf(Levels(loc.isBid)), k, level.slots[i].resting);
      } else if Resting(loc.order, loc.price, loc.order.remaining) in Flat(loc.isBid) {
        FlatMember(loc.isBid, Resting(loc.order, loc.price, loc.order.remaining));
        assert false;
      }
    }

    /** Live orders have distinct ids, so removing by id is removing one order. */
    lemma {:induction false} CancelById(isBid: bool, id: uint64)
      requires Core() && id in orderIndex
      ensures WithoutId(Flat(isBid), id) == Without(Flat(isBid), orderIndex[id].order)
    {
      forall r | r in Flat(isBid) ensures r.order.id == id <==> r.order == orderIndex[id].order {
        FlatMember(isBid, r);
        assert LocationOk(id);
      }
      WithoutIdIsWithout(Flat(isBid), id, orderIndex[id].order);
    }

    lemma {:induction false} CancelUnknown(isBid: bool, id: uint64)
      requires Core() && (id in orderIndex ==> orderIndex[id].order.remaining == 0)
      ensures WithoutId(Flat(isBid), id) == Flat(isBid)
    {
      forall r | r in Flat(isBid) ensures r.order.id != id {
        FlatMember(isBid, r);
      }
      WithoutIdAbsent(Flat(isBid), id);
    }

    /** No other level holds the order: dropping it everywhere is dropping it on its own level. */
    lemma {:induction false} ElsewhereAbsent(isBid: bool, i: nat, order: Order)
      requires Core() && i < |Levels(isBid)| && Levels(isBid)[i].price != order.price
      ensures Without(Levels(isBid)[i].LiveOrders(), order) == Levels(isBid)[i].LiveOrders()
    {
      CoreLevel(isBid, i);
      Levels(isBid)[i].LiveInQueue();
      WithoutAbsent(Levels(isBid)[i].LiveOrders(), order);
    }

    /** Withdrawing from one level drops the order from the flat list of each side. */
    lemma {:induction false} WithdrawnView(isBid: bool, was: seq<LevelView>, order: Order)
      requires Core() && |was| == |Levels(isBid)|
      requires forall i :: 0 <= i < |was| ==>
                 ViewOf(Levels(isBid))[i].live ==
                 if Levels(isBid)[i].price == order.price then Without(was[i].live, order) else was[i].live
      requires forall i :: 0 <= i < |was| && Levels(isBid)[i].price != order.price ==>
                 Without(was[i].live, order) == was[i].live
      ensures Flat(isBid) == Without(Flatten(was), order)
    {
      FlattenWithout(was, ViewOf(Levels(isBid)), order);
    }

    /** Takes an indexed order out of the book: flat lists and index, not yet depth or an emptied level. */
    method WithdrawFlat(level: PriceLevel, order: Order)
      requires Core() && Indexed(order) && order.price in priceToLevel && priceToLevel[order.price] == level
      modifies level, level.buffer, order`status, `orderIndex
      ensures Core() && order.status == Cancelled && orderIndex == old(orderIndex) - {order.id}
      ensures Flat(true) == Without(old(Flat(true)), order) && Flat(false) == Without(old(Flat(false)), order)
      ensures Total(level.LiveOrders()) == old(Total(level.LiveOrders())) - order.remaining
      ensures order.remaining == 0 ==> level.size == old(level.size)
      ensures level.slots == Revoked(old(level.slots), order)
    {
      hide Core, LiveOf, Total, Without, Flatten, Has;
      ghost var bids, asks := ViewOf(bidLevels), ViewOf(askLevels);
      OrderPlaces(true, bidLevels, order);
      OrderPlaces(false, askLevels, order);
      Withdraw(level, order);
      WithdrawnView(true, bids, order);
      WithdrawnView(false, asks, order);
    }

    /** On each side the order can only be on the level of its price. */
    lemma {:induction false} OrderPlaces(isBid: bool, levels: seq<PriceLevel>, order: Order)
      requires Core() && levels == Levels(isBid)
      requires order.price in priceToLevel
      ensures forall i :: 0 <= i < |levels| ==>
                if levels[i].price == order.price then levels[i] == priceToLevel[order.price]
                else levels[i] != priceToLevel[order.price]
                     && Without(levels[i].LiveOrders(), order) == levels[i].LiveOrders()
    {
      forall i | 0 <= i < |levels|
        ensures if levels[i].price == order.price then levels[i] == priceToLevel[order.price]
                else levels[i] != priceToLevel[order.price]
                     && Without(levels[i].LiveOrders(), order) == levels[i].LiveOrders()
      {
        CoreLevel(isBid, i);
        if levels[i].price != order.price {
          ElsewhereAbsent(isBid, i, order);
        }
      }
    }

    lemma {:induction false} AbsentFromFlat(isBid: bool, order: Order)
      requires Core() && (order.isBuy != isBid || order.remaining == 0)
      ensures Without(Flat(isBid), order) == Flat(isBid)
    {
      forall r | r in Flat(isBid) ensures r.order != order {
        FlatMember(isBid, r);
      }
      WithoutAbsent(Flat(isBid), order);
    }

    lemma {:induction false} LivePlace(order: Order) returns (k: nat)
      requires Core() && Indexed(order) && order.remaining > 0 && order.price in priceToLevel
      ensures k < |Levels(order.isBuy)| && Levels(order.isBuy)[k] == priceToLevel[order.price]
    {
      assert LocationOk(order.id);
      var levels := Levels(order.isBuy);
      assert priceToLevel[order.price] in levels;
      k :| 0 <= k < |levels| && levels[k] == priceToLevel[order.price];
    }

    method SubtractDepth(isBid: bool, less: uint32, ghost was: int)
      requires Core() && Depth(isBid) == Wrap32(was) && Total(Flat(isBid)) == was - less && DepthOk(!isBid)
      modifies `bidDepth, `askDepth
      ensures Core() && DepthsOk()
      ensures Flat(true) == old(Flat(true)) && Flat(false) == old(Flat(false))
    {
      hide Core, Flatten, Total;
      WrapStep(was, 0 - less);
      if isBid {
        bidDepth := Wrap32(bidDepth - less);
      } else {
        askDepth := Wrap32(askDepth - less);
      }
      CoreFrame();
    }

    /** The own side loses exactly the order's open quantity. */
    method WithdrawTotals(level: PriceLevel, order: Order)
      requires Core() && Indexed(order) && order.price in priceToLevel && priceToLevel[order.price] == level
      modifies level, level.buffer, order`status, `orderIndex
      ensures Core() && order.status == Cancelled && orderIndex == old(orderIndex) - {order.id}
      ensures Flat(true) == Without(old(Flat(true)), order) && Flat(false) == Without(old(Flat(false)), order)
      ensures order.remaining == 0 ==> level.size == old(level.size)
      ensures Total(Flat(order.isBuy)) == old(Total(Flat(order.isBuy))) - order.remaining
      ensures Flat(!order.isBuy) == old(Flat(!order.isBuy))
      ensures level.slots == Revoked(old(level.slots), order)
    {
      hide Core, LiveOf, Total, Without, Flatten;
      ghost var levels, k := Levels(order.isBuy), 0;
      ghost var v := ViewOf(levels);
      AbsentFromFlat(!order.isBuy, order);
      if order.remaining == 0 {
        AbsentFromFlat(order.isBuy, order);
      } else {
        k := LivePlace(order);
        LevelAlone(order.isBuy, k, levels, Levels(!order.isBuy));
      }
      WithdrawFlat(level, order);
      if order.remaining > 0 {
        assert ViewOf(levels) == v[k := ViewOf(levels)[k]];
        TotalReplace(v, k, ViewOf(levels)[k]);
      }
    }

    method WithdrawCounted(level: PriceLevel, order: Order)
      requires Core() && Indexed(order) && order.price in priceToLevel && priceToLevel[order.price] == level
      requires DepthsOk()
      modifies level, level.buffer, order`status, `orderIndex, `bidDepth, `askDepth
      ensures Core() && order.status == Cancelled && orderIndex == old(orderIndex) - {order.id}
      ensures Flat(true) == Without(old(Flat(true)), order) && Flat(false) == Without(old(Flat(false)), order)
      ensures order.remaining == 0 ==> level.size == old(level.size)
      ensures DepthsOk()
      ensures level.slots == Revoked(old(level.slots), order)
    {
      hide Core, LiveOf, Total, Without, Flatten;
      ghost var was := Total(Flat(order.isBuy));
      WithdrawTotals(level, order);
      SubtractDepth(order.isBuy, order.remaining, was);
    }

    static method IndexOf(levels: seq<PriceLevel>, level: PriceLevel) returns (k: nat)
      ensures k <= |levels| && level !in levels[..k]
      ensures k < |levels| ==> levels[k] == level
    {
      k := 0;
      while k < |levels| && levels[k] != level
        invariant k <= |levels| && level !in levels[..k]
      {
        k := k + 1;
      }
    }

    /** Takes an emptied level out of its side and the map, wherever it stands. */
    method RemoveLevel(level: PriceLevel, isBid: bool) returns (ghost k: nat)
      requires Core() && level in Levels(isBid) && level.size == 0
      requires DepthsOk()
      modifies `priceToLevel, `bidLevels, `askLevels
      ensures Core() && DepthsOk()
      ensures priceToLevel == old(priceToLevel) - {level.price}
      ensures Flat(true) == old(Flat(true)) && Flat(false) == old(Flat(false))
      ensures Levels(!isBid) == old(Levels(!isBid))
      ensures k < |old(Levels(isBid))| && old(Levels(isBid))[k] == level
      ensures Levels(isBid) == old(Levels(isBid)[..k] + Levels(isBid)[k + 1..])
    {
      hide ViewOf;
      hide Core, Flatten, Total, LiveOf;
      var levels := Levels(isBid);
      var at := IndexOf(levels, level);
      k := at;
      CoreFrame();
      assert k < |levels| by {
        assert levels[..|levels|] == levels;
      }
      EmptyAt(isBid, k);
      DropLevel(isBid, at);
    }

    lemma {:induction false} EmptyAt(isBid: bool, k: nat)
      requires Core() && k < |Levels(isBid)| && Levels(isBid)[k].size == 0
      ensures Levels(isBid)[k].queue == []
      ensures Flatten(ViewOf(Levels(isBid)[..k] + Levels(isBid)[k + 1..])) == Flat(isBid)
    {
      CoreLevel(isBid, k);
      hide Core, Flatten;
      ViewCut(Levels(isBid), k);
      var v := ViewOf(Levels(isBid));
      DropEmptyLevel(v[..k], v[k], v[k + 1..]);
    }

    /** An entry whose price has no level is a filled order; forgetting it changes nothing else. */
    method ForgetStale(id: uint64)
      requires Valid() && id in orderIndex && orderIndex[id].price !in priceToLevel
      modifies `orderIndex
      ensures Valid() && orderIndex == old(orderIndex) - {id}
      ensures Flat(true) == WithoutId(old(Flat(true)), id) && Flat(false) == WithoutId(old(Flat(false)), id)
      ensures Rings(true) == old(Rings(true)) && Rings(false) == old(Rings(false))
    {
      hide Core, LiveOf, Total, WithoutId, Flatten, NoneEmpty, BestOk;
      StaleEntry(id);
      CancelUnknown(true, id);
      CancelUnknown(false, id);
      ghost var order := orderIndex[id].order;
      orderIndex := orderIndex - {id};
      IndexWithoutStale(order);
    }

    lemma {:induction false} StaleEntry(id: uint64)
      requires Core() && id in orderIndex && orderIndex[id].price !in priceToLevel
      ensures orderIndex[id].order.id == id && orderIndex[id].order.remaining == 0
    {
    }

    twostate lemma IndexWithoutStale(order: Order)
      requires old(Core()) && old(Indexed(order)) && order.remaining == 0
      requires unchanged(`bidLevels, `askLevels, `priceToLevel, `known)
      requires orderIndex == old(orderIndex) - {order.id}
      requires forall p :: p in priceToLevel ==> unchanged(priceToLevel[p]) && unchanged(priceToLevel[p].buffer)
      requires forall o :: o in known ==> unchanged(o)
      ensures Core()
    {
      forall p | p in priceToLevel ensures LevelOk(priceToLevel[p]) {
        assert old(LevelOk(priceToLevel[p]));
      }
      forall id | id in orderIndex ensures LocationOk(id) {
        assert old(LocationOk(id));
      }
      forall p, i | p in priceToLevel && 0 <= i < |priceToLevel[p].slots| && priceToLevel[p].slots[i].Live?
        ensures Indexed(priceToLevel[p].slots[i].resting.order)
      {
        var l := priceToLevel[p];
        assert old(LevelOk(l)) && old(l.slots[i].Live?) && old(l.Item(l.queue[i], l.slots[i]));
      }
    }

    lemma {:induction false} LiveSide(level: PriceLevel, order: Order)
      requires Core() && Indexed(order) && order.price in priceToLevel && priceToLevel[order.price] == level
      ensures order.remaining > 0 ==> level in Levels(order.isBuy)
    {
    }

    /** The order leaves its ring; nothing else about the rings changes. */
    method WithdrawRings(level: PriceLevel, order: Order)
      requires Core() && Indexed(order) && order.price in priceToLevel && priceToLevel[order.price] == level
      requires DepthsOk() && NoneEmpty()
      modifies level, level.buffer, order`status, `orderIndex, `bidDepth, `askDepth
      ensures Core() && order.status == Cancelled && orderIndex == old(orderIndex) - {order.id}
      ensures Flat(true) == Without(old(Flat(true)), order) && Flat(false) == Without(old(Flat(false)), order)
      ensures order.remaining == 0 ==> level.size == old(level.size)
      ensures DepthsOk() && Crowded(order.price)
      ensures PrunedTo(true, old(Rings(true)), order, level) && PrunedTo(false, old(Rings(false)), order, level)
    {
      hide Core, LiveOf, Total, Without, Flatten, DepthsOk, Flat, Revoked, PrunedTo;
      ghost var bids, asks := Rings(true), Rings(false);
      ByPrice();
      WithdrawCounted(level, order);
      ByPrice();
      PrunedSide(true, bids, order);
      PrunedSide(false, asks, order);
    }

    /** One side is pruned, but for dropping the level if nothing is left in it. */
    ghost predicate PrunedTo(isBid: bool, was: seq<Ring>, order: Order, level: PriceLevel)
      reads `bidLevels, `askLevels, Levels(isBid), level, order
    {
      && |was| == |Levels(isBid)|
      && (level.size > 0 || level !in Levels(isBid) ==> Rings(isBid) == Pruned(was, order.price, order))
      && (forall k :: 0 <= k < |was| && Levels(isBid)[k] == level && level.size == 0 ==>
            Pruned(was, order.price, order) == Rings(isBid)[..k] + Rings(isBid)[k + 1..])
    }

    /** The order leaves its level, and the level goes with it when that empties the ring. */
    method WithdrawAndClean(level: PriceLevel, order: Order)
      requires Core() && NoneEmpty() && DepthsOk()
      requires Indexed(order) && order.price in priceToLevel && priceToLevel[order.price] == level
      modifies `priceToLevel, `bidLevels, `askLevels, `orderIndex, `bidDepth, `askDepth
      modifies level, level.buffer, order`status
      ensures Core() && NoneEmpty() && DepthsOk() && Renewed()
      ensures order.status == Cancelled && orderIndex == old(orderIndex) - {order.id}
      ensures Flat(true) == Without(old(Flat(true)), order) && Flat(false) == Without(old(Flat(false)), order)
      ensures Rings(true) == Pruned(old(Rings(true)), order.price, order)
      ensures Rings(false) == Pruned(old(Rings(false)), order.price, order)
    {
      hide Core, LiveOf, Total, Without, Flatten, DepthsOk, Flat, Pruned, Rings, PrunedTo, Crowded;
      ghost var bids, asks := Rings(true), Rings(false);
      LiveSide(level, order);
      StillCounted(level, order);
      WithdrawRings(level, order);
      CleanUp(level, order, bids, asks);
    }

    lemma {:induction false} StillCounted(level: PriceLevel, order: Order)
      requires NoneEmpty() && order.price in priceToLevel && priceToLevel[order.price] == level
      ensures level.size > 0
    {
    }

    /** Drops the level that a withdrawal has emptied, if it has. */
    method CleanUp(level: PriceLevel, order: Order, ghost bids: seq<Ring>, ghost asks: seq<Ring>)
      requires Core() && Crowded(order.price) && DepthsOk()
      requires order.price in priceToLevel && priceToLevel[order.price] == level
      requires level.size == 0 ==> level in Levels(order.isBuy)
      requires PrunedTo(true, bids, order, level) && PrunedTo(false, asks, order, level)
      modifies `priceToLevel, `bidLevels, `askLevels
      ensures Core() && NoneEmpty() && DepthsOk()
      ensures forall p :: p in priceToLevel ==> p in old(priceToLevel) && priceToLevel[p] == old(priceToLevel)[p]
      ensures Flat(true) == old(Flat(true)) && Flat(false) == old(Flat(false))
      ensures Rings(true) == Pruned(bids, order.price, order) && Rings(false) == Pruned(asks, order.price, order)
    {
      hide Core, LiveOf, Total, Flatten, DepthsOk, Flat, Pruned, RingsOf;
      MapPrices();
      if level.Empty() {
        ghost var levels := Levels(order.isBuy);
        OneSideOnly(order.isBuy, level);
        var k := RemoveLevel(level, order.isBuy);
        RingsCut(levels, k);
      }
    }

    lemma {:induction false} OneSideOnly(isBid: bool, level: PriceLevel)
      requires Core() && level in Levels(isBid)
      ensures level !in Levels(!isBid)
    {
      var k :| 0 <= k < |Levels(isBid)| && Levels(isBid)[k] == level;
      LevelAlone(isBid, k, Levels(isBid), Levels(!isBid));
    }

    /** Each level is the one filed under its price, and its size is the number of its slots. */
    lemma {:induction false} ByPrice()
      requires Core()
      ensures forall i :: 0 <= i < |bidLevels| ==> Filed(bidLevels[i])
      ensures forall i :: 0 <= i < |askLevels| ==> Filed(askLevels[i])
      ensures forall p :: p in priceToLevel ==> priceToLevel[p].price == p
      ensures forall p :: p in priceToLevel ==> priceToLevel[p].size == |priceToLevel[p].slots|
    {
      assert forall p :: p in priceToLevel ==> LevelOk(priceToLevel[p]);
    }

    /** What a withdrawal makes of one side, before a level that it empties is gone. */
    lemma {:induction false} PrunedSide(isBid: bool, was: seq<Ring>, order: Order)
      requires Core() && order.price in priceToLevel && |was| == |Levels(isBid)|
      requires forall i :: 0 <= i < |was| ==>
                 && was[i].price == Levels(isBid)[i].price
                 && Levels(isBid)[i].slots ==
                    if was[i].price == order.price then Revoked(was[i].slots, order) else was[i].slots
      ensures PrunedTo(isBid, was, order, priceToLevel[order.price])
    {
      hide Revoked, Pruned;
      SideShape(isBid);
      ByPrice();
      PrunedIs(was, Rings(isBid), order.price, order);
    }

    /** Cancelling an entry whose price has a level: live or stale, the flat lists lose exactly that id. */
    method CancelOnBook(id: uint64, level: PriceLevel)
      requires Valid() && id in orderIndex && orderIndex[id].price in priceToLevel
      requires priceToLevel[orderIndex[id].price] == level
      modifies this, level, level.buffer, orderIndex[id].order`status
      ensures Renewed()
      ensures Valid() && orderIndex == old(orderIndex) - {id} && known == old(known)
      ensures Flat(true) == WithoutId(old(Flat(true)), id) && Flat(false) == WithoutId(old(Flat(false)), id)
      ensures old(orderIndex)[id].order.status == Cancelled
      ensures sequence == old(sequence) + 1
      ensures var loc := old(orderIndex)[id];
              && Rings(true) == Pruned(old(Rings(true)), loc.price, loc.order)
              && Rings(false) == Pruned(old(Rings(false)), loc.price, loc.order)
    {
      hide Pruned, Rings;
      hide Core, LiveOf, Total, Without, WithoutId, Flatten, DepthsOk, NoneEmpty, BestOk;
      EntryKnown(id);
      CancelById(true, id);
      CancelById(false, id);
      WithdrawAndClean(level, orderIndex[id].order);
      Refresh();
    }

    method CancelOrder(id: uint64) returns (ok: bool)
      requires Valid()
      modifies this, priceToLevel.Values, Buffers(), known`status
      ensures Renewed()
      ensures Valid() && known == old(known) && orderIndex == old(orderIndex) - {id}
      ensures ok == old(id in orderIndex && orderIndex[id].price in priceToLevel)
      ensures Flat(true) == WithoutId(old(Flat(true)), id) && Flat(false) == WithoutId(old(Flat(false)), id)
      ensures ok ==> old(orderIndex)[id].order.status == Cancelled
      ensures forall m :: m in known && !(ok && m == old(orderIndex)[id].order) ==> m.status == old(m.status)
      ensures sequence == old(sequence) + if ok then 1 else 0
      ensures ok ==>
                var loc := old(orderIndex)[id];
                && Rings(true) == Pruned(old(Rings(true)), loc.price, loc.order)
                && Rings(false) == Pruned(old(Rings(false)), loc.price, loc.order)
      ensures !ok ==> Rings(true) == old(Rings(true)) && Rings(false) == old(Rings(false))
    {
      hide Core, LiveOf, Total, WithoutId, Flatten, DepthsOk, NoneEmpty, BestOk;
      if id !in orderIndex {
        CancelUnknown(true, id);
        CancelUnknown(false, id);
        assert orderIndex - {id} == orderIndex;
        return false;
      }
      EntryKnown(id);
      var loc := orderIndex[id];
      var level := FindLevel(loc.price);
      if level == null {
        ForgetStale(id);
        return false;
      }
      CancelOnBook(id, level);
      return true;
    }

    twostate predicate SameButStatus()
      reads `known, known
    {
      known == old(known) && forall o :: o in known ==>
        && o.price == old(o.price) && o.filled == old(o.filled) && o.remaining == old(o.remaining)
        && o.IsActive() == old(o.IsActive())
    }

    twostate lemma LevelRelabelled(level: PriceLevel)
      requires old(LevelOk(level)) && unchanged(level) && unchanged(level.buffer) && SameButStatus()
      ensures LevelOk(level)
    {
      hide LiveOf, Total;
      forall i | 0 <= i < |level.queue| ensures level.Item(level.queue[i], level.slots[i]) {
        assert old(level.Item(level.queue[i], level.slots[i]));
      }
    }

    twostate lemma ContentsRelabelled()
      requires old(Core()) && unchanged(`bidLevels, `askLevels, `priceToLevel, `orderIndex, `known)
      requires forall p :: p in priceToLevel ==> unchanged(priceToLevel[p]) && unchanged(priceToLevel[p].buffer)
      requires SameButStatus()
      ensures Contents() && KnownOk()
    {
      forall p | p in priceToLevel ensures LevelOk(priceToLevel[p]) {
        assert old(LevelOk(priceToLevel[p]));
        LevelRelabelled(priceToLevel[p]);
      }
      hide LevelOk;
    }

    twostate lemma IndexRelabelled()
      requires old(Core()) && unchanged(`bidLevels, `askLevels, `priceToLevel, `orderIndex, `known)
      requires forall p :: p in priceToLevel ==> unchanged(priceToLevel[p]) && unchanged(priceToLevel[p].buffer)
      requires SameButStatus()
      ensures IndexOk()
    {
      forall id | id in orderIndex ensures LocationOk(id) {
        assert old(LocationOk(id));
      }
      forall p, i | p in priceToLevel && 0 <= i < |priceToLevel[p].slots| && priceToLevel[p].slots[i].Live?
        ensures Indexed(priceToLevel[p].slots[i].resting.order)
      {
        assert old(priceToLevel[p].slots[i].Live?);
      }
    }

    /** Moving an order between New and Partial is invisible to the book. */
    twostate lemma Relabelled()
      requires old(Valid()) && unchanged(this)
      requires forall p :: p in priceToLevel ==> unchanged(priceToLevel[p]) && unchanged(priceToLevel[p].buffer)
      requires SameButStatus()
      ensures Valid()
    {
      ContentsRelabelled();
      IndexRelabelled();
    }

    /** Untouched levels list what they listed. */
    twostate lemma FlatKept()
      requires old(Shape()) && unchanged(`bidLevels, `askLevels, `priceToLevel)
      requires forall p :: p in priceToLevel ==> unchanged(priceToLevel[p])
      ensures Flat(true) == old(Flat(true)) && Flat(false) == old(Flat(false))
      ensures Rings(true) == old(Rings(true)) && Rings(false) == old(Rings(false))
    {
      forall l | l in bidLevels || l in askLevels ensures unchanged(l) {
        assert Has(priceToLevel, l);
      }
      ViewKept(bidLevels);
      ViewKept(askLevels);
      RingsKept(bidLevels);
      RingsKept(askLevels);
    }

    static lemma {:induction false} TotalPrefix(levels: seq<PriceLevel>, i: nat)
      requires i < |levels|
      ensures Total(Flatten(ViewOf(levels[..i + 1])))
              == Total(Flatten(ViewOf(levels[..i]))) + Total(levels[i].LiveOrders())
    {
      var v, m := ViewOf(levels[..i]), ViewOf(levels)[i];
      assert ViewOf(levels[..i + 1]) == v + [m];
      FlattenConcat(v, [m]);
      assert Flatten([m]) == m.live + [];
      assert m.live + [] == m.live;
      TotalConcat(Flatten(v), m.live);
    }

    /** Sums the level totals of one side from scratch. */
    method SideDepth(isBid: bool) returns (depth: uint32)
      requires Core()
      ensures depth == Wrap32(Total(Flat(isBid)))
    {
      hide Core, Total, Flatten, LiveOf;
      var levels := Levels(isBid);
      depth := 0;
      var i := 0;
      assert Flatten(ViewOf(levels[..0])) == [] && Total([]) == 0 by { NothingYet(levels); }
      while i < |levels|
        invariant Core() && levels == Levels(isBid)
        invariant 0 <= i <= |levels| && depth == Wrap32(Total(Flatten(ViewOf(levels[..i]))))
      {
        CoreLevel(isBid, i);
        TotalPrefix(levels, i);
        WrapAdd(Total(Flatten(ViewOf(levels[..i]))), Total(levels[i].LiveOrders()));
        depth := Wrap32(depth + levels[i].totalQuantity);
        i := i + 1;
      }
      assert levels[..|levels|] == levels;
    }

    lemma {:induction false} NothingYet(levels: seq<PriceLevel>)
      ensures Flatten(ViewOf(levels[..0])) == [] && Total([]) == 0
    {
    }

    /** Recomputing the depths from the levels finds the counters the operations kept. */
    method UpdateDepth()
      requires Core()
      modifies `bidDepth, `askDepth
      ensures Core() && DepthsOk()
      ensures old(DepthsOk()) ==> bidDepth == old(bidDepth) && askDepth == old(askDepth)
    {
      hide Core, Flatten, Total;
      var bids := SideDepth(true);
      CoreFrame();
      var asks := SideDepth(false);
      bidDepth, askDepth := bids, asks;
      CoreFrame();
    }
  }
}
