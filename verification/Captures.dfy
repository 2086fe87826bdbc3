/** What a snapshot says about the book it was taken from (capture_snapshot in book_snapshot.cpp). */
module Captures {
  import opened Orders
  import opened FlatBook
  import opened Rings
  import opened PriceLevels
  import opened OrderBooks

  datatype BookLevel = BookLevel(price: int64, quantity: uint32, orderCount: nat)

  const NO_LEVEL := BookLevel(0, 0, 0)

  /** All that a snapshot says. */
  datatype Picture = Picture(
    sequence: nat, bestBid: int64, bestAsk: int64, bidDepth: uint32, askDepth: uint32, spread: int,
    bids: seq<BookLevel>, asks: seq<BookLevel>)

  class BookSnapshot {
    const bids: array<BookLevel>
    const asks: array<BookLevel>
    var sequence: nat
    var bestBid: int64
    var bestAsk: int64
    var bidDepth: uint32
    var askDepth: uint32
    var spread: int

    constructor (depth: nat)
      ensures bids.Length == asks.Length == depth && fresh(bids) && fresh(asks) && bids != asks
      ensures forall i :: 0 <= i < depth ==> bids[i] == NO_LEVEL && asks[i] == NO_LEVEL
      ensures sequence == 0 && bestBid == bestAsk == spread == 0 && bidDepth == askDepth == 0
    {
      bids, asks := new BookLevel[depth](_ => NO_LEVEL), new BookLevel[depth](_ => NO_LEVEL);
      sequence, bestBid, bestAsk, bidDepth, askDepth, spread := 0, 0, 0, 0, 0, 0;
    }

    ghost function Shown(): Picture
      reads this, bids, asks
    {
      Picture(sequence, bestBid, bestAsk, bidDepth, askDepth, spread, bids[..], asks[..])
    }
  }

  ghost function RowOf(level: PriceLevel): BookLevel
    reads level
  {
    BookLevel(level.price, level.totalQuantity, 0)
  }

  /** The best levels in order, then nothing. */
  ghost predicate Shows(rows: seq<BookLevel>, levels: seq<PriceLevel>)
    reads levels
  {
    forall i :: 0 <= i < |rows| ==> rows[i] == if i < |levels| then RowOf(levels[i]) else NO_LEVEL
  }

  /** Copies as many levels as fit and clears the rest. */
  method CaptureSide(levels: seq<PriceLevel>, rows: array<BookLevel>)
    modifies rows
    ensures Shows(rows[..], levels)
  {
    var count := 0;
    var i := 0;
    while i < |levels| && count < rows.Length
      invariant 0 <= i <= |levels| && count == i <= rows.Length
      invariant forall k :: 0 <= k < count ==> rows[k] == RowOf(levels[k])
    {
      rows[count] := BookLevel(levels[i].price, levels[i].totalQuantity, 0);
      count := count + 1;
      i := i + 1;
    }
    i := count;
    while i < rows.Length
      invariant count <= i <= rows.Length
      invariant forall k :: 0 <= k < count ==> rows[k] == RowOf(levels[k])
      invariant forall k :: count <= k < i ==> rows[k] == NO_LEVEL
    {
      rows[i] := NO_LEVEL;
      i := i + 1;
    }
  }

  /** Every field is that of the book, and each side shows its best levels. */
  ghost predicate Depicts(p: Picture, book: OrderBook)
    reads book, book.bidLevels, book.askLevels
  {
    && p.sequence == book.sequence
    && p.bestBid == book.bestBid && p.bestAsk == book.bestAsk
    && p.bidDepth == book.bidDepth && p.askDepth == book.askDepth
    && p.spread == (if p.bestAsk == INT64_MAX || p.bestBid == 0 then 0 else p.bestAsk - p.bestBid)
    && Shows(p.bids, book.bidLevels) && Shows(p.asks, book.askLevels)
  }

  method Capture(book: OrderBook, snap: BookSnapshot)
    requires snap.bids != snap.asks
    modifies snap, snap.bids, snap.asks
    ensures Depicts(snap.Shown(), book)
    ensures snap.sequence == book.sequence && snap.bestBid == book.bestBid && snap.bestAsk == book.bestAsk
    ensures snap.bidDepth == book.bidDepth && snap.askDepth == book.askDepth
    ensures forall i :: 0 <= i < snap.bids.Length && i < |book.bidLevels| ==>
              snap.bids[i] == BookLevel(book.bidLevels[i].price, book.bidLevels[i].totalQuantity, 0)
    ensures forall i :: 0 <= i < snap.asks.Length && i < |book.askLevels| ==>
              snap.asks[i] == BookLevel(book.askLevels[i].price, book.askLevels[i].totalQuantity, 0)
    ensures |snap.Shown().bids| == snap.bids.Length && |snap.Shown().asks| == snap.asks.Length
  {
    snap.sequence := book.sequence;
    snap.bestBid, snap.bestAsk := book.bestBid, book.bestAsk;
    snap.bidDepth, snap.askDepth := book.bidDepth, book.askDepth;
    snap.spread := if snap.bestAsk == INT64_MAX || snap.bestBid == 0 then 0 else snap.bestAsk - snap.bestBid;
    CaptureSide(book.bidLevels, snap.bids);
    CaptureSide(book.askLevels, snap.asks);
  }

  // ----- what a capture of a valid book says -----

  function Sum(rows: seq<BookLevel>): nat {
    if rows == [] then 0 else Sum(rows[..|rows| - 1]) + rows[|rows| - 1].quantity
  }

  function Min(a: nat, b: nat): nat {
    if a < b then a else b
  }

  /** The rows in use are strictly ordered, best first. */
  lemma {:induction false} RowsOrdered(book: OrderBook, isBid: bool, rows: seq<BookLevel>)
    requires book.Valid() && Shows(rows, book.Levels(isBid))
    ensures forall i, j :: 0 <= i < j < Min(|rows|, |book.Levels(isBid)|) ==>
              Better(isBid, rows[i].price, rows[j].price)
  {
  }

  /** What rests on the first n levels. */
  ghost function Upto(levels: seq<PriceLevel>, n: nat): nat
    requires n <= |levels|
    reads levels
  {
    Total(Flatten(ViewOf(levels[..n])))
  }

  lemma {:induction false} UptoAll(levels: seq<PriceLevel>, n: nat)
    requires n <= |levels|
    ensures Upto(levels, n) <= Total(Flatten(ViewOf(levels)))
    ensures n == |levels| ==> Upto(levels, n) == Total(Flatten(ViewOf(levels)))
  {
    PrefixTotal(levels, n);
  }

  lemma {:induction false} SumNext(rows: seq<BookLevel>, n: nat)
    requires 0 < n <= |rows|
    ensures Sum(rows[..n]) == Sum(rows[..n - 1]) + rows[n - 1].quantity
  {
    assert rows[..n][..n - 1] == rows[..n - 1];
  }

  lemma {:induction false} RowsSum(book: OrderBook, isBid: bool, rows: seq<BookLevel>, n: nat)
    requires book.Core() && Shows(rows, book.Levels(isBid)) && n <= |rows| && n <= |book.Levels(isBid)|
    ensures Wrap32(Sum(rows[..n])) == Wrap32(Upto(book.Levels(isBid), n))
    ensures Upto(book.Levels(isBid), n) < 0x1_0000_0000 ==> Sum(rows[..n]) == Upto(book.Levels(isBid), n)
  {
    hide OrderBook.Core, Total, Flatten, ViewOf, LiveOf, Sum, Wrap32, Upto;
    var levels := book.Levels(isBid);
    if n == 0 {
      NothingYet(levels, rows);
    } else {
      RowsSum(book, isBid, rows, n - 1);
      book.CoreLevel(isBid, n - 1);
      SumNext(rows, n);
      UptoNext(levels, n - 1);
      WrapSums(Sum(rows[..n - 1]), Upto(levels, n - 1), Total(levels[n - 1].LiveOrders()));
    }
  }

  lemma {:induction false} NothingYet(levels: seq<PriceLevel>, rows: seq<BookLevel>)
    ensures Upto(levels, 0) == 0 == Sum(rows[..0])
  {
  }

  lemma {:induction false} UptoNext(levels: seq<PriceLevel>, i: nat)
    requires i < |levels|
    ensures Upto(levels, i + 1) == Upto(levels, i) + Total(levels[i].LiveOrders())
  {
    OrderBook.TotalPrefix(levels, i);
  }

  lemma {:induction false} WrapSums(sum: nat, exact: nat, more: nat)
    requires Wrap32(sum) == Wrap32(exact) && (exact < 0x1_0000_0000 ==> sum == exact)
    ensures Wrap32(sum + Wrap32(more)) == Wrap32(exact + more)
    ensures exact + more < 0x1_0000_0000 ==> sum + Wrap32(more) == exact + more
  {
    WrapSmall(more);
    WrapStep(more, sum);
    WrapStep(sum, more);
    WrapStep(exact, more);
    hide Wrap32;
  }

  lemma {:induction false} WrapSmall(x: nat)
    ensures x < 0x1_0000_0000 ==> Wrap32(x) == x
  {
  }

  lemma {:induction false} SumStops(rows: seq<BookLevel>, k: nat, n: nat)
    requires k <= n <= |rows| && forall i :: k <= i < n ==> rows[i] == NO_LEVEL
    ensures Sum(rows[..n]) == Sum(rows[..k])
  {
    if k < n {
      SumNext(rows, n);
      SumStops(rows, k, n - 1);
    }
  }

  /**
   A captured side sums to the depth counter, up to the counter's wrap, when every level fits; as long as the
   side holds less than 2^32 it never sums to more, and to exactly that when every level fits.
   */
  lemma {:induction false} RowsMatchDepth(book: OrderBook, isBid: bool, rows: seq<BookLevel>)
    requires book.Valid() && Shows(rows, book.Levels(isBid))
    ensures |book.Levels(isBid)| <= |rows| ==> Wrap32(Sum(rows)) == book.Depth(isBid)
    ensures Total(book.Flat(isBid)) < 0x1_0000_0000 ==>
              Sum(rows) <= book.Depth(isBid) && (|book.Levels(isBid)| <= |rows| ==> Sum(rows) == book.Depth(isBid))
  {
    hide OrderBook.Core, Total, Flatten, ViewOf, Sum, Upto;
    var levels, n := book.Levels(isBid), Min(|rows|, |book.Levels(isBid)|);
    RowsSum(book, isBid, rows, n);
    SumStops(rows, n, |rows|);
    UptoAll(levels, n);
    assert rows[..|rows|] == rows;
  }

  /** A quoted spread is positive; with prices that are not negative it also fits its 64 bits. */
  lemma {:induction false} SpreadPositive(book: OrderBook)
    requires book.Valid() && book.bestBid != 0 && book.bestAsk != INT64_MAX
    ensures 0 < book.bestAsk - book.bestBid
    ensures book.bestBid >= 0 ==> book.bestAsk - book.bestBid <= INT64_MAX
  {
  }

  // ----- the same without the book -----

  /** What one side of a picture says of a side with this many levels and this open quantity. */
  ghost predicate SideFaithful(isBid: bool, rows: seq<BookLevel>, best: int64, depth: uint32, count: nat, total: nat) {
    var used := Min(|rows|, count);
    && (forall i, j :: 0 <= i < j < used ==> Better(isBid, rows[i].price, rows[j].price))
    && (forall i :: used <= i < |rows| ==> rows[i] == NO_LEVEL)
    && (forall i :: 0 <= i < |rows| ==> rows[i].orderCount == 0)
    && (used > 0 ==> best == rows[0].price)
    && (count == 0 ==> best == if isBid then 0 else INT64_MAX)
    && depth == Wrap32(total)
    && (count <= |rows| ==> Wrap32(Sum(rows)) == depth)
    && (total < 0x1_0000_0000 ==> Sum(rows) <= depth && (count <= |rows| ==> Sum(rows) == depth))
  }

  ghost predicate FaithfulWith(p: Picture, bidCount: nat, askCount: nat, bidTotal: nat, askTotal: nat) {
    && SideFaithful(true, p.bids, p.bestBid, p.bidDepth, bidCount, bidTotal)
    && SideFaithful(false, p.asks, p.bestAsk, p.askDepth, askCount, askTotal)
    && (forall i, j :: 0 <= i < Min(|p.bids|, bidCount) && 0 <= j < Min(|p.asks|, askCount) ==>
          p.bids[i].price < p.asks[j].price)
  }

  /** Both sides are faithful to one uncrossed book, and the spread is the distance of the best prices. */
  ghost predicate Faithful(p: Picture) {
    && (exists b, a, bt, at :: FaithfulWith(p, b, a, bt, at))
    && (if p.bestAsk == INT64_MAX || p.bestBid == 0 then p.spread == 0
        else p.spread == p.bestAsk - p.bestBid && p.spread > 0)
  }

  lemma {:induction false} SideIsFaithful(book: OrderBook, isBid: bool, rows: seq<BookLevel>)
    requires book.Valid() && Shows(rows, book.Levels(isBid))
    ensures SideFaithful(isBid, rows, if isBid then book.bestBid else book.bestAsk, book.Depth(isBid),
                     |book.Levels(isBid)|, Total(book.Flat(isBid)))
  {
    RowsOrdered(book, isBid, rows);
    RowsMatchDepth(book, isBid, rows);
    hide OrderBook.Core, OrderBook.Flat, Total, Sum, Better;
  }

  /** A capture of a valid book is a faithful picture. */
  lemma {:induction false} CaptureIsFaithful(book: OrderBook, p: Picture)
    requires book.Valid() && Depicts(p, book)
    ensures Faithful(p)
  {
    SideIsFaithful(book, true, p.bids);
    SideIsFaithful(book, false, p.asks);
    book.NeverCrosses();
    hide OrderBook.Core, OrderBook.Flat, Total, SideFaithful;
    assert FaithfulWith(p, |book.bidLevels|, |book.askLevels|, Total(book.Flat(true)), Total(book.Flat(false)));
  }
}
