/** What a reader reads: the publishing protocol moves cells, and the cells are those of captures. */
module Readings {
  import opened Captures
  import opened Snapshots

  function RowCells(rows: seq<BookLevel>): (cells: Image)
    ensures |cells| == 3 * |rows|
  {
    if rows == [] then []
    else [rows[0].price, rows[0].quantity, rows[0].orderCount] + RowCells(rows[1..])
  }

  /** A snapshot as the cells of a node, the sequence number first. */
  function Cells(p: Picture): Image {
    [p.sequence, p.bestBid, p.bestAsk, p.bidDepth, p.askDepth, p.spread] + RowCells(p.bids) + RowCells(p.asks)
  }

  predicate Sized(p: Picture, depth: nat) {
    |p.bids| == |p.asks| == depth
  }

  function Width(depth: nat): nat {
    6 + 6 * depth
  }

  lemma {:induction false} RowCellsDiffer(a: seq<BookLevel>, b: seq<BookLevel>)
    requires RowCells(a) == RowCells(b)
    ensures a == b
  {
    assert |a| == |b|;
    if a != [] {
      var u, v := RowCells(a), RowCells(b);
      assert u[0] == v[0] && u[1] == v[1] && u[2] == v[2];
      assert u[3..] == RowCells(a[1..]) && v[3..] == RowCells(b[1..]);
      RowCellsDiffer(a[1..], b[1..]);
      assert a == [a[0]] + a[1..] && b == [b[0]] + b[1..];
    }
  }

  /** Cells of one size belong to one picture. */
  lemma {:induction false} CellsDiffer(p: Picture, q: Picture, depth: nat)
    requires Sized(p, depth) && Sized(q, depth) && Cells(p) == Cells(q)
    ensures p == q
  {
    var u, v := Cells(p), Cells(q);
    assert u[..6] == [p.sequence, p.bestBid, p.bestAsk, p.bidDepth, p.askDepth, p.spread];
    assert v[..6] == [q.sequence, q.bestBid, q.bestAsk, q.bidDepth, q.askDepth, q.spread];
    assert forall i :: 0 <= i < 6 ==> u[..6][i] == v[..6][i];
    assert u[6..6 + 3 * depth] == RowCells(p.bids) && v[6..6 + 3 * depth] == RowCells(q.bids);
    assert u[6 + 3 * depth..] == RowCells(p.asks) && v[6 + 3 * depth..] == RowCells(q.asks);
    RowCellsDiffer(p.bids, q.bids);
    RowCellsDiffer(p.asks, q.asks);
  }

  /** Every update is offered a capture of a valid book. */
  ghost predicate OffersCaptures(es: seq<Event>, depth: nat) {
    forall e :: e in es && e.Offer? ==> exists p: Picture :: Sized(p, depth) && Faithful(p) && e.image == Cells(p)
  }

  /** All that is on its way or has been published was offered. */
  ghost predicate Offered(s: State, es: seq<Event>) {
    && (s.writer.Scanning? || s.writer.Capturing? ==> Offer(s.writer.image) in es)
    && s.log != [] && s.log[0] == Zeroed(s.width)
    && (forall v :: 0 < v < |s.log| ==> Offer(s.log[v]) in es)
  }

  lemma {:induction false} StepOffered(s: State, e: Event, es: seq<Event>)
    requires Fits(s) && Offered(s, es)
    ensures Offered(Step(s, e), es + [e])
  {
  }

  lemma {:induction false} AfterOffered(width: nat, es: seq<Event>)
    requires width > 0
    ensures Offered(After(width, es), es)
  {
    if es != [] {
      var before, e := es[..|es| - 1], es[|es| - 1];
      AfterOffered(width, before);
      StepOffered(After(width, before), e, before);
      assert es == before + [e];
      hide Step;
    }
  }

  /**
   In any interleaving, a snapshot that a reader holds and finds valid (its sequence number is positive) is one
   faithful picture of the book, never a mixture of two. So is any other, once something has been published.
   */
  lemma {:induction false} HeldIsFaithful(depth: nat, es: seq<Event>, r: nat) returns (p: Picture)
    requires OffersCaptures(es, depth) && After(Width(depth), es).Pc(r).Holding?
    requires var s := After(Width(depth), es); s.Pc(r).seen > 0 || s.nodes[s.Pc(r).node][0] > 0
    ensures var s := After(Width(depth), es);
            && Faithful(p) && Sized(p, depth) && s.nodes[s.Pc(r).node] == Cells(p)
            && forall q :: Sized(q, depth) && s.nodes[s.Pc(r).node] == Cells(q) ==> q == p
  {
    var s := After(Width(depth), es);
    CountsAndImages(Width(depth), es);
    AfterOffered(Width(depth), es);
    hide After, Faithful, Cells;
    assert s.Pc(r).seen > 0;
    p :| Sized(p, depth) && Faithful(p) && s.log[s.Pc(r).seen] == Cells(p);
    forall q | Sized(q, depth) && Cells(p) == Cells(q) ensures q == p {
      CellsDiffer(p, q, depth);
    }
  }
}
