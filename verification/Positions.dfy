/** Weighted-average positions and profit and loss (position_manager.hpp, position_manager.cpp). */
module Positions {
  import opened Orders

  const TWO64: int := 0x1_0000_0000_0000_0000

  function Wrap64(x: int): uint64 {
    x % 0x1_0000_0000_0000_0000
  }

  function Signed64(x: uint64): int64 {
    if x < 0x8000_0000_0000_0000 then x else x - 0x1_0000_0000_0000_0000
  }

  /** What 64 signed bits keep of an amount. */
  function Narrow64(x: int): int64 {
    Signed64(Wrap64(x))
  }

  predicate Fits64(x: int) {
    -0x8000_0000_0000_0000 <= x < 0x8000_0000_0000_0000
  }

  lemma {:induction false} NarrowFits(x: int)
    ensures Narrow64(x) == x <==> Fits64(x)
  {
  }

  lemma {:induction false} NarrowOff(x: int) returns (k: int)
    ensures Narrow64(x) == x + TWO64 * k
  {
    k := -(x / TWO64) - if Wrap64(x) < 0x8000_0000_0000_0000 then 0 else 1;
  }

  lemma {:induction false} NarrowSame(x: int, y: int, k: int)
    requires x == y + TWO64 * k
    ensures Narrow64(x) == Narrow64(y)
  {
  }

  /** Narrowing a part of a sum or of a product first changes nothing in the end. */
  lemma {:induction false} NarrowSum(x: int, y: int)
    ensures Narrow64(Narrow64(x) + y) == Narrow64(x + y)
    ensures Narrow64(x + Narrow64(y)) == Narrow64(x + y)
  {
    var j := NarrowOff(x);
    var k := NarrowOff(y);
    NarrowSame(Narrow64(x) + y, x + y, j);
    NarrowSame(x + Narrow64(y), x + y, k);
  }

  lemma {:induction false} NarrowProduct(x: int, y: int)
    ensures Narrow64(Narrow64(x) * y) == Narrow64(x * y)
  {
    var k := NarrowOff(x);
    assert (x + TWO64 * k) * y == x * y + TWO64 * (k * y);
    NarrowSame(Narrow64(x) * y, x * y, k * y);
  }

  /**
   An account of one symbol. The traded-quantity counters are 32 bits wide; net quantity and realized profit are
   exact in the books and narrowed in what the manager stores.
   */
  datatype Position = Position(net: int, realized: int, average: int64, bought: uint32, sold: uint32)

  const FLAT := Position(0, 0, 0, 0, 0)

  /** Unsigned 64-bit division. */
  function Quotient(x: uint64, n: int): uint64
    requires n > 0
  {
    QuotientFits(x, n);
    x / n
  }

  lemma {:induction false} QuotientFits(x: int, n: int)
    requires x >= 0 && n > 0
    ensures 0 <= x / n <= x
  {
    var q := x / n;
    assert q >= 0 && q * n <= x;
    assert q <= q * n;
  }

  /**
   The average after a buy. The old average meets an unsigned 64-bit count, so the sum and the division are
   unsigned too, and the quotient is read back as a signed price.
   */
  function NewAverage(average: int64, bought: uint32, price: int64, quantity: uint32): int64
    requires quantity > 0
  {
    if bought == 0 then price
    else Signed64(Quotient(Wrap64(average * bought + price * quantity), bought + quantity))
  }

  function Update(p: Position, isBuy: bool, quantity: uint32, price: int64): Position {
    if quantity == 0 then p
    else if isBuy then
      p.(net := p.net + quantity, average := NewAverage(p.average, p.bought, price, quantity),
         bought := Wrap32(p.bought + quantity))
    else
      p.(net := p.net - quantity, realized := p.realized + (price - p.average) * quantity,
         sold := Wrap32(p.sold + quantity))
  }

  function Narrow(p: Position): Position {
    p.(net := Narrow64(p.net), realized := Narrow64(p.realized))
  }

  lemma {:induction false} NarrowUpdate(p: Position, isBuy: bool, quantity: uint32, price: int64)
    ensures Narrow(Update(Narrow(p), isBuy, quantity, price)) == Narrow(Update(p, isBuy, quantity, price))
  {
    NarrowSum(p.net, quantity);
    NarrowSum(p.net, 0 - quantity);
    NarrowSum(p.realized, (price - p.average) * quantity);
    NarrowSum(p.net, 0);
    NarrowSum(p.realized, 0);
    hide NewAverage, Narrow64;
  }

  /** The open quantity at a mark price, in 64 bits; long and short have formulas of their own. */
  function Unrealized(pos: Position, mark: int64): int64 {
    if pos.net == 0 then 0
    else if pos.net > 0 then Narrow64(Narrow64(mark - pos.average) * pos.net)
    else Narrow64(Narrow64(pos.average - mark) * Narrow64(-pos.net))
  }

  lemma {:induction false} UnrealizedIs(p: Position, mark: int64)
    ensures Unrealized(Narrow(p), mark) == Narrow64((mark - p.average) * p.net)
    ensures Narrow64(Narrow64(p.realized) + Unrealized(Narrow(p), mark)) == Narrow64(TotalPnl(p, mark))
  {
    OpenNarrow(mark, p.average, Narrow64(p.net));
    NarrowProduct(p.net, mark - p.average);
    var open := (mark - p.average) * p.net;
    NarrowSum(p.realized, open);
    NarrowSum(p.realized, Narrow64(open));
    hide Narrow64;
    assert Narrow64(p.net) * (mark - p.average) == (mark - p.average) * Narrow64(p.net);
    assert p.net * (mark - p.average) == open;
  }

  /** Long and short, the product is that of one formula. */
  lemma {:induction false} OpenNarrow(mark: int64, average: int64, net: int)
    ensures Narrow64(Narrow64(mark - average) * net) == Narrow64((mark - average) * net)
    ensures Narrow64(Narrow64(average - mark) * Narrow64(-net)) == Narrow64((mark - average) * net)
    ensures net == 0 ==> Narrow64((mark - average) * net) == 0
  {
    NarrowProduct(mark - average, net);
    NarrowProduct(average - mark, Narrow64(-net));
    NarrowProduct(-net, average - mark);
    assert (average - mark) * Narrow64(-net) == Narrow64(-net) * (average - mark);
    assert -net * (average - mark) == (mark - average) * net;
  }

  /** Every step of the arithmetic in 64 bits, or only the result: it comes to the same. */
  lemma {:induction false} BuyStored(exact: Position, quantity: uint32, price: int64)
    requires quantity > 0
    ensures var p := Narrow(exact);
            p.(net := Narrow64(p.net + quantity), average := NewAverage(p.average, p.bought, price, quantity),
               bought := Wrap32(p.bought + quantity))
            == Narrow(Update(exact, true, quantity, price))
  {
    NarrowSum(exact.net, quantity);
    hide NewAverage, Narrow64;
  }

  lemma {:induction false} SaleStored(exact: Position, quantity: uint32, price: int64)
    requires quantity > 0
    ensures var p := Narrow(exact);
            p.(net := Narrow64(p.net - quantity),
               realized := Narrow64(p.realized + Narrow64(Narrow64(price - p.average) * quantity)),
               sold := Wrap32(p.sold + quantity))
            == Narrow(Update(exact, false, quantity, price))
  {
    var gain := (price - exact.average) * quantity;
    NarrowProduct(price - exact.average, quantity);
    NarrowSum(exact.net, 0 - quantity);
    NarrowSum(Narrow64(exact.realized), gain);
    NarrowSum(exact.realized, gain);
    hide Narrow64;
  }

  predicate EndsBlank(s: string) {
    s != "" && s[|s| - 1] == ' '
  }

  /** Trailing blanks do not distinguish symbols when positions are written. */
  function Trim(s: string): string {
    if EndsBlank(s) then Trim(s[..|s| - 1]) else s
  }

  lemma {:induction false} TrimEnd(s: string)
    ensures !EndsBlank(Trim(s))
    ensures Trim(s) == s <==> !EndsBlank(s)
  {
    if EndsBlank(s) {
      TrimEnd(s[..|s| - 1]);
      TrimShorter(s[..|s| - 1]);
    }
  }

  function Spaces(n: nat): (b: string)
    ensures |b| == n && forall i :: 0 <= i < n ==> b[i] == ' '
  {
    seq(n, _ => ' ')
  }

  /** Trimming takes off all the blanks at the end and nothing else. */
  lemma {:induction false} TrimSpaces(s: string, n: nat)
    requires !EndsBlank(s)
    ensures Trim(s + Spaces(n)) == s
  {
    if n > 0 {
      TrimSpaces(s, n - 1);
      assert (s + Spaces(n))[..|s| + n - 1] == s + Spaces(n - 1);
    } else {
      assert s + Spaces(0) == s;
    }
  }

  /** So symbols fall together exactly when they differ in blanks at the end. */
  lemma {:induction false} TrimSame(s: string, t: string)
    ensures exists n :: 0 <= n <= |s| && s == Trim(s) + Spaces(n)
    ensures Trim(s) == Trim(t) <==> exists u, m, n :: !EndsBlank(u) && s == u + Spaces(m) && t == u + Spaces(n)
  {
    var m := TrimRest(s);
    var n := TrimRest(t);
    TrimEnd(s);
    if u, i, j :| !EndsBlank(u) && s == u + Spaces(i) && t == u + Spaces(j) {
      TrimSpaces(u, i);
      TrimSpaces(u, j);
    }
  }

  lemma {:induction false} TrimRest(s: string) returns (n: nat)
    ensures n <= |s| && s == Trim(s) + Spaces(n)
  {
    if EndsBlank(s) {
      var k := TrimRest(s[..|s| - 1]);
      n := k + 1;
      assert s == s[..|s| - 1] + [' '];
      assert Spaces(n) == Spaces(k) + [' '];
    } else {
      n := 0;
      assert s + Spaces(0) == s;
    }
  }

  lemma {:induction false} TrimShorter(s: string)
    ensures |Trim(s)| <= |s|
  {
    if EndsBlank(s) {
      TrimShorter(s[..|s| - 1]);
    }
  }

  datatype Deal = Deal(isBuy: bool, quantity: uint32, price: int64)

  /** The books of all symbols after one more deal. */
  function Booked(deals: map<string, seq<Deal>>, o: Order, quantity: uint32, price: int64): map<string, seq<Deal>> {
    var symbol := Trim(o.symbol);
    if quantity == 0 then deals
    else deals[symbol := (if symbol in deals then deals[symbol] else []) + [Deal(o.isBuy, quantity, price)]]
  }

  class PositionManager {
    var positions: map<string, Position>

    /** Every deal booked so far, by trimmed symbol. */
    ghost var deals: map<string, seq<Deal>>

    constructor ()
      ensures Valid() && positions == map[] && deals == map[]
    {
      positions, deals := map[], map[];
    }

    ghost function DealsOf(symbol: string): seq<Deal>
      reads this
    {
      if symbol in deals then deals[symbol] else []
    }

    /** The exact account that the deals in a symbol come to. */
    ghost function Account(symbol: string): Position
      reads this
    {
      After(DealsOf(symbol))
    }

    /** The position filed under a symbol, flat when there is none. */
    function Of(symbol: string): Position
      reads this
    {
      if symbol in positions then positions[symbol] else FLAT
    }

    /** Positions are only ever filed under trimmed symbols, and each keeps 64 bits of what its deals make it. */
    ghost predicate Valid()
      reads this
    {
      && (forall s :: s in positions ==> Trim(s) == s)
      && (forall s :: Of(s) == Narrow(Account(s)))
    }

    method UpdatePosition(order: Order, quantity: uint32, price: int64)
      requires Valid()
      modifies this
      ensures Valid()
      ensures positions ==
              if quantity == 0 then old(positions)
              else old(positions)[Trim(order.symbol) :=
                                    Narrow(Update(old(Of(Trim(order.symbol))), order.isBuy, quantity, price))]
      ensures deals == Booked(old(deals), order, quantity, price)
      ensures forall s :: Account(s) == if quantity > 0 && Trim(order.symbol) == s
                                        then Update(old(Account(s)), order.isBuy, quantity, price) else old(Account(s))
    {
      hide After, Trim, Narrow64, Wrap64, Signed64;
      if quantity == 0 {
        return;
      }
      BuyStored(Account(Trim(order.symbol)), quantity, price);
      SaleStored(Account(Trim(order.symbol)), quantity, price);
      NarrowUpdate(Account(Trim(order.symbol)), order.isBuy, quantity, price);
      var symbol := Trim(order.symbol);
      TrimTwice(order.symbol);
      var pos := Of(symbol);
      if order.isBuy {
        var newAverage;
        if pos.bought == 0 {
          newAverage := price;
        } else {
          newAverage := Signed64(Quotient(Wrap64(pos.average * pos.bought + price * quantity), pos.bought + quantity));
        }
        pos := pos.(net := Narrow64(pos.net + quantity), average := newAverage,
                    bought := Wrap32(pos.bought + quantity));
      } else {
        var pnl := Narrow64(Narrow64(price - pos.average) * quantity);
        pos := pos.(net := Narrow64(pos.net - quantity), realized := Narrow64(pos.realized + pnl),
                    sold := Wrap32(pos.sold + quantity));
      }
      AfterNext(DealsOf(symbol), Deal(order.isBuy, quantity, price));
      deals := deals[symbol := DealsOf(symbol) + [Deal(order.isBuy, quantity, price)]];
      positions := positions[symbol := pos];
      forall s ensures Of(s) == Narrow(Account(s)) {
        assert old(Of(s)) == Narrow(old(Account(s)));
      }
    }

    // The getters trim a copy of the symbol and then look the untrimmed one up.

    function GetPosition(symbol: string): int
      reads this
    {
      Of(symbol).net
    }

    function GetRealizedPnl(symbol: string): int
      reads this
    {
      Of(symbol).realized
    }

    function GetUnrealizedPnl(symbol: string, mark: int64): int64
      reads this
    {
      Unrealized(Of(symbol), mark)
    }

    function GetTotalPnl(symbol: string, mark: int64): int64
      reads this
    {
      Narrow64(GetRealizedPnl(symbol) + GetUnrealizedPnl(symbol, mark))
    }

    /**
     The getters trim the symbol and then look up the untrimmed one, so they find what was traded exactly when
     there is nothing to trim; a symbol that ends in a blank reads as flat.
     */
    lemma {:induction false} GettersFindIff(symbol: string, mark: int64)
      requires Valid()
      ensures var p, total := Of(Trim(symbol)), GetTotalPnl(Trim(symbol), mark);
              && (GetPosition(symbol) == p.net <==> !EndsBlank(symbol) || p.net == 0)
              && (GetRealizedPnl(symbol) == p.realized <==> !EndsBlank(symbol) || p.realized == 0)
              && (GetTotalPnl(symbol, mark) == total <==> !EndsBlank(symbol) || total == 0)
      ensures EndsBlank(symbol) ==> GetPosition(symbol) == GetRealizedPnl(symbol) == GetTotalPnl(symbol, mark) == 0
    {
      TrimEnd(symbol);
    }

    /** The three cases of the getter are one formula on the books, of which it returns what 64 bits keep. */
    lemma {:induction false} TotalPnlIs(symbol: string, mark: int64)
      requires Valid()
      ensures GetTotalPnl(symbol, mark) == Narrow64(TotalPnl(Account(symbol), mark))
    {
      hide After, Narrow64, Unrealized, TotalPnl;
      UnrealizedIs(Account(symbol), mark);
    }

    /**
     The profit-and-loss identity, of the manager itself: whatever was booked, total profit and loss at any mark
     is cash flow plus the position at the mark, plus the rounding of the averages, plus the restatements, as far
     as 64 bits go.
     */
    lemma {:induction false} PnlAlways(symbol: string, mark: int64)
      requires Valid()
      ensures var deals := DealsOf(symbol);
              var total := Cash(deals) + mark * (Volume(deals, true) - Volume(deals, false))
                           + Rounding(deals) + Restated(deals);
              && GetTotalPnl(symbol, mark) == Narrow64(total)
              && (GetTotalPnl(symbol, mark) == total <==> Fits64(total))
    {
      TotalPnlIs(symbol, mark);
      PnlIdentity(DealsOf(symbol), mark);
      NarrowFits(TotalPnl(Account(symbol), mark));
      Counters(DealsOf(symbol));
    }
  }

  /** A six-letter field padded with blanks: the buy is booked, and asking with the same symbol finds nothing. */
  method PaddedBuyIsMissed(quantity: uint32, price: int64) returns (asked: int, held: int)
    requires quantity > 0
    ensures asked == 0 && held == quantity
  {
    hide Trim, After, Update, Narrow, PositionManager.Valid;
    var manager := new PositionManager();
    var order := new Order(1, "AAPL  ", true, Limit, price, quantity);
    PaddedTrims();
    FirstBuy(quantity, price);
    manager.UpdatePosition(order, quantity, price);
    manager.GettersFindIff("AAPL  ", price);
    asked := manager.GetPosition("AAPL  ");
    held := manager.GetPosition("AAPL");
  }

  lemma {:induction false} FirstBuy(quantity: uint32, price: int64)
    requires quantity > 0
    ensures Narrow(Update(FLAT, true, quantity, price)).net == quantity
  {
    NarrowFits(quantity);
  }

  lemma {:induction false} PaddedTrims()
    ensures Trim("AAPL  ") == "AAPL"
  {
    assert "AAPL  "[..5] == "AAPL " && "AAPL "[..4] == "AAPL";
  }

  lemma {:induction false} TrimTwice(s: string)
    ensures Trim(Trim(s)) == Trim(s)
  {
    if EndsBlank(s) {
      TrimTwice(s[..|s| - 1]);
    }
  }

  /** Total profit and loss at a mark price: realized plus open quantity against the average. */
  function TotalPnl(p: Position, mark: int): int {
    p.realized + (mark - p.average) * p.net
  }

  // ----- the average -----

  /**
   The unsigned average is the true weighted average rounded down exactly when the weighted sum is neither
   negative nor 2^64 or more: it is computed from the sum modulo 2^64.
   */
  lemma {:induction false} AverageExactIff(average: int64, bought: uint32, price: int64, quantity: uint32)
    requires bought > 0 && quantity > 0
    ensures NewAverage(average, bought, price, quantity) == (average * bought + price * quantity) / (bought + quantity)
            <==> 0 <= average * bought + price * quantity < TWO64
  {
    var v, n := average * bought + price * quantity, bought + quantity;
    QuotientBound(Wrap64(v), n);
    if v < 0 {
      QuotientSign(v, n);
    } else if v >= TWO64 {
      QuotientDrops(v, Wrap64(v), n);
    }
  }

  /** In range or not, the average times the count falls short of the sum modulo 2^64 by less than the count. */
  lemma {:induction false} AverageOfWrapped(average: int64, bought: uint32, price: int64, quantity: uint32)
    returns (w: int, k: int)
    requires bought > 0 && quantity > 0
    ensures w == average * bought + price * quantity + 0x1_0000_0000_0000_0000 * k
    ensures 0 <= w < 0x1_0000_0000_0000_0000
    ensures var a, n := NewAverage(average, bought, price, quantity), bought + quantity;
            0 <= a && a * n <= w < a * n + n
  {
    var v, n := average * bought + price * quantity, bought + quantity;
    w, k := Wrap64(v), -(v / 0x1_0000_0000_0000_0000);
    QuotientBound(w, n);
    RestOfDivision(w, n);
  }

  lemma {:induction false} QuotientSign(v: int, n: int)
    requires v < 0 < n
    ensures v / n < 0
  {
  }

  /** Losing a whole 2^64 from the sum lowers the quotient. */
  lemma {:induction false} QuotientDrops(v: int, w: int, n: int)
    requires 0 <= w <= v - TWO64 && 0 < n <= TWO64
    ensures w / n < v / n
  {
    RestOfDivision(v, n);
    RestOfDivision(w, n);
    if w / n >= v / n {
      ProductOrder(v / n, w / n, n);
    }
  }

  /** A market buy enters the average at the largest price there is; the next buy's average is then wrong. */
  lemma {:induction false} AverageAfterMarketBuy()
    ensures var p := After([Deal(true, 100, INT64_MAX), Deal(true, 100, 10000)]);
            p.average != (INT64_MAX * 100 + 10000 * 100) / 200
  {
    var buys := [Deal(true, 100, INT64_MAX), Deal(true, 100, 10000)];
    assert buys[..1] == [Deal(true, 100, INT64_MAX)] && buys[..1][..0] == [];
    assert After(buys[..1]).average == INT64_MAX && After(buys[..1]).bought == 100;
    AverageExactIff(INT64_MAX, 100, 10000, 100);
  }

  lemma {:induction false} QuotientBound(v: int, n: int)
    requires 0 <= v < TWO64 && n >= 2
    ensures 0 <= v / n < 0x8000_0000_0000_0000
  {
    var q := v / n;
    assert 0 <= q * n <= v;
    assert q * 2 <= q * n;
  }

  // ----- runs of buys and sells on one symbol -----

  function After(deals: seq<Deal>): Position {
    if deals == [] then FLAT
    else
      var d := deals[|deals| - 1];
      Update(After(deals[..|deals| - 1]), d.isBuy, d.quantity, d.price)
  }

  lemma {:induction false} AfterNext(deals: seq<Deal>, d: Deal)
    ensures After(deals + [d]) == Update(After(deals), d.isBuy, d.quantity, d.price)
  {
  }

  function Volume(deals: seq<Deal>, isBuy: bool): nat {
    if deals == [] then 0
    else
      var d := deals[|deals| - 1];
      Volume(deals[..|deals| - 1], isBuy) + if d.isBuy == isBuy then d.quantity else 0
  }

  /** What the buys cost. */
  function Cost(deals: seq<Deal>): int {
    if deals == [] then 0
    else
      var d := deals[|deals| - 1];
      Cost(deals[..|deals| - 1]) + if d.isBuy then d.price * d.quantity else 0
  }

  /** Money received less money paid. */
  function Cash(deals: seq<Deal>): int {
    if deals == [] then 0
    else
      var d := deals[|deals| - 1];
      Cash(deals[..|deals| - 1]) + if d.isBuy then -(d.price * d.quantity) else d.price * d.quantity
  }

  function Buys(deals: seq<Deal>): nat {
    if deals == [] then 0
    else
      Buys(deals[..|deals| - 1]) + if deals[|deals| - 1].isBuy && deals[|deals| - 1].quantity > 0 then 1 else 0
  }

  /** What one buy's division drops: the weighted sum less the new average times the new count. */
  function Dropped(p: Position, d: Deal): int {
    p.average * p.bought + d.price * d.quantity
    - Update(p, true, d.quantity, d.price).average * (p.bought + d.quantity)
  }

  /** Accumulated rounding of the average over all buys. */
  function Rounding(deals: seq<Deal>): int {
    if deals == [] then 0
    else
      var before, d := deals[..|deals| - 1], deals[|deals| - 1];
      Rounding(before) + if d.isBuy then Dropped(After(before), d) else 0
  }

  /** What has been sold, less what the counter of bought quantity has lost by wrapping. */
  function SoldUncovered(deals: seq<Deal>): int {
    Volume(deals, false) - (Volume(deals, true) - Wrap32(Volume(deals, true)))
  }

  /** Each buy moves the average under everything already sold, wrapped purchases counting against it. */
  function Restated(deals: seq<Deal>): int {
    if deals == [] then 0
    else
      var before, d := deals[..|deals| - 1], deals[|deals| - 1];
      Restated(before)
      + if d.isBuy then (After(deals).average - After(before).average) * SoldUncovered(before) else 0
  }

  lemma {:induction false} Counters(deals: seq<Deal>)
    ensures After(deals).net == Volume(deals, true) - Volume(deals, false)
    ensures After(deals).bought == Wrap32(Volume(deals, true))
    ensures After(deals).sold == Wrap32(Volume(deals, false))
  {
    if deals != [] {
      var before, d := deals[..|deals| - 1], deals[|deals| - 1];
      hide Update, Wrap32;
      Counters(before);
      CountersStep(After(before), d);
      WrapStep(Volume(before, d.isBuy), d.quantity);
    }
  }

  lemma {:induction false} CountersStep(p: Position, d: Deal)
    ensures var q := Update(p, d.isBuy, d.quantity, d.price);
            && q.net == p.net + (if d.isBuy then d.quantity else 0 - d.quantity)
            && q.bought == (if d.isBuy then Wrap32(p.bought + d.quantity) else p.bought)
            && q.sold == (if d.isBuy then p.sold else Wrap32(p.sold + d.quantity))
  {
    hide NewAverage;
  }

  lemma {:induction false} PnlBuy(p: Position, d: Deal, sold: int, mark: int)
    requires d.isBuy && p.net == p.bought - sold
    ensures var q := Update(p, true, d.quantity, d.price);
            TotalPnl(q, mark) - mark * q.net == TotalPnl(p, mark) - mark * p.net
            - d.price * d.quantity + Dropped(p, d) + (q.average - p.average) * sold
  {
    var q := Update(p, true, d.quantity, d.price);
    assert q.net == p.net + d.quantity && q.realized == p.realized;
    hide NewAverage, Update;
    BuyStep(p.realized, p.average, q.average, p.bought, d.quantity, sold, d.price, mark);
    assert q.net == p.bought + d.quantity - sold;
    ProductOf(mark, p.net, d.quantity);
  }

  lemma {:induction false} PnlSell(p: Position, d: Deal, mark: int)
    requires !d.isBuy
    ensures var q := Update(p, false, d.quantity, d.price);
            TotalPnl(q, mark) - mark * q.net == TotalPnl(p, mark) - mark * p.net + d.price * d.quantity
  {
  }

  lemma {:induction false} ProductOf(x: int, y: int, z: int)
    ensures x * (y + z) == x * y + x * z
  {
  }

  /**
   The profit-and-loss identity. At any mark, total profit and loss is cash flow plus open quantity at the
   mark, plus the rounding of the averages, plus the restatement of what had been sold before each buy.
   */
  lemma {:induction false} PnlIdentity(deals: seq<Deal>, mark: int)
    ensures TotalPnl(After(deals), mark)
            == Cash(deals) + mark * After(deals).net + Rounding(deals) + Restated(deals)
  {
    if deals != [] {
      var before, d := deals[..|deals| - 1], deals[|deals| - 1];
      PnlIdentity(before, mark);
      Counters(before);
      hide TotalPnl, Dropped, Update;
      if d.isBuy {
        PnlBuy(After(before), d, SoldUncovered(before), mark);
      } else {
        PnlSell(After(before), d, mark);
      }
    }
  }

  lemma {:induction false} BuyStep(
      realized: int, a: int, a': int, bought: int, quantity: int, sold: int, price: int, mark: int)
    ensures realized + (mark - a') * (bought + quantity - sold)
            == realized + (mark - a) * (bought - sold) - price * quantity + mark * quantity
               + (a * bought + price * quantity - a' * (bought + quantity)) + (a' - a) * sold
  {
  }

  // ----- how far the truncated average drifts -----

  /** Every buy is priced within [lo, hi], and no sum the average is computed from overflows. */
  ghost predicate InRange(deals: seq<Deal>, lo: int, hi: int) {
    && 0 <= lo <= hi
    && (forall i :: 0 <= i < |deals| && deals[i].isBuy ==> lo <= deals[i].price <= hi)
    && Volume(deals, true) < 0x1_0000_0000
    && hi * Volume(deals, true) < TWO64
  }

  lemma {:induction false} WeightedBounds(a: int, b: int, x: int, n: int, lo: int, hi: int)
    requires 0 <= lo <= a <= hi && lo <= x <= hi && b > 0 && n > 0
    ensures 0 <= a * b + x * n <= hi * (b + n)
    ensures lo <= (a * b + x * n) / (b + n) <= hi
  {
    var v, m := a * b + x * n, b + n;
    ProductOrder(lo, a, b);
    ProductOrder(a, hi, b);
    ProductOrder(lo, x, n);
    ProductOrder(x, hi, n);
    ProductOrder(0, lo, m);
    ProductOf(lo, b, n);
    ProductOf(hi, b, n);
    QuotientBetween(v, m, lo, hi);
  }

  lemma {:induction false} ProductOrder(x: int, y: int, z: int)
    requires x <= y && z >= 0
    ensures x * z <= y * z
  {
  }

  lemma {:induction false} QuotientBetween(v: int, m: int, lo: int, hi: int)
    requires m > 0 && lo * m <= v <= hi * m
    ensures lo <= v / m <= hi
  {
    var q := v / m;
    assert v == q * m + v % m;
    NextProduct(q, m);
    NextProduct(hi, m);
    if q < lo {
      ProductOrder(q + 1, lo, m);
    } else if q > hi {
      ProductOrder(hi + 1, q, m);
    }
  }

  lemma {:induction false} NextProduct(x: int, m: int)
    ensures (x + 1) * m == x * m + m
  {
  }

  /** What one buy in range does to the average. */
  lemma {:induction false} BuyInRange(p: Position, d: Deal, lo: int, hi: int)
    requires p.bought > 0 && d.quantity > 0 && 0 <= lo <= p.average <= hi && lo <= d.price <= hi
    requires hi * (p.bought + d.quantity) < TWO64
    ensures lo <= Update(p, true, d.quantity, d.price).average <= hi
    ensures 0 <= Dropped(p, d) < p.bought + d.quantity
  {
    hide NewAverage;
    WeightedBounds(p.average, p.bought, d.price, d.quantity, lo, hi);
    AverageExactIff(p.average, p.bought, d.price, d.quantity);
    RestOfDivision(p.average * p.bought + d.price * d.quantity, p.bought + d.quantity);
  }

  lemma {:induction false} RestOfDivision(v: int, m: int)
    requires m > 0
    ensures 0 <= v - v / m * m < m
  {
    assert v == m * (v / m) + v % m;
  }

  lemma {:induction false} DriftStep(k: int, b: int, m: int, drift: int, dropped: int)
    requires k >= 1 && 1 <= b < m && 0 <= drift <= (k - 1) * (b - 1) && 0 <= dropped < m
    ensures 0 <= drift + dropped <= k * (m - 1)
  {
    assert (k - 1) * (b - 1) <= (k - 1) * (m - 1);
    assert (k - 1) * (m - 1) + (m - 1) == k * (m - 1);
  }

  /**
   After k buys of total quantity B and true cost C, the truncated average lies between the lowest and the
   highest price paid, and understates the cost by at most (k - 1)(B - 1).
   */
  lemma {:induction false} AverageDrift(deals: seq<Deal>, lo: int, hi: int)
    requires InRange(deals, lo, hi)
    ensures Buys(deals) == 0 <==> Volume(deals, true) == 0
    ensures Cost(deals) - After(deals).average * Volume(deals, true) == Rounding(deals)
    ensures Buys(deals) > 0 ==>
              && lo <= After(deals).average <= hi
              && 0 <= Rounding(deals) <= (Buys(deals) - 1) * (Volume(deals, true) - 1)
    ensures Buys(deals) == 0 ==> Rounding(deals) == 0
  {
    if deals != [] {
      var before, d := deals[..|deals| - 1], deals[|deals| - 1];
      RangeBefore(deals, lo, hi);
      AverageDrift(before, lo, hi);
      LastDeal(deals, lo, hi);
      hide *;
      if d.isBuy && d.quantity > 0 {
        DriftBuy(After(before), d, Buys(before), Cost(before), Rounding(before), lo, hi);
      }
    }
  }

  /** What the last deal adds to each running sum. */
  lemma {:induction false} LastDeal(deals: seq<Deal>, lo: int, hi: int)
    requires InRange(deals, lo, hi) && deals != []
    ensures var before, d := deals[..|deals| - 1], deals[|deals| - 1];
            if d.isBuy && d.quantity > 0 then
              && After(before).bought == Volume(before, true)
              && Volume(deals, true) == After(before).bought + d.quantity
              && Cost(deals) == Cost(before) + d.price * d.quantity
              && Buys(deals) == Buys(before) + 1
              && Rounding(deals) == Rounding(before) + Dropped(After(before), d)
              && After(deals).average == Update(After(before), true, d.quantity, d.price).average
              && 0 <= lo <= d.price <= hi && hi * (After(before).bought + d.quantity) < TWO64
            else
              && Volume(deals, true) == Volume(before, true) && Cost(deals) == Cost(before)
              && Buys(deals) == Buys(before) && Rounding(deals) == Rounding(before)
              && After(deals).average == After(before).average
  {
    var before, d := deals[..|deals| - 1], deals[|deals| - 1];
    Counters(before);
    assert d.isBuy ==> lo <= d.price <= hi;
    if d.quantity == 0 {
      assert d.price * d.quantity == 0;
    }
  }

  /** One buy: the average stays between the extremes and the drift stays within its bound. */
  lemma {:induction false} DriftBuy(p: Position, d: Deal, k: nat, cost: int, rounding: int, lo: int, hi: int)
    requires d.quantity > 0 && 0 <= lo <= d.price <= hi && hi * (p.bought + d.quantity) < TWO64
    requires k == 0 <==> p.bought == 0
    requires cost - p.average * p.bought == rounding
    requires k == 0 ==> rounding == 0
    requires k > 0 ==> lo <= p.average <= hi && 0 <= rounding <= (k - 1) * (p.bought - 1)
    ensures var average := Update(p, true, d.quantity, d.price).average;
            && lo <= average <= hi
            && cost + d.price * d.quantity - average * (p.bought + d.quantity) == rounding + Dropped(p, d)
            && 0 <= rounding + Dropped(p, d) <= k * (p.bought + d.quantity - 1)
  {
    DroppedMeans(p, d, cost, rounding);
    if p.bought > 0 {
      BuyInRange(p, d, lo, hi);
      hide Dropped, Update;
      DriftStep(k, p.bought, p.bought + d.quantity, rounding, Dropped(p, d));
    }
  }

  lemma {:induction false} DroppedMeans(p: Position, d: Deal, cost: int, rounding: int)
    requires cost - p.average * p.bought == rounding
    ensures cost + d.price * d.quantity - Update(p, true, d.quantity, d.price).average * (p.bought + d.quantity)
            == rounding + Dropped(p, d)
  {
  }

  lemma {:induction false} RangeBefore(deals: seq<Deal>, lo: int, hi: int)
    requires InRange(deals, lo, hi) && deals != []
    ensures InRange(deals[..|deals| - 1], lo, hi)
  {
  }

  // ----- when 64 bits are enough -----

  /** Prices between 0 and hi, so small against the traded volume that no single amount outgrows 64 bits. */
  ghost predicate Modest(deals: seq<Deal>, hi: int) {
    && 0 <= hi
    && (forall i :: 0 <= i < |deals| ==> 0 <= deals[i].price <= hi)
    && Volume(deals, true) < 0x1_0000_0000
    && hi * (Volume(deals, true) + Volume(deals, false)) < 0x8000_0000_0000_0000
  }

  lemma {:induction false} ModestBefore(deals: seq<Deal>, hi: int)
    requires Modest(deals, hi) && deals != []
    ensures Modest(deals[..|deals| - 1], hi) && 0 <= deals[|deals| - 1].price <= hi
    ensures var d := deals[|deals| - 1];
            d.isBuy ==> hi * (Volume(deals[..|deals| - 1], true) + d.quantity) < TWO64
  {
    var before := deals[..|deals| - 1];
    var all, less := Volume(deals, true) + Volume(deals, false), Volume(before, true) + Volume(before, false);
    ProductGrows(hi, less, all);
    ProductGrows(hi, Volume(deals, true), all);
  }

  lemma {:induction false} ProductGrows(x: int, y: int, z: int)
    requires 0 <= x && y <= z
    ensures x * y <= x * z
  {
  }

  /** The average stays a price, and realized profit is at most the top price times the volume sold. */
  lemma {:induction false} RealizedBound(deals: seq<Deal>, hi: int)
    requires Modest(deals, hi)
    ensures 0 <= After(deals).average <= hi
    ensures -(hi * Volume(deals, false)) <= After(deals).realized <= hi * Volume(deals, false)
  {
    if deals != [] {
      var before, d := deals[..|deals| - 1], deals[|deals| - 1];
      ModestBefore(deals, hi);
      RealizedBound(before, hi);
      Counters(before);
      hide NewAverage, Modest;
      var p := After(before);
      if d.isBuy {
        BoughtFits(before, hi);
        if d.quantity > 0 && p.bought > 0 {
          BuyInRange(p, d, 0, hi);
        } else {
          FirstAverage(p, d);
        }
      } else {
        GainBound(d.price, p.average, d.quantity, hi);
        ProductOf(hi, Volume(before, false), d.quantity);
      }
    }
  }

  lemma {:induction false} FirstAverage(p: Position, d: Deal)
    requires d.quantity == 0 || p.bought == 0
    ensures Update(p, true, d.quantity, d.price).average == if d.quantity == 0 then p.average else d.price
  {
  }

  lemma {:induction false} BoughtFits(deals: seq<Deal>, hi: int)
    requires Modest(deals, hi)
    ensures Wrap32(Volume(deals, true)) == Volume(deals, true)
  {
  }

  lemma {:induction false} GainBound(x: int, y: int, n: int, hi: int)
    requires 0 <= x <= hi && 0 <= y <= hi && 0 <= n
    ensures -(hi * n) <= (x - y) * n <= hi * n
  {
    ProductOrder(x - y, hi, n);
    ProductOrder(-hi, x - y, n);
  }

  function Gap(x: nat, y: nat): nat {
    if x < y then y - x else x - y
  }

  /** With modest prices realized and unrealized profit each fit, at every mark in the range. */
  lemma {:induction false} MoneyFits(deals: seq<Deal>, hi: int, mark: int)
    requires Modest(deals, hi) && 0 <= mark <= hi
    ensures var p, b, s := After(deals), Volume(deals, true), Volume(deals, false);
            && -(hi * s) <= p.realized <= hi * s && Fits64(p.realized)
            && -(hi * Gap(b, s)) <= (mark - p.average) * p.net <= hi * Gap(b, s) && Fits64((mark - p.average) * p.net)
  {
    var p, b, s := After(deals), Volume(deals, true), Volume(deals, false);
    RealizedBound(deals, hi);
    Counters(deals);
    ProductGrows(hi, s, b + s);
    ProductGrows(hi, Gap(b, s), b + s);
    hide After;
    OpenBound(mark, p.average, p.net, hi, Gap(b, s));
  }

  /** Volumes that modest histories with prices up to hi can have. */
  predicate ModestVolumes(hi: int, bought: nat, sold: nat) {
    0 <= hi <= INT64_MAX && bought < 0x1_0000_0000 && hi * (bought + sold) < 0x8000_0000_0000_0000
  }

  /** The sum of both fits at every mark in the range, whatever the order and the prices of these volumes. */
  ghost predicate SumsFit(hi: int, bought: nat, sold: nat) {
    forall deals, mark ::
      Modest(deals, hi) && Volume(deals, true) == bought && Volume(deals, false) == sold && 0 <= mark <= hi ==>
        Fits64(TotalPnl(After(deals), mark))
  }

  /**
   Realized plus unrealized profit fits 64 bits, over all modest histories with these volumes, exactly when twice
   what was sold less what was bought does at the top price; unless more was sold than bought, it always does.
   */
  lemma {:induction false} SumsFitIff(hi: int, bought: nat, sold: nat)
    requires ModestVolumes(hi, bought, sold)
    ensures SumsFit(hi, bought, sold)
            <==> (0 < bought < sold ==> hi * (2 * sold - bought) < 0x8000_0000_0000_0000)
  {
    if 0 < bought < sold && hi * (2 * sold - bought) >= 0x8000_0000_0000_0000 {
      CoveredShort(hi, bought, sold);
    } else {
      forall deals, mark |
        Modest(deals, hi) && Volume(deals, true) == bought && Volume(deals, false) == sold && 0 <= mark <= hi
        ensures Fits64(TotalPnl(After(deals), mark))
      {
        SumFits(deals, hi, mark);
      }
    }
  }

  lemma {:induction false} SumFits(deals: seq<Deal>, hi: int, mark: int)
    requires Modest(deals, hi) && 0 <= mark <= hi
    requires var b, s := Volume(deals, true), Volume(deals, false);
             0 < b < s ==> hi * (2 * s - b) < 0x8000_0000_0000_0000
    ensures Fits64(TotalPnl(After(deals), mark))
  {
    var b, s := Volume(deals, true), Volume(deals, false);
    if b == 0 {
      ShortFits(deals, hi, mark);
    } else {
      MoneyFits(deals, hi, mark);
      hide After, Volume;
      ProductOf(hi, s, Gap(b, s));
      ProductGrows(hi, b, b + s);
    }
  }

  /** Without a buy the average is zero and every sale a gain. */
  lemma {:induction false} OnlySold(deals: seq<Deal>, hi: int)
    requires Modest(deals, hi) && Volume(deals, true) == 0
    ensures After(deals).average == 0 && After(deals).realized >= 0
  {
    if deals != [] {
      var before, d := deals[..|deals| - 1], deals[|deals| - 1];
      ModestBefore(deals, hi);
      OnlySold(before, hi);
      hide Modest, NewAverage;
      ProductOrder(0, d.price, d.quantity);
    }
  }

  lemma {:induction false} ShortFits(deals: seq<Deal>, hi: int, mark: int)
    requires Modest(deals, hi) && 0 <= mark <= hi && Volume(deals, true) == 0
    ensures Fits64(TotalPnl(After(deals), mark))
  {
    var p, s := After(deals), Volume(deals, false);
    OnlySold(deals, hi);
    MoneyFits(deals, hi, mark);
    Counters(deals);
    hide After, Volume, Modest;
    ShortSum(p.realized, mark, s, hi);
  }

  lemma {:induction false} ShortSum(realized: int, mark: int, sold: int, hi: int)
    requires 0 <= realized <= hi * sold < 0x8000_0000_0000_0000 && 0 <= mark <= hi && sold >= 0
    ensures Fits64(realized + (mark - 0) * (0 - sold))
  {
    ProductOrder(0, mark, sold);
    ProductOrder(mark, hi, sold);
    assert (mark - 0) * (0 - sold) == -(mark * sold);
  }

  /** A short sale of everything at the top price, in deals of 32 bits. */
  function Sales(hi: int64, sold: nat): seq<Deal> {
    if sold < 0x1_0000_0000 then [Deal(false, sold, hi)]
    else Sales(hi, sold - 0xFFFF_FFFF) + [Deal(false, 0xFFFF_FFFF, hi)]
  }

  lemma {:induction false} SalesSum(hi: int64, sold: nat)
    ensures var deals := Sales(hi, sold);
            && Volume(deals, true) == 0 && Volume(deals, false) == sold
            && After(deals).net == 0 - sold && After(deals).realized == hi * sold
            && After(deals).average == After(deals).bought == 0
            && forall i :: 0 <= i < |deals| ==> deals[i].price == hi
  {
    var deals := Sales(hi, sold);
    if sold < 0x1_0000_0000 {
      assert deals[..0] == [];
    } else {
      var less := sold - 0xFFFF_FFFF;
      SalesSum(hi, less);
      assert deals[..|deals| - 1] == Sales(hi, less);
      ProductOf(hi, less, 0xFFFF_FFFF);
      SaleAtZero(After(Sales(hi, less)), 0xFFFF_FFFF, hi);
      hide Update, NewAverage;
    }
  }

  lemma {:induction false} SaleAtZero(p: Position, quantity: uint32, price: int64)
    requires p.average == 0 && quantity > 0
    ensures var q := Update(p, false, quantity, price);
            && q.net == p.net - quantity && q.realized == p.realized + price * quantity
            && q.average == p.average && q.bought == p.bought
  {
  }

  lemma {:induction false} CoveredSum(hi: int, bought: int, sold: int)
    ensures hi * sold + (0 - hi) * (bought - sold) == hi * (2 * sold - bought)
  {
  }

  /** Sold short at the top price, partly covered there, and marked at zero. */
  lemma {:induction false} CoveredShort(hi: int, bought: nat, sold: nat)
    requires ModestVolumes(hi, bought, sold) && 0 < bought < sold
    requires hi * (2 * sold - bought) >= 0x8000_0000_0000_0000
    ensures var deals := Sales(hi, sold) + [Deal(true, bought, hi)];
            && Modest(deals, hi) && Volume(deals, true) == bought && Volume(deals, false) == sold
            && !Fits64(TotalPnl(After(deals), 0))
  {
    var d := Deal(true, bought, hi);
    var deals := Sales(hi, sold) + [d];
    SalesSum(hi, sold);
    assert deals[..|deals| - 1] == Sales(hi, sold);
    var p := After(Sales(hi, sold));
    assert After(deals) == Update(p, true, bought, hi) && Update(p, true, bought, hi).average == hi;
    CoveredSum(hi, bought, sold);
    hide After, Sales, Update;
  }

  lemma {:induction false} OpenBound(x: int, y: int, net: int, hi: int, most: int)
    requires 0 <= x <= hi && 0 <= y <= hi && -most <= net <= most
    ensures -(hi * most) <= (x - y) * net <= hi * most
  {
    if net >= 0 {
      GainBound(x, y, net, hi);
      ProductGrows(hi, net, most);
    } else {
      GainBound(y, x, -net, hi);
      ProductGrows(hi, -net, most);
      assert (x - y) * net == (y - x) * -net;
    }
  }
}
