/**
 What trading at the taker's limit costs. The engine books each maker at its own price and the taker at its
 limit, so the difference leaves the books of a symbol that is on both sides of every trade.
 */
module Concessions {
  import opened Orders
  import opened FlatBook
  import opened FlatRuns
  import opened Positions

  /** What some fills are worth at given prices. */
  function Worth(fills: seq<Fill>, prices: seq<int64>): int
    requires |prices| == |fills|
  {
    if fills == [] then 0
    else
      var n := |fills| - 1;
      Worth(fills[..n], prices[..n]) + prices[n] * fills[n].quantity
  }

  function Distance(x: int, y: int): nat {
    if x < y then y - x else x - y
  }

  /** How far the limit lies beyond the makers' prices, over the quantities filled against a prefix of the list. */
  function Conceded(limit: int64, list: seq<Resting>, fills: seq<Fill>): nat {
    if fills == [] || |fills| > |list| then 0
    else
      var n := |fills| - 1;
      Conceded(limit, list, fills[..n]) + Distance(limit, list[n].price) * fills[n].quantity
  }

  lemma {:induction false} ConcededIs(
      takerBuys: bool, limit: int64, list: seq<Resting>, fills: seq<Fill>, prices: seq<int64>)
    requires |prices| == |fills| <= |list|
    requires forall i :: 0 <= i < |fills| ==> prices[i] == list[i].price && Crosses(takerBuys, limit, list[i].price)
    ensures Conceded(limit, list, fills)
            == if takerBuys then limit * Traded(fills) - Worth(fills, prices)
               else Worth(fills, prices) - limit * Traded(fills)
  {
    if fills != [] {
      var n := |fills| - 1;
      ConcededIs(takerBuys, limit, list, fills[..n], prices[..n]);
      assert fills == fills[..n] + [fills[n]];
      TradedConcat(fills[..n], [fills[n]]);
      assert [fills[n]][1..] == [];
      hide Worth, Traded, Conceded;
      ConcededStep(limit, prices[n], fills[n].quantity, Traded(fills[..n]));
    } else {
      assert limit * 0 == 0;
    }
  }

  lemma {:induction false} ConcededStep(limit: int, price: int, quantity: int, traded: int)
    ensures limit * (traded + quantity) == limit * traded + limit * quantity
    ensures (limit - price) * quantity == limit * quantity - price * quantity
    ensures (price - limit) * quantity == price * quantity - limit * quantity
  {
  }

  /** The makers filled are all priced at the limit. */
  ghost predicate AllAt(limit: int64, list: seq<Resting>, fills: seq<Fill>) {
    forall i :: 0 <= i < |fills| && i < |list| ==> list[i].price == limit
  }

  /** Nothing is conceded exactly when every fill is at its maker's price. */
  lemma {:induction false} ConcededZeroIff(limit: int64, list: seq<Resting>, fills: seq<Fill>)
    requires |fills| <= |list| && forall i :: 0 <= i < |fills| ==> fills[i].quantity > 0
    ensures Conceded(limit, list, fills) == 0 <==> AllAt(limit, list, fills)
  {
    if fills != [] {
      var n := |fills| - 1;
      ConcededZeroIff(limit, list, fills[..n]);
      PositiveProduct(Distance(limit, list[n].price), fills[n].quantity);
    }
  }

  lemma {:induction false} PositiveProduct(x: nat, y: nat)
    requires y > 0
    ensures x * y >= 0 && (x * y == 0 <==> x == 0)
  {
    if x > 0 {
      assert x * y >= 1 * y;
    }
  }

  /** All that the submissions of a history conceded. */
  function TotalConceded(ops: seq<Op>): nat {
    if ops == [] then 0
    else
      var f, op := Run(ops[..|ops| - 1]), ops[|ops| - 1];
      TotalConceded(ops[..|ops| - 1]) + match op
        case Submit(order, price, want) =>
          Conceded(price, f.Side(!order.isBuy), Submitted(f, order, price, want).fills)
        case Cancel(_) => 0
  }

  lemma {:induction false} TotalConcededStep(ops: seq<Op>, op: Op)
    ensures op.Cancel? ==> TotalConceded(ops + [op]) == TotalConceded(ops)
    ensures op.Submit? ==>
              TotalConceded(ops + [op]) == TotalConceded(ops)
              + Conceded(op.price, Run(ops).Side(!op.order.isBuy),
                         Submitted(Run(ops), op.order, op.price, op.want).fills)
  {
    assert (ops + [op])[..|ops|] == ops;
  }

  /** Every fill of the history was at its maker's own price. */
  ghost predicate AtMakersPrices(ops: seq<Op>) {
    forall k :: 0 <= k < |ops| && ops[k].Submit? ==> AtMakersPrice(Run(ops[..k]), ops[k])
  }

  ghost predicate AtMakersPrice(f: FlatState, op: Op)
    requires op.Submit?
  {
    AllAt(op.price, f.Side(!op.order.isBuy), Submitted(f, op.order, op.price, op.want).fills)
  }

  lemma {:induction false} SubmitConcedesIff(f: FlatState, op: Op)
    requires op.Submit? && Sound(f)
    ensures Conceded(op.price, f.Side(!op.order.isBuy), Submitted(f, op.order, op.price, op.want).fills) == 0
            <==> AtMakersPrice(f, op)
  {
    var list := f.Side(!op.order.isBuy);
    GreedyPrefix(op.order.isBuy, op.price, list, op.want);
    var fills := Submitted(f, op.order, op.price, op.want).fills;
    hide Greedy, Conceded, Submitted;
    ConcededZeroIff(op.price, list, fills);
  }

  lemma {:induction false} AtMakersPricesNext(ops: seq<Op>)
    requires ops != []
    ensures var n := |ops| - 1;
            AtMakersPrices(ops) <==>
            AtMakersPrices(ops[..n]) && (ops[n].Submit? ==> AtMakersPrice(Run(ops[..n]), ops[n]))
  {
    hide AtMakersPrice, Run;
    var n := |ops| - 1;
    assert forall k :: 0 <= k < n ==> ops[..n][..k] == ops[..k] && ops[..n][k] == ops[k];
  }

  /** A history concedes nothing exactly when every fill in it was at its maker's own price. */
  lemma {:induction false} NothingConcededIff(ops: seq<Op>)
    ensures TotalConceded(ops) == 0 <==> AtMakersPrices(ops)
  {
    if ops != [] {
      var n := |ops| - 1;
      NothingConcededIff(ops[..n]);
      AtMakersPricesNext(ops);
      RunSound(ops[..n]);
      hide AtMakersPrices, AtMakersPrice, Conceded, Submitted, Run, Sound;
      if ops[n].Submit? {
        SubmitConcedesIff(Run(ops[..n]), ops[n]);
      }
    }
  }

  // ----- the books of one symbol -----

  function CashIn(deals: map<string, seq<Deal>>, symbol: string): int {
    Cash(if symbol in deals then deals[symbol] else [])
  }

  function Received(isBuy: bool, amount: int): int {
    if isBuy then -amount else amount
  }

  lemma {:induction false} CashBooked(deals: map<string, seq<Deal>>, o: Order, quantity: uint32, price: int64)
    ensures CashIn(Booked(deals, o, quantity, price), Trim(o.symbol))
            == CashIn(deals, Trim(o.symbol)) + Received(o.isBuy, price * quantity)
  {
    var was, d := if Trim(o.symbol) in deals then deals[Trim(o.symbol)] else [], Deal(o.isBuy, quantity, price);
    assert (was + [d])[..|was|] == was;
  }

  /** The books after a deal for each maker at its price. */
  function DealsAt(deals: map<string, seq<Deal>>, fills: seq<Fill>, prices: seq<int64>): map<string, seq<Deal>>
    requires |prices| == |fills|
  {
    if fills == [] then deals
    else
      var n := |fills| - 1;
      Booked(DealsAt(deals, fills[..n], prices[..n]), fills[n].order, fills[n].quantity, prices[n])
  }

  lemma {:induction false} DealsNext(deals: map<string, seq<Deal>>, fills: seq<Fill>, prices: seq<int64>, i: nat)
    requires |prices| == |fills| && i < |fills|
    ensures DealsAt(deals, fills[..i + 1], prices[..i + 1])
            == Booked(DealsAt(deals, fills[..i], prices[..i]), fills[i].order, fills[i].quantity, prices[i])
  {
    assert fills[..i + 1][..i] == fills[..i] && prices[..i + 1][..i] == prices[..i];
  }

  /** Fill after fill, in order: what some fills make of the books, more fills make more of. */
  lemma {:induction false} DealsCompose(
      deals: map<string, seq<Deal>>, a: seq<Fill>, b: seq<Fill>, p: seq<int64>, q: seq<int64>)
    requires |p| == |a| && |q| == |b|
    ensures DealsAt(deals, a + b, p + q) == DealsAt(DealsAt(deals, a, p), b, q)
    ensures |a| == 1 ==> DealsAt(deals, a, p) == Booked(deals, a[0].order, a[0].quantity, p[0])
    decreases |b|
  {
    hide Booked;
    assert |a| == 1 ==> a[..0] == [] && p[..0] == [];
    if b == [] {
      assert a + b == a && p + q == p;
    } else {
      var n := |b| - 1;
      DealsCompose(deals, a, b[..n], p, q[..n]);
      assert (a + b)[..|a| + n] == a + b[..n] && (p + q)[..|a| + n] == p + q[..n];
    }
  }

  lemma {:induction false} CashOfMakers(
      deals: map<string, seq<Deal>>, fills: seq<Fill>, prices: seq<int64>, isBuy: bool, symbol: string)
    requires |prices| == |fills|
    requires forall i :: 0 <= i < |fills| ==> fills[i].order.isBuy == isBuy && Trim(fills[i].order.symbol) == symbol
    ensures CashIn(DealsAt(deals, fills, prices), symbol)
            == CashIn(deals, symbol) + Received(isBuy, Worth(fills, prices))
  {
    if fills != [] {
      var n := |fills| - 1;
      CashOfMakers(deals, fills[..n], prices[..n], isBuy, symbol);
      CashBooked(DealsAt(deals, fills[..n], prices[..n]), fills[n].order, fills[n].quantity, prices[n]);
      hide CashIn, Booked;
    }
  }

  /** When maker and taker trade one symbol, the books lose exactly what the taker conceded. */
  lemma {:induction false} CashOfMatch(
      deals: map<string, seq<Deal>>, list: seq<Resting>, fills: seq<Fill>, prices: seq<int64>,
      taker: Order, filled: uint32, limit: int64)
    requires |prices| == |fills| <= |list| && filled == Traded(fills)
    requires forall i :: 0 <= i < |fills| ==> prices[i] == list[i].price && Crosses(taker.isBuy, limit, list[i].price)
    requires forall i :: 0 <= i < |fills| ==>
               fills[i].order.isBuy != taker.isBuy && Trim(fills[i].order.symbol) == Trim(taker.symbol)
    ensures CashIn(Booked(DealsAt(deals, fills, prices), taker, filled, limit), Trim(taker.symbol))
            == CashIn(deals, Trim(taker.symbol)) - Conceded(limit, list, fills)
  {
    hide CashIn, Booked, DealsAt, Worth, Conceded, Traded, Trim, Crosses;
    CashOfMakers(deals, fills, prices, !taker.isBuy, Trim(taker.symbol));
    CashBooked(DealsAt(deals, fills, prices), taker, filled, limit);
    ConcededIs(taker.isBuy, limit, list, fills, prices);
  }
}
