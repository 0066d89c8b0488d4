/** When every trade is of a positive size: a market buy that overspent stops at the next maker. */
module TradeSizes {
  import opened Market
  import opened Decimals
  import opened Book
  import opened PriceTime
  import opened BookInvariant
  import opened AnyRun

  /** An order as the order service places it, for any price if the division keeps at least one place
      more than sizes have, and otherwise for an ask price within the bound of the division. */
  predicate PlainOrder(p: Product, o: Order) {
    o.size >= 0 && o.funds >= 0 && o.price >= 0
    && (p.unit >= 2 || (o.kind.Limit? && o.side.Sell? ==> o.price < 2 * p.unit))
  }

  predicate PlainRun(p: Product, cmds: seq<Command>) {
    UniqueRun(cmds) && forall i :: 0 <= i < |cmds| && cmds[i].Submit? ==> PlainOrder(p, cmds[i].order)
  }

  predicate AllPlain(p: Product, q: seq<Order>) { forall i :: 0 <= i < |q| ==> PlainOrder(p, q[i]) }

  /** What an overspent market buy owes is at most half a division unit at any of these prices. */
  predicate SlightlyOwing(p: Product, funds: int, makers: seq<Order>) {
    forall i :: 0 <= i < |makers| ==> -funds * 2 * p.unit <= makers[i].price
  }

  predicate PlainTaker(p: Product, taker: Order, makers: seq<Order>) {
    if taker.IsMarketBuy() then taker.funds >= 0 || (p.unit >= 2 && SlightlyOwing(p, taker.funds, makers))
    else taker.size >= 0
  }

  /** Half a division unit buys nothing, and sells nothing back. */
  lemma OwingBuysNothing(funds: int, price: int, unit: int)
    requires funds < 0 && price > 0 && unit >= 2 && -funds * 2 * unit <= price
    ensures BuyableSize(funds, price, unit) == 0
  {
    var a := funds * unit;
    assert a < 0 && Abs(a) == -funds * unit by { MulNonNegative(-funds - 1, unit); }
    assert 2 * Abs(a) <= price;
    var q := (2 * Abs(a) + price) / (2 * price);
    AtMostOne(2 * Abs(a) + price, price);
    assert RoundedQuotient(a, price) == -q;
  }

  lemma AtMostOne(n: int, price: int)
    requires price > 0 && 0 <= n <= 2 * price
    ensures 0 <= n / (2 * price) <= 1
  {
    var m := 2 * price;
    var q := n / m;
    assert n == q * m + n % m;
    MulGap(q - 1, m);
    MulGap(q, m);
    assert (q - 1) * m == q * m - m;
  }

  /** A market buy with funds buys the affordable size, or one tick more and then owes little. */
  lemma AfterBuying(p: Product, funds: int, price: int, size: int)
    requires funds >= 0 && price > 0 && size <= BuyableSize(funds, price, p.unit)
    requires p.unit >= 2 || price < 2 * p.unit
    ensures BuyableSize(funds, price, p.unit) >= 0
    ensures funds - size * price >= 0 || (p.unit >= 2 && -(funds - size * price) * 2 * p.unit <= price)
  {
    hide BuyableSize;
    BuyableSizeExact(funds, price, p.unit);
    AffordableSize(funds, price, Min(size, funds / price));
    if size > funds / price {
      if price < 2 * p.unit { BuyableSizeWithin(funds, price, p.unit); }
      OneTickMore(funds, price, p.unit);
    }
  }

  lemma OneTickMore(funds: int, price: int, unit: int)
    requires funds >= 0 && price > 0 && price >= 2 * unit * (price - funds % price)
    ensures -(funds - (funds / price + 1) * price) * 2 * unit <= price
  {
    var n, r := funds / price, funds % price;
    assert funds == n * price + r;
    assert (n + 1) * price == n * price + price;
    var owed := price - r;
    assert -(funds - (n + 1) * price) == owed;
    assert owed * 2 * unit == 2 * unit * owed;
  }

  lemma PricesFromHead(side: Side, makers: seq<Order>)
    requires SortedQueue(side, makers) && side.Sell? && makers != []
    ensures forall i :: 0 <= i < |makers| ==> makers[0].price <= makers[i].price
  {
  }

  /** The taker stays plain through a trade. */
  lemma ChargedPlain(p: Product, taker: Order, makers: seq<Order>)
    requires makers != [] && QueueInv(taker.side.Opposite(), makers) && AllPlain(p, makers)
             && PlainTaker(p, taker, makers)
    requires taker.IsMarketBuy() ==> taker.funds != 0 && makers[0].price != 0
    requires Wants(p, taker, makers[0]) != 0
    ensures var size := Min(Wants(p, taker, makers[0]), makers[0].size);
            size > 0 && PlainTaker(p, Charge(taker, makers[0].price, size), makers[1..])
  {
    hide BuyableSize;
    var m := makers[0];
    if taker.IsMarketBuy() {
      assert PlainOrder(p, m);
      PricesFromHead(Sell, makers);
      if taker.funds < 0 {
        OwingBuysNothing(taker.funds, m.price, p.unit);
        assert false;
      }
      AfterBuying(p, taker.funds, m.price, Min(Wants(p, taker, m), m.size));
    }
  }

  predicate PositiveTrades(logs: seq<Log>) {
    forall k :: 0 <= k < |logs| && logs[k].MatchLog? ==> logs[k].size > 0 && logs[k].price >= 0
  }

  lemma {:induction false} SweepPositive(p: Product, taker: Order, makers: seq<Order>, l: nat, t: nat)
    requires QueueInv(taker.side.Opposite(), makers) && AllPlain(p, makers) && PlainTaker(p, taker, makers)
    ensures var r := Sweep(p, taker, makers, l, t); r.Swept? ==> PositiveTrades(r.logs)
    decreases makers
  {
    hide Wants, QueueInv, PlainTaker;
    var r := Sweep(p, taker, makers, l, t);
    if r.Swept? && r.logs != [] {
      var size := Min(Wants(p, taker, makers[0]), makers[0].size);
      var charged, l' := Charge(taker, makers[0].price, size), l + if size == makers[0].size then 2 else 1;
      SweepStep(p, taker, makers, l, t, size);
      ChargedPlain(p, taker, makers);
      TailInv(taker.side.Opposite(), makers);
      assert AllPlain(p, makers[1..]);
      SweepPositive(p, charged, makers[1..], l', t + 1);
      assert PositiveTrades(TradeLogs(taker.id, makers[0], size, l, t)) by { assert PlainOrder(p, makers[0]); }
    }
  }

  /** Resting orders are as plain as they were placed. */
  lemma HeldPlain(p: Product, cmds: seq<Command>, logs: seq<Log>, side: Side, q: seq<Order>)
    requires PlainRun(p, cmds) && AllHeld(cmds, logs, q) && QueueInv(side, q)
    ensures AllPlain(p, q)
  {
    hide Alive, MatchedSize;
    forall i | 0 <= i < |q| ensures PlainOrder(p, q[i]) {
      assert Held(cmds, logs, q[i]);
      var o :| Sent(cmds, o) && q[i] == o.(size := Unmatched(o, logs));
      var j :| 0 <= j < |cmds| && cmds[j] == Submit(o);
    }
  }

  lemma ExecutePositive(p: Product, cmds: seq<Command>, b: Book, logs: seq<Log>, c: Command)
    requires PlainRun(p, cmds) && Inv(b) && Account(cmds, b, logs) && Execute(p, b, c).Next?
    requires c.Submit? ==> PlainOrder(p, c.order)
    ensures PositiveTrades(Execute(p, b, c).logs)
  {
    hide Sweep, PlainRun, Account, Inv, AllHeld, QueueInv;
    var o := c.order;
    InvParts(b);
    if c.Submit? && b.window.Accepts(o.id) {
      var side := o.side.Opposite();
      InvQueue(b, side);
      HeldQueue(cmds, b, logs, side);
      HeldPlain(p, cmds, logs, side, b.Queue(side));
      SweepPositive(p, Priced(p, o), b.Queue(side), b.logSeq, b.tradeSeq);
    }
  }

  lemma HeldQueue(cmds: seq<Command>, b: Book, logs: seq<Log>, side: Side)
    requires Account(cmds, b, logs)
    ensures AllHeld(cmds, logs, b.Queue(side))
  {
  }

  /** Every trade of such a run is of a positive size at a price of at least zero, even after a market
      buy overspent. */
  lemma {:induction false} RunPositive(p: Product, cmds: seq<Command>, n: nat)
    requires PlainRun(p, cmds) && n <= |cmds| && Run(p, cmds[..n]).Next?
    ensures PositiveTrades(Run(p, cmds[..n]).logs)
  {
    hide Run, Replay, Execute, Inv, Account, UniqueRun, PlainOrder;
    if n == 0 {
      RunNothing(p, cmds[..n]);
    } else {
      RunLast(p, cmds, n - 1);
      RunPositive(p, cmds, n - 1);
      NextAdmissible(p, cmds, n - 1);
      RunAccount(p, cmds, n - 1);
      var before := Run(p, cmds[..n - 1]);
      UniquePrefix(cmds, n - 1);
      ExecutePositive(p, cmds[..n - 1], before.book, before.logs, cmds[n - 1]);
    }
  }

  /** With nothing between the places of sizes and those of the division, an overspent market buy sells
      a tick back: two asks priced at two ticks meet funds of one. */
  lemma SoldBack(p: Product, taker: Order, m1: Order, m2: Order, l: nat, t: nat)
    requires p.unit == 1 && taker.IsMarketBuy() && taker.funds == 1 && taker.price >= 2
    requires m1.price == m2.price == 2 && m1.size == 1 && m2.size >= 1
    ensures var r := Sweep(p, taker, [m1, m2], l, t);
            r.Swept? && |r.logs| >= 3 && r.logs[2].MatchLog? && r.logs[2].size == -1
  {
    assert BuyableSize(1, 2, 1) == 1 && BuyableSize(-1, 2, 1) == -1;
    var charged := Charge(taker, 2, 1);
    assert [m1, m2][1..] == [m2] && [m2][1..] == [];
    SweepStep(p, taker, [m1, m2], l, t, 1);
    SweepStep(p, charged, [m2], l + 2, t + 1, -1);
  }
}
