/** Price-time priority: what one taker does to the opposite queue, stated without the loop. */
module PriceTime {
  import opened Market
  import opened Decimals
  import opened Book

  /** Makers a market buy can be priced against without overspending. */
  predicate Payable(p: Product, makers: seq<Order>) {
    forall i :: 0 <= i < |makers| ==> 0 < makers[i].price < 2 * p.unit
  }

  predicate Positive(makers: seq<Order>) {
    forall i :: 0 <= i < |makers| ==> makers[i].size > 0
  }

  predicate GoodTaker(p: Product, taker: Order, makers: seq<Order>) {
    taker.size >= 0 && taker.funds >= 0 && (taker.IsMarketBuy() ==> Payable(p, makers))
  }

  function SizeOf(makers: seq<Order>): int {
    if makers == [] then 0 else makers[0].size + SizeOf(makers[1..])
  }

  function CostOf(makers: seq<Order>): int {
    if makers == [] then 0 else makers[0].size * makers[0].price + CostOf(makers[1..])
  }

  /** The logs of makers bought out one after the other. */
  function FullFills(takerId: int, makers: seq<Order>, logSeq: nat, tradeSeq: nat): (logs: seq<Log>)
    ensures |logs| == 2 * |makers|
  {
    if makers == [] then []
    else
      TradeLogs(takerId, makers[0], makers[0].size, logSeq, tradeSeq)
      + FullFills(takerId, makers[1..], logSeq + 2, tradeSeq + 1)
  }

  /** What a sweep amounts to: the first `full` makers are bought out and `part` is taken from the next. */
  datatype Fills = Fills(full: nat, part: int) {
    predicate Fits(makers: seq<Order>) {
      full <= |makers| && 0 <= part && (part > 0 ==> full < |makers| && part < makers[full].size)
    }

    function Touched(): nat { if part > 0 then full + 1 else full }

    function Size(makers: seq<Order>): int
      requires Fits(makers)
    {
      SizeOf(makers[..full]) + part
    }

    function Cost(makers: seq<Order>): int
      requires Fits(makers)
    {
      CostOf(makers[..full]) + if part > 0 then part * makers[full].price else 0
    }

    function Remaining(makers: seq<Order>): seq<Order>
      requires Fits(makers)
    {
      if part > 0 then [makers[full].(size := makers[full].size - part)] + makers[full + 1..] else makers[full..]
    }

    function Logs(takerId: int, makers: seq<Order>, logSeq: nat, tradeSeq: nat): seq<Log>
      requires Fits(makers)
    {
      FullFills(takerId, makers[..full], logSeq, tradeSeq)
      + if part > 0 then TradeLogs(takerId, makers[full], part, logSeq + 2 * full, tradeSeq + full) else []
    }

    function TakerAfter(taker: Order, makers: seq<Order>): Order
      requires Fits(makers)
    {
      if taker.IsMarketBuy() then taker.(funds := taker.funds - Cost(makers))
      else taker.(size := taker.size - Size(makers))
    }

    function Result(taker: Order, makers: seq<Order>, logSeq: nat, tradeSeq: nat): SweepResult
      requires Fits(makers)
    {
      Swept(TakerAfter(taker, makers), Remaining(makers), Logs(taker.id, makers, logSeq, tradeSeq))
    }
  }

  /** A taker stops only when nothing crossing is left or it can pay for no further tick. */
  predicate Stops(taker: Order, makers: seq<Order>) {
    makers == [] || !Crosses(taker, makers[0])
    || (if taker.IsMarketBuy() then taker.funds < makers[0].price else taker.size == 0)
  }

  /** Price-time priority for one taker: the makers hit are a prefix of the queue, all but the
      last are bought out, all lie within the limit, nothing is overspent, and the taker does not
      stop early. */
  predicate PriceTimeFills(taker: Order, makers: seq<Order>, f: Fills) {
    && f.Fits(makers)
    && (forall i :: 0 <= i < f.Touched() ==> Crosses(taker, makers[i]))
    && (var t := f.TakerAfter(taker, makers); t.size >= 0 && t.funds >= 0 && Stops(t, f.Remaining(makers)))
  }

  lemma FillsAfterFull(taker: Order, makers: seq<Order>, g: Fills, l: nat, t: nat)
    requires makers != [] && g.Fits(makers[1..])
    ensures var f := Fills(g.full + 1, g.part);
            && f.Fits(makers)
            && f.Size(makers) == makers[0].size + g.Size(makers[1..])
            && f.Cost(makers) == makers[0].size * makers[0].price + g.Cost(makers[1..])
            && f.Remaining(makers) == g.Remaining(makers[1..])
            && f.Logs(taker.id, makers, l, t)
               == TradeLogs(taker.id, makers[0], makers[0].size, l, t) + g.Logs(taker.id, makers[1..], l + 2, t + 1)
  {
    hide SizeOf, CostOf, FullFills, TradeLogs;
    PrefixSums(taker.id, makers, g.full, l, t);
    assert g.part > 0 ==> makers[g.full + 2..] == makers[1..][g.full + 1..];
    assert g.part == 0 ==> makers[g.full + 1..] == makers[1..][g.full..];
  }

  lemma PrefixSums(takerId: int, makers: seq<Order>, n: nat, l: nat, t: nat)
    requires n < |makers|
    ensures SizeOf(makers[..n + 1]) == makers[0].size + SizeOf(makers[1..][..n])
    ensures CostOf(makers[..n + 1]) == makers[0].size * makers[0].price + CostOf(makers[1..][..n])
    ensures FullFills(takerId, makers[..n + 1], l, t)
            == TradeLogs(takerId, makers[0], makers[0].size, l, t) + FullFills(takerId, makers[1..][..n], l + 2, t + 1)
  {
    assert makers[..n + 1][1..] == makers[1..][..n] && makers[..n + 1][0] == makers[0];
  }

  /** What a taker wants of a maker it can be priced against. */
  lemma WantsIs(p: Product, taker: Order, maker: Order)
    requires taker.size >= 0 && taker.funds >= 0
    requires taker.IsMarketBuy() ==> 0 < maker.price < 2 * p.unit
    ensures Wants(p, taker, maker) == if taker.IsMarketBuy() then taker.funds / maker.price else taker.size
  {
    if taker.IsMarketBuy() { BuyableSizeWithin(taker.funds, maker.price, p.unit); }
  }

  /** The matching loop keeps price-time priority, and its result and logs are those of its fills. */
  lemma {:induction false} SweepIsPriceTime(p: Product, taker: Order, makers: seq<Order>, logSeq: nat, tradeSeq: nat)
    returns (f: Fills)
    requires GoodTaker(p, taker, makers) && Positive(makers) && SortedQueue(taker.side.Opposite(), makers)
    ensures PriceTimeFills(taker, makers, f)
    ensures Sweep(p, taker, makers, logSeq, tradeSeq) == f.Result(taker, makers, logSeq, tradeSeq)
    decreases makers, 1
  {
    if SweepEnds(p, taker, makers) {
      f := Fills(0, 0);
      SweepEnded(p, taker, makers, logSeq, tradeSeq);
    } else {
      f := SweepTrades(p, taker, makers, logSeq, tradeSeq);
    }
  }

  lemma SweepEnded(p: Product, taker: Order, makers: seq<Order>, logSeq: nat, tradeSeq: nat)
    requires GoodTaker(p, taker, makers) && SweepEnds(p, taker, makers)
    ensures PriceTimeFills(taker, makers, Fills(0, 0))
    ensures Sweep(p, taker, makers, logSeq, tradeSeq) == Fills(0, 0).Result(taker, makers, logSeq, tradeSeq)
  {
    hide PriceTimeFills, Fills.Result;
    NothingTraded(taker, makers, logSeq, tradeSeq);
    WhereSweepEnds(p, taker, makers);
    NothingTradedIsFair(taker, makers);
  }

  lemma WhereSweepEnds(p: Product, taker: Order, makers: seq<Order>)
    requires GoodTaker(p, taker, makers) && SweepEnds(p, taker, makers)
    ensures Stops(taker, makers)
  {
    hide Wants;
    if makers != [] && Crosses(taker, makers[0]) && Wants(p, taker, makers[0]) == 0 {
      WantsNothing(p, taker, makers[0]);
    }
  }

  lemma NothingTradedIsFair(taker: Order, makers: seq<Order>)
    requires taker.size >= 0 && taker.funds >= 0 && Stops(taker, makers)
    ensures PriceTimeFills(taker, makers, Fills(0, 0))
  {
    hide Stops, SizeOf, CostOf, Crosses;
    NothingTraded(taker, makers, 0, 0);
  }

  lemma WantsNothing(p: Product, taker: Order, maker: Order)
    requires taker.size >= 0 && taker.funds >= 0
    requires taker.IsMarketBuy() ==> 0 < maker.price < 2 * p.unit
    requires Wants(p, taker, maker) == 0
    ensures if taker.IsMarketBuy() then taker.funds < maker.price else taker.size == 0
  {
    hide Wants;
    WantsIs(p, taker, maker);
    if taker.IsMarketBuy() { AffordableSize(taker.funds, maker.price, 0); }
  }

  /** The conditions that end the loop. */
  predicate SweepEnds(p: Product, taker: Order, makers: seq<Order>)
    requires taker.IsMarketBuy() ==> Payable(p, makers)
  {
    makers == [] || !Crosses(taker, makers[0]) || (taker.IsMarketBuy() && taker.funds == 0)
    || Wants(p, taker, makers[0]) == 0
  }

  lemma {:induction false} SweepTrades(p: Product, taker: Order, makers: seq<Order>, logSeq: nat, tradeSeq: nat)
    returns (f: Fills)
    requires GoodTaker(p, taker, makers) && Positive(makers) && SortedQueue(taker.side.Opposite(), makers)
    requires !SweepEnds(p, taker, makers)
    ensures PriceTimeFills(taker, makers, f)
    ensures Sweep(p, taker, makers, logSeq, tradeSeq) == f.Result(taker, makers, logSeq, tradeSeq)
    decreases makers, 0
  {
    hide Sweep, Wants;
    WantsIs(p, taker, makers[0]);
    var size := Min(Wants(p, taker, makers[0]), makers[0].size);
    var rest := Charge(taker, makers[0].price, size);
    ChargeBounds(taker, makers[0], Wants(p, taker, makers[0]), size);
    SweepStep(p, taker, makers, logSeq, tradeSeq, size);
    if size == makers[0].size {
      var g := SweepIsPriceTime(p, rest, makers[1..], logSeq + 2, tradeSeq + 1);
      f := Fills(g.full + 1, g.part);
      AfterFullMaker(taker, makers, rest, g, logSeq, tradeSeq);
    } else {
      var g := SweepIsPriceTime(p, rest, makers[1..], logSeq + 1, tradeSeq + 1);
      f := Fills(0, size);
      NothingAfterPart(taker, rest, makers, g, size, logSeq, tradeSeq);
    }
  }

  lemma SweepStep(p: Product, taker: Order, makers: seq<Order>, logSeq: nat, tradeSeq: nat, size: int)
    requires makers != [] && Crosses(taker, makers[0])
    requires taker.IsMarketBuy() ==> taker.funds != 0 && makers[0].price != 0
    requires Wants(p, taker, makers[0]) != 0 && size == Min(Wants(p, taker, makers[0]), makers[0].size)
    ensures Sweep(p, taker, makers, logSeq, tradeSeq)
            == Prepend(Left(makers[0], size), TradeLogs(taker.id, makers[0], size, logSeq, tradeSeq),
                       Sweep(p, Charge(taker, makers[0].price, size), makers[1..],
                             logSeq + if size == makers[0].size then 2 else 1, tradeSeq + 1))
  {
  }

  lemma NothingTraded(taker: Order, makers: seq<Order>, l: nat, t: nat)
    ensures Fills(0, 0).Fits(makers) && Fills(0, 0).Result(taker, makers, l, t) == Swept(taker, makers, [])
  {
    assert makers[..0] == [] && SizeOf([]) == 0 && CostOf([]) == 0;
  }

  lemma {:induction false} AfterFullMaker(taker: Order, makers: seq<Order>, rest: Order, g: Fills, l: nat, t: nat)
    requires makers != [] && Crosses(taker, makers[0]) && rest == Charge(taker, makers[0].price, makers[0].size)
    requires PriceTimeFills(rest, makers[1..], g)
    ensures PriceTimeFills(taker, makers, Fills(g.full + 1, g.part))
    ensures Fills(g.full + 1, g.part).Result(taker, makers, l, t)
            == Prepend([], TradeLogs(taker.id, makers[0], makers[0].size, l, t),
                       g.Result(rest, makers[1..], l + 2, t + 1))
  {
    hide SizeOf, CostOf, FullFills, TradeLogs, Stops, Fills.Size, Fills.Cost, Fills.Remaining, Fills.Logs;
    var f := Fills(g.full + 1, g.part);
    FillsAfterFull(taker, makers, g, l, t);
    forall i | 0 <= i < f.Touched() ensures Crosses(taker, makers[i]) {
      if i > 0 {
        assert makers[i] == makers[1..][i - 1];
        assert Crosses(rest, makers[1..][i - 1]);
      }
    }
  }

  /** A trade of the wanted size, or of the maker's if that is less, is paid for; and a trade that
      leaves some of the maker leaves the taker unable to buy more at that price. */
  lemma ChargeBounds(taker: Order, maker: Order, wants: int, size: int)
    requires taker.size >= 0 && taker.funds >= 0 && maker.size > 0
    requires taker.IsMarketBuy() ==> maker.price > 0
    requires wants == if taker.IsMarketBuy() then taker.funds / maker.price else taker.size
    requires wants != 0 && size == Min(wants, maker.size)
    ensures size > 0
    ensures var t := Charge(taker, maker.price, size); t.size >= 0 && t.funds >= 0
    ensures var t := Charge(taker, maker.price, size);
            size < maker.size ==> if taker.IsMarketBuy() then t.funds < maker.price else t.size == 0
  {
    if taker.IsMarketBuy() { AffordableSize(taker.funds, maker.price, size); }
  }

  /** After a partial fill the loop finds nothing more to trade. */
  lemma {:induction false} NothingAfterPart(taker: Order, rest: Order, makers: seq<Order>, g: Fills, size: int, l: nat,
                                            t: nat)
    requires makers != [] && Positive(makers) && SortedQueue(taker.side.Opposite(), makers)
    requires rest == Charge(taker, makers[0].price, size) && 0 < size < makers[0].size
    requires if taker.IsMarketBuy() then rest.funds < makers[0].price else rest.size == 0
    requires taker.IsMarketBuy() ==> makers[0].price > 0
    requires PriceTimeFills(rest, makers[1..], g)
    requires Crosses(taker, makers[0]) && rest.size >= 0 && rest.funds >= 0
    ensures PriceTimeFills(taker, makers, Fills(0, size))
    ensures Fills(0, size).Result(taker, makers, l, t)
            == Prepend(Left(makers[0], size), TradeLogs(taker.id, makers[0], size, l, t),
                       g.Result(rest, makers[1..], l + 1, t + 1))
  {
    hide PriceTimeFills, Fills.Result, Prepend;
    NothingMoreTouched(taker, rest, makers, g);
    NothingTraded(rest, makers[1..], l + 1, t + 1);
    PartResult(taker, rest, makers, size, l, t);
    OnlyPart(taker, rest, makers, size);
  }

  lemma PartResult(taker: Order, rest: Order, makers: seq<Order>, size: int, l: nat, t: nat)
    requires makers != [] && rest == Charge(taker, makers[0].price, size) && 0 < size < makers[0].size
    ensures Fills(0, size).TakerAfter(taker, makers) == rest
    ensures Fills(0, size).Result(taker, makers, l, t)
            == Prepend(Left(makers[0], size), TradeLogs(taker.id, makers[0], size, l, t), Swept(rest, makers[1..], []))
  {
    hide SizeOf, CostOf, FullFills;
    NoneFull(taker.id, makers, l, t);
  }

  lemma OnlyPart(taker: Order, rest: Order, makers: seq<Order>, size: int)
    requires makers != [] && 0 < size < makers[0].size && rest.size >= 0 && rest.funds >= 0
    requires rest == Charge(taker, makers[0].price, size) && Fills(0, size).TakerAfter(taker, makers) == rest
    requires if taker.IsMarketBuy() then rest.funds < makers[0].price else rest.size == 0
    requires Crosses(taker, makers[0])
    ensures PriceTimeFills(taker, makers, Fills(0, size))
  {
    hide SizeOf, CostOf, FullFills, Crosses, Fills.TakerAfter;
  }

  lemma NoneFull(takerId: int, makers: seq<Order>, l: nat, t: nat)
    ensures SizeOf(makers[..0]) == 0 && CostOf(makers[..0]) == 0 && FullFills(takerId, makers[..0], l, t) == []
  {
  }

  lemma {:induction false} NothingMoreTouched(taker: Order, rest: Order, makers: seq<Order>, g: Fills)
    requires makers != [] && Positive(makers) && SortedQueue(taker.side.Opposite(), makers)
    requires rest.kind == taker.kind && rest.side == taker.side
    requires if taker.IsMarketBuy() then rest.funds < makers[0].price else rest.size == 0
    requires taker.IsMarketBuy() ==> makers[0].price > 0
    requires PriceTimeFills(rest, makers[1..], g)
    ensures g == Fills(0, 0)
  {
    if g.Touched() > 0 {
      var tail := makers[1..];
      assert tail[0] == makers[1];
      assert forall i :: 0 <= i < |tail| ==> tail[i] == makers[i + 1];
      if taker.IsMarketBuy() {
        PricesRise(taker.side.Opposite(), makers);
      }
      FillsCostSomething(tail, g);
      assert false;
    }
  }

  lemma PricesRise(side: Side, makers: seq<Order>)
    requires SortedQueue(side, makers) && side.Sell? && makers != []
    ensures forall i :: 0 <= i < |makers| ==> makers[0].price <= makers[i].price
  {
    forall i | 0 <= i < |makers| ensures makers[0].price <= makers[i].price {
      assert i > 0 ==> Before(side, makers[0].price, makers[0].id, makers[i].price, makers[i].id);
    }
  }

  lemma {:induction false} FillsCostSomething(makers: seq<Order>, f: Fills)
    requires f.Fits(makers) && f.Touched() > 0 && Positive(makers)
    ensures f.Size(makers) > 0
    ensures (forall i :: 0 <= i < |makers| ==> makers[i].price >= 0) ==> f.Cost(makers) >= makers[0].price
  {
    SizeOfPositive(makers[..f.full]);
    if forall i :: 0 <= i < |makers| ==> makers[i].price >= 0 {
      assert forall i :: 0 <= i < f.full ==> makers[..f.full][i].price >= 0;
      CostOfAtLeast(makers[..f.full]);
      if f.part > 0 {
        MulAtLeast(f.part, makers[f.full].price);
      }
    }
  }

  lemma {:induction false} SizeOfPositive(makers: seq<Order>)
    requires Positive(makers)
    ensures SizeOf(makers) >= |makers|
  {
    if makers != [] { SizeOfPositive(makers[1..]); }
  }

  lemma {:induction false} CostOfAtLeast(makers: seq<Order>)
    requires Positive(makers) && forall i :: 0 <= i < |makers| ==> makers[i].price >= 0
    ensures CostOf(makers) >= 0 && (makers != [] ==> CostOf(makers) >= makers[0].price)
  {
    if makers != [] {
      CostOfAtLeast(makers[1..]);
      MulAtLeast(makers[0].size, makers[0].price);
    }
  }

  lemma {:induction false} SumsAppend(a: seq<Order>, b: seq<Order>)
    ensures SizeOf(a + b) == SizeOf(a) + SizeOf(b) && CostOf(a + b) == CostOf(a) + CostOf(b)
  {
    if a == [] {
      assert a + b == b;
    } else {
      assert (a + b)[1..] == a[1..] + b;
      SumsAppend(a[1..], b);
    }
  }

  lemma SumsOne(m: Order)
    ensures SizeOf([m]) == m.size && CostOf([m]) == m.size * m.price
  {
    assert [m][1..] == [];
  }

  /** Any two ways of keeping price-time priority are the same fills. */
  lemma PriceTimeUnique(p: Product, taker: Order, makers: seq<Order>, f: Fills, g: Fills)
    requires GoodTaker(p, taker, makers) && Positive(makers) && SortedQueue(taker.side.Opposite(), makers)
    requires PriceTimeFills(taker, makers, f) && PriceTimeFills(taker, makers, g)
    ensures f == g
  {
    if f.full < g.full || (f.full == g.full && f.part < g.part) {
      LesserFillsStopEarly(p, taker, makers, f, g);
    } else if f != g {
      LesserFillsStopEarly(p, taker, makers, g, f);
    }
  }

  lemma LesserFillsStopEarly(p: Product, taker: Order, makers: seq<Order>, f: Fills, g: Fills)
    requires GoodTaker(p, taker, makers) && Positive(makers)
    requires f.Fits(makers) && PriceTimeFills(taker, makers, g)
    requires f.full < g.full || (f.full == g.full && f.part < g.part)
    ensures !Stops(f.TakerAfter(taker, makers), f.Remaining(makers))
  {
    hide SizeOf, CostOf, Fills.Size, Fills.Cost;
    var next := makers[f.full];
    var more := (if f.full < g.full then next.size else g.part) - f.part;
    assert Crosses(taker, next) && Crosses(taker, f.Remaining(makers)[0]);
    assert g.Size(makers) >= f.Size(makers) + more
        && (taker.IsMarketBuy() ==> g.Cost(makers) >= f.Cost(makers) + more * next.price) by {
      FillsGrow(makers, f, g, taker.IsMarketBuy());
    }
    if taker.IsMarketBuy() {
      MulAtLeast(more, next.price);
    }
  }

  lemma FillsGrow(makers: seq<Order>, f: Fills, g: Fills, priced: bool)
    requires Positive(makers) && f.Fits(makers) && g.Fits(makers)
    requires f.full < g.full || (f.full == g.full && f.part < g.part)
    requires priced ==> forall i :: 0 <= i < |makers| ==> makers[i].price > 0
    ensures var next := makers[f.full];
            var more := (if f.full < g.full then next.size else g.part) - f.part;
            && more > 0 && g.Size(makers) >= f.Size(makers) + more
            && (priced ==> g.Cost(makers) >= f.Cost(makers) + more * next.price)
  {
    hide SizeOf, CostOf;
    var next := makers[f.full];
    if f.full < g.full {
      var between := makers[f.full + 1..g.full];
      assert makers[..g.full] == makers[..f.full] + ([next] + between);
      SumsAppend(makers[..f.full], [next] + between);
      SumsAppend([next], between);
      SumsOne(next);
      SizeOfPositive(between);
      if priced {
        CostOfAtLeast(between);
        assert next.size * next.price - f.part * next.price == (next.size - f.part) * next.price;
        if g.part > 0 { MulNonNegative(g.part, makers[g.full].price); }
      }
    } else if priced {
      assert g.part * next.price - f.part * next.price == (g.part - f.part) * next.price;
    }
  }

  /** The size resting on a side within the taker's limit. */
  function CrossingSize(taker: Order, makers: seq<Order>): int {
    if makers == [] then 0
    else (if Crosses(taker, makers[0]) then makers[0].size else 0) + CrossingSize(taker, makers[1..])
  }

  /** A size-limited taker trades its whole size or all that is within its limit, whichever is less. */
  lemma TradedVolume(p: Product, taker: Order, makers: seq<Order>, f: Fills)
    requires GoodTaker(p, taker, makers) && Positive(makers) && SortedQueue(taker.side.Opposite(), makers)
    requires PriceTimeFills(taker, makers, f) && !taker.IsMarketBuy()
    ensures f.Size(makers) == Min(taker.size, CrossingSize(taker, makers))
  {
    hide SizeOf, CostOf;
    var head, tail := makers[..f.full], makers[f.full..];
    assert makers == head + tail;
    CrossingSizeAppend(taker, head, tail);
    assert forall i :: 0 <= i < |head| ==> Crosses(taker, head[i]) by {
      assert forall i :: 0 <= i < |head| ==> head[i] == makers[i];
    }
    AllCrossing(taker, head);
    assert Positive(tail);
    CrossingSizeAtLeast(taker, tail);
    if f.TakerAfter(taker, makers).size != 0 {
      assert f.part == 0 ==> f.Remaining(makers) == tail;
      if tail != [] {
        NoneCrosses(taker, tail);
      }
    }
  }

  lemma {:induction false} CrossingSizeAppend(taker: Order, a: seq<Order>, b: seq<Order>)
    ensures CrossingSize(taker, a + b) == CrossingSize(taker, a) + CrossingSize(taker, b)
  {
    if a == [] {
      assert a + b == b;
    } else {
      assert (a + b)[1..] == a[1..] + b;
      CrossingSizeAppend(taker, a[1..], b);
    }
  }

  lemma {:induction false} AllCrossing(taker: Order, makers: seq<Order>)
    requires forall i :: 0 <= i < |makers| ==> Crosses(taker, makers[i])
    ensures CrossingSize(taker, makers) == SizeOf(makers)
  {
    if makers != [] { AllCrossing(taker, makers[1..]); }
  }

  lemma {:induction false} CrossingSizeAtLeast(taker: Order, makers: seq<Order>)
    requires Positive(makers)
    ensures CrossingSize(taker, makers) >= 0
    ensures makers != [] && Crosses(taker, makers[0]) ==> CrossingSize(taker, makers) >= makers[0].size
  {
    if makers != [] { CrossingSizeAtLeast(taker, makers[1..]); }
  }

  lemma {:induction false} NoneCrosses(taker: Order, makers: seq<Order>)
    requires makers != [] && !Crosses(taker, makers[0]) && SortedQueue(taker.side.Opposite(), makers)
    ensures CrossingSize(taker, makers) == 0
  {
    if |makers| > 1 {
      assert Before(taker.side.Opposite(), makers[0].price, makers[0].id, makers[1].price, makers[1].id);
      NoneCrosses(taker, makers[1..]);
    }
  }

  /** The sweep changes nothing of the taker but its size and funds. */
  lemma {:induction false} SweepKeepsTaker(p: Product, taker: Order, makers: seq<Order>, l: nat, t: nat)
    ensures var r := Sweep(p, taker, makers, l, t);
            r.Swept? ==>
                r.taker == if taker.IsMarketBuy() then taker.(funds := r.taker.funds) else taker.(size := r.taker.size)
    decreases makers
  {
    var r := Sweep(p, taker, makers, l, t);
    if r.Swept? && r.logs != [] {
      var size := Min(Wants(p, taker, makers[0]), makers[0].size);
      var charged := Charge(taker, makers[0].price, size);
      SweepStep(p, taker, makers, l, t, size);
      SweepKeepsTaker(p, charged, makers[1..], l + if size == makers[0].size then 2 else 1, t + 1);
    }
  }

  /** Past the bound a market buy can spend more than it has: one tick short of a base tick's price,
      it buys the base tick all the same. */
  lemma Overspends(p: Product, taker: Order, maker: Order, l: nat, t: nat)
    requires taker.IsMarketBuy() && Crosses(taker, maker) && maker.size > 0
    requires maker.price >= 2 * p.unit && taker.funds == maker.price - 1
    ensures var r := Sweep(p, taker, [maker], l, t); r.Swept? && r.taker.funds == -1 && |r.logs| > 0
  {
    hide BuyableSize;
    OverspendWitness(maker.price, p.unit);
    SweepStep(p, taker, [maker], l, t, 1);
    assert [maker][1..] == [];
  }
}
