/** The book invariant over every run: both queues ordered, no id twice, sizes positive, bids below
    asks; and exactly when the engine panics. */
module BookInvariant {
  import opened Market
  import opened Decimals
  import opened Book
  import opened PriceTime

  /** What the order service guarantees of an order, with an ask price the market-buy division
      can take (positive, and within the bound of `Decimals.BuyableSizeBound`). Only what an order may
      spend, and that no run panics, depends on it. */
  predicate GoodOrder(p: Product, o: Order) {
    o.size >= 0 && o.funds >= 0 && o.price >= 0 && (o.kind.Limit? && o.side.Sell? ==> 0 < o.price < 2 * p.unit)
  }

  predicate QueueInv(side: Side, q: seq<Order>) {
    && SortedQueue(side, q) && UniqueIds(q) && Positive(q)
    && (forall i :: 0 <= i < |q| ==> q[i].side == side && q[i].kind.Limit?)
  }

  predicate Uncrossed(bids: seq<Order>, asks: seq<Order>) {
    forall i, j :: 0 <= i < |bids| && 0 <= j < |asks| ==> bids[i].price < asks[j].price
  }

  predicate DisjointIds(q1: seq<Order>, q2: seq<Order>) {
    forall i, j :: 0 <= i < |q1| && 0 <= j < |q2| ==> q1[i].id != q2[j].id
  }

  ghost predicate Inv(b: Book) {
    && QueueInv(Sell, b.asks) && QueueInv(Buy, b.bids)
    && Uncrossed(b.bids, b.asks) && DisjointIds(b.asks, b.bids) && b.window.Valid()
  }

  predicate RestsIn(b: Book, id: int) { HasId(b.asks, id) || HasId(b.bids, id) }

  /** A submitted order does not rest yet. */
  predicate Admissible(b: Book, c: Command) { c.Submit? ==> !RestsIn(b, c.order.id) }

  predicate AllGood(p: Product, q: seq<Order>) { forall i :: 0 <= i < |q| ==> GoodOrder(p, q[i]) }

  /** The invariant of a book of good orders. */
  ghost predicate GoodInv(p: Product, b: Book) { Inv(b) && AllGood(p, b.asks) && AllGood(p, b.bids) }

  predicate GoodCommand(p: Product, c: Command) { c.Submit? ==> GoodOrder(p, c.order) }

  lemma QueueInvPayable(p: Product, taker: Order, q: seq<Order>)
    requires QueueInv(taker.side.Opposite(), q) && AllGood(p, q) && taker.size >= 0 && taker.funds >= 0
    ensures GoodTaker(p, taker, q)
  {
  }

  /** Effect of an accepted order on a book of good orders. */
  lemma ApplyEffect(p: Product, b: Book, o: Order) returns (f: Fills)
    requires GoodInv(p, b) && GoodOrder(p, o) && b.window.Accepts(o.id)
    ensures PriceTimeFills(Priced(p, o), b.Queue(o.side.Opposite()), f)
    ensures var makers := b.Queue(o.side.Opposite());
            var t := f.TakerAfter(Priced(p, o), makers);
            var fills := f.Logs(o.id, makers, b.logSeq, b.tradeSeq);
            var r := ApplyOrder(p, b, o);
            && r.Next? && r.logs == fills + [ClosingLog(t, b.logSeq + |fills|)]
            && r.book.Queue(o.side.Opposite()) == f.Remaining(makers)
            && r.book.Queue(o.side) == (if Rests(t) then Insert(o.side, b.Queue(o.side), t) else b.Queue(o.side))
            && r.book.logSeq == b.logSeq + |r.logs| && r.book.tradeSeq == b.tradeSeq + Trades(fills)
            && r.book.window == b.window.Put(o.id)
  {
    hide Sweep;
    var taker, makers := Priced(p, o), b.Queue(o.side.Opposite());
    QueueInvPayable(p, taker, makers);
    f := SweepIsPriceTime(p, taker, makers, b.logSeq, b.tradeSeq);
  }

  /** Every order of r is one of q, up to its size. */
  ghost predicate Thinned(r: seq<Order>, q: seq<Order>) { forall i :: 0 <= i < |r| ==> OneOf(r[i], q) }

  ghost predicate OneOf(o: Order, q: seq<Order>) { exists j :: 0 <= j < |q| && o == q[j].(size := o.size) }

  lemma RemainingInv(side: Side, q: seq<Order>, f: Fills)
    requires QueueInv(side, q) && f.Fits(q)
    ensures QueueInv(side, f.Remaining(q)) && Thinned(f.Remaining(q), q)
    ensures |f.Remaining(q)| == |q| - f.full
    ensures forall i :: 0 <= i < |f.Remaining(q)| ==>
      f.Remaining(q)[i] == q[f.full + i].(size := f.Remaining(q)[i].size)
      && f.Remaining(q)[i].size == q[f.full + i].size - (if i == 0 then f.part else 0)
  {
    hide Fills.Remaining, OneOf;
    RemainingAt(q, f);
    assert forall i :: 0 <= i < |f.Remaining(q)| ==> f.Remaining(q)[i].size > 0;
    SuffixInv(side, q, f.Remaining(q), f.full);
  }

  lemma RemainingAt(q: seq<Order>, f: Fills)
    requires f.Fits(q)
    ensures |f.Remaining(q)| == |q| - f.full
    ensures forall i :: 0 <= i < |f.Remaining(q)| ==>
      f.Remaining(q)[i] == q[f.full + i].(size := q[f.full + i].size - if i == 0 then f.part else 0)
  {
  }

  lemma SuffixInv(side: Side, q: seq<Order>, r: seq<Order>, n: nat)
    requires QueueInv(side, q) && n <= |q| && |r| == |q| - n
    requires forall i :: 0 <= i < |r| ==> r[i] == q[n + i].(size := r[i].size) && r[i].size > 0
    ensures QueueInv(side, r) && Thinned(r, q)
  {
  }

  lemma InsertInv(side: Side, q: seq<Order>, o: Order) returns (k: nat)
    requires QueueInv(side, q) && !HasId(q, o.id) && o.size > 0 && o.side == side && o.kind.Limit?
    ensures k == Slot(side, q, o.price, o.id) && InsertedAt(Insert(side, q, o), q, k, o)
    ensures QueueInv(side, Insert(side, q, o))
  {
    k := Slot(side, q, o.price, o.id);
    InsertedAtSlices(q, k, o);
    forall i | k <= i < |q| ensures Before(side, o.price, o.id, q[i].price, q[i].id) {
      assert q[i].id != o.id && q[k].id != o.id;
      if k < i { assert Before(side, q[k].price, q[k].id, q[i].price, q[i].id); }
    }
    InsertedQueueInv(side, q, o, k, Insert(side, q, o));
  }

  lemma InsertedQueueInv(side: Side, q: seq<Order>, o: Order, k: nat, r: seq<Order>)
    requires QueueInv(side, q) && !HasId(q, o.id) && InsertedAt(r, q, k, o)
    requires o.size > 0 && o.side == side && o.kind.Limit?
    requires forall i :: 0 <= i < k ==> Before(side, q[i].price, q[i].id, o.price, o.id)
    requires forall i :: k <= i < |q| ==> Before(side, o.price, o.id, q[i].price, q[i].id)
    ensures QueueInv(side, r)
  {
    forall i, j | 0 <= i < j < |r|
      ensures Before(side, r[i].price, r[i].id, r[j].price, r[j].id) && r[i].id != r[j].id
    {
      var a, c := if i < k then i else i - 1, if j < k then j else j - 1;
      assert i != k ==> r[i] == q[a];
      assert j != k ==> r[j] == q[c];
    }
  }

  lemma WithoutInv(side: Side, q: seq<Order>, k: nat)
    requires QueueInv(side, q) && k < |q|
    ensures QueueInv(side, Without(q, k)) && RemovedAt(Without(q, k), q, k)
  {
    RemovedAtSlices(q, k);
    RemovedQueueInv(side, q, k, Without(q, k));
  }

  lemma RemovedQueueInv(side: Side, q: seq<Order>, k: nat, r: seq<Order>)
    requires QueueInv(side, q) && RemovedAt(r, q, k)
    ensures QueueInv(side, r)
  {
    forall i, j | 0 <= i < j < |r|
      ensures Before(side, r[i].price, r[i].id, r[j].price, r[j].id) && r[i].id != r[j].id
    {
      var a, c := if i < k then i else i + 1, if j < k then j else j + 1;
      assert r[i] == q[a] && r[j] == q[c];
    }
  }

  // The matching loop, whatever the taker and the prices.

  /** The loop keeps a queue in order and its sizes positive. */
  lemma {:induction false} SweepKeepsQueue(p: Product, taker: Order, side: Side, makers: seq<Order>, l: nat, t: nat)
    requires QueueInv(side, makers)
    ensures var r := Sweep(p, taker, makers, l, t); r.Swept? ==> QueueInv(side, r.makers) && Thinned(r.makers, makers)
    decreases makers
  {
    hide QueueInv, Thinned, Wants;
    var r := Sweep(p, taker, makers, l, t);
    if r.Swept? && r.logs != [] {
      var size := Min(Wants(p, taker, makers[0]), makers[0].size);
      var charged, l' := Charge(taker, makers[0].price, size), l + if size == makers[0].size then 2 else 1;
      SweepStep(p, taker, makers, l, t, size);
      TailInv(side, makers);
      SweepKeepsQueue(p, charged, side, makers[1..], l', t + 1);
      LeftInv(side, makers, size, Sweep(p, charged, makers[1..], l', t + 1).makers);
    } else if r.Swept? {
      AllThinned(makers);
    }
  }

  lemma AllThinned(q: seq<Order>)
    ensures Thinned(q, q)
  {
    forall i | 0 <= i < |q| ensures OneOf(q[i], q) {
      assert q[i] == q[i].(size := q[i].size);
    }
  }

  lemma TailInv(side: Side, q: seq<Order>)
    requires QueueInv(side, q) && q != []
    ensures QueueInv(side, q[1..])
  {
    assert forall i :: 0 <= i < |q[1..]| ==> q[1..][i] == q[i + 1];
  }

  lemma LeftInv(side: Side, q: seq<Order>, size: int, rest: seq<Order>)
    requires QueueInv(side, q) && q != [] && size <= q[0].size && QueueInv(side, rest) && Thinned(rest, q[1..])
    ensures QueueInv(side, Left(q[0], size) + rest) && Thinned(Left(q[0], size) + rest, q)
  {
    var r := Left(q[0], size) + rest;
    forall i | 0 <= i < |rest|
      ensures OneOf(rest[i], q) && rest[i].id != q[0].id
      ensures Before(side, q[0].price, q[0].id, rest[i].price, rest[i].id)
    {
      assert OneOf(rest[i], q[1..]);
      var j :| 0 <= j < |q[1..]| && rest[i] == q[1..][j].(size := rest[i].size);
      assert rest[i] == q[j + 1].(size := rest[i].size);
    }
    if size != q[0].size {
      assert r[0] == q[0].(size := r[0].size) && OneOf(r[0], q);
      assert forall i :: 0 < i < |r| ==> r[i] == rest[i - 1];
    } else {
      assert r == rest;
    }
  }

  /** A taker limited in size that has some left meets no crossing maker any more. */
  lemma {:induction false} LeftoverCrossesNothing(p: Product, taker: Order, makers: seq<Order>, l: nat, t: nat)
    requires !taker.IsMarketBuy() && QueueInv(taker.side.Opposite(), makers)
    ensures var r := Sweep(p, taker, makers, l, t);
            r.Swept? && r.taker.size > 0 ==> forall i :: 0 <= i < |r.makers| ==> !Crosses(r.taker, r.makers[i])
    decreases makers
  {
    var r := Sweep(p, taker, makers, l, t);
    if r.Swept? && r.taker.size > 0 {
      if r.logs == [] {
        forall i | 0 <= i < |makers| ensures !Crosses(taker, makers[i]) {
          if i > 0 {
            assert Before(taker.side.Opposite(), makers[0].price, makers[0].id, makers[i].price, makers[i].id);
          }
        }
      } else {
        var size := Min(taker.size, makers[0].size);
        var charged, l' := Charge(taker, makers[0].price, size), l + if size == makers[0].size then 2 else 1;
        SweepStep(p, taker, makers, l, t, size);
        TailInv(taker.side.Opposite(), makers);
        LeftoverCrossesNothing(p, charged, makers[1..], l', t + 1);
      }
    }
  }

  /** The book invariant survives the application of any order that does not panic. */
  lemma ApplyKeepsInv(p: Product, b: Book, o: Order)
    requires Inv(b) && Admissible(b, Submit(o)) && ApplyOrder(p, b, o).Next?
    ensures Inv(ApplyOrder(p, b, o).book)
  {
    hide Sweep, QueueInv, Uncrossed, DisjointIds, Insert, Crosses, Thinned, HasId;
    if b.window.Accepts(o.id) {
      var taker, makers := Priced(p, o), b.Queue(o.side.Opposite());
      var r := Sweep(p, taker, makers, b.logSeq, b.tradeSeq);
      SweepKeepsQueue(p, taker, o.side.Opposite(), makers, b.logSeq, b.tradeSeq);
      SweepKeepsTaker(p, taker, makers, b.logSeq, b.tradeSeq);
      if o.kind.Limit? { LeftoverCrossesNothing(p, taker, makers, b.logSeq, b.tradeSeq); }
      SidesAfterSweep(b, o, r.taker, r.makers);
    }
  }

  /** Both sides once the loop has left `rest` of the makers and the leftover t, if any, is queued. */
  lemma SidesAfterSweep(b: Book, o: Order, t: Order, rest: seq<Order>)
    requires Inv(b) && Admissible(b, Submit(o)) && t.id == o.id && t.side == o.side
    requires QueueInv(o.side.Opposite(), rest) && Thinned(rest, b.Queue(o.side.Opposite()))
    requires Rests(t) ==> forall i :: 0 <= i < |rest| ==> !Crosses(t, rest[i])
    ensures var own := if Rests(t) then Insert(o.side, b.Queue(o.side), t) else b.Queue(o.side);
            && QueueInv(o.side, own) && DisjointIds(own, rest) && DisjointIds(rest, own)
            && if o.side.Buy? then Uncrossed(own, rest) else Uncrossed(rest, own)
  {
    hide Insert;
    var makers, own := b.Queue(o.side.Opposite()), b.Queue(o.side);
    ThinnedApart(makers, own, rest);
    ThinnedIds(makers, rest);
    if Rests(t) {
      var k := InsertInv(o.side, own, t);
      InsertedApart(own, t, rest, k, Insert(o.side, own, t), o.side);
    }
  }

  lemma ThinnedApart(q: seq<Order>, own: seq<Order>, r: seq<Order>)
    requires Thinned(r, q)
    ensures DisjointIds(own, q) || DisjointIds(q, own) ==> DisjointIds(own, r) && DisjointIds(r, own)
    ensures Uncrossed(own, q) ==> Uncrossed(own, r)
    ensures Uncrossed(q, own) ==> Uncrossed(r, own)
  {
    assert forall i :: 0 <= i < |r| ==> OneOf(r[i], q);
  }

  lemma ThinnedIds(q: seq<Order>, r: seq<Order>)
    requires Thinned(r, q)
    ensures forall id :: HasId(r, id) ==> HasId(q, id)
  {
    forall id | HasId(r, id) ensures HasId(q, id) {
      var i :| 0 <= i < |r| && r[i].id == id;
      assert OneOf(r[i], q);
    }
  }

  lemma InsertedApart(own: seq<Order>, t: Order, rest: seq<Order>, k: nat, r: seq<Order>, side: Side)
    requires InsertedAt(r, own, k, t) && !HasId(rest, t.id) && DisjointIds(own, rest) && t.side == side
    requires if side.Buy? then Uncrossed(own, rest) else Uncrossed(rest, own)
    requires forall i :: 0 <= i < |rest| ==> !Crosses(t, rest[i])
    ensures DisjointIds(r, rest) && if side.Buy? then Uncrossed(r, rest) else Uncrossed(rest, r)
  {
    forall i, j | 0 <= i < |r| && 0 <= j < |rest|
      ensures r[i].id != rest[j].id && if side.Buy? then r[i].price < rest[j].price else rest[j].price < r[i].price
    {
      if i == k {
        assert !Crosses(t, rest[j]);
      } else {
        assert r[i] == own[if i < k then i else i - 1];
      }
    }
  }

  lemma CancelKeepsInv(b: Book, o: Order)
    requires Inv(b)
    ensures CancelOrder(b, o).Next? && Inv(CancelOrder(b, o).book)
  {
    var q := b.Queue(o.side);
    var k := Find(q, o.id);
    if k < |q| {
      WithoutInv(o.side, q, k);
      RemovedApart(q, b.Queue(o.side.Opposite()), k, Without(q, k), o.side);
    }
  }

  lemma RemovedApart(own: seq<Order>, rest: seq<Order>, k: nat, r: seq<Order>, side: Side)
    requires RemovedAt(r, own, k) && DisjointIds(own, rest)
    requires if side.Buy? then Uncrossed(own, rest) else Uncrossed(rest, own)
    ensures DisjointIds(r, rest) && if side.Buy? then Uncrossed(r, rest) else Uncrossed(rest, r)
  {
  }

  lemma InvParts(b: Book)
    requires Inv(b)
    ensures b.window.Valid() && QueueInv(Sell, b.asks) && QueueInv(Buy, b.bids) && Positive(b.asks) && Positive(b.bids)
  {
  }

  lemma ExecuteKeepsInv(p: Product, b: Book, c: Command)
    requires Inv(b) && Admissible(b, c) && Execute(p, b, c).Next?
    ensures Inv(Execute(p, b, c).book)
  {
    hide Inv, ApplyOrder, CancelOrder;
    if c.Submit? { ApplyKeepsInv(p, b, c.order); } else { CancelKeepsInv(b, c.order); }
  }

  // Where the orders of a book after a command come from.

  /** Every order of q is one of `was`, up to its size, or one of `o`, up to its size and funds. */
  ghost predicate FromOr(q: seq<Order>, was: seq<Order>, o: Order) {
    forall i :: 0 <= i < |q| ==> OneOf(q[i], was) || (q[i] == o.(size := q[i].size) && q[i].side == o.side)
  }

  lemma ExecuteOrders(p: Product, b: Book, c: Command)
    requires b.window.Valid() && QueueInv(Sell, b.asks) && QueueInv(Buy, b.bids) && Execute(p, b, c).Next?
    ensures var b' := Execute(p, b, c).book; FromOr(b'.asks, b.asks, c.order) && FromOr(b'.bids, b.bids, c.order)
    ensures var b' := Execute(p, b, c).book;
            c.Cancel? || !b.window.Accepts(c.order.id) ==> Thinned(b'.asks, b.asks) && Thinned(b'.bids, b.bids)
  {
    hide Sweep, QueueInv, Thinned, OneOf, FromOr, Insert, Without;
    AllThinned(b.asks);
    AllThinned(b.bids);
    ThinnedFrom(b.asks, b.asks, c.order);
    ThinnedFrom(b.bids, b.bids, c.order);
    var o := c.order;
    if c.Cancel? {
      var k := Find(b.Queue(o.side), o.id);
      if k < |b.Queue(o.side)| {
        WithoutThinned(b.Queue(o.side), k);
        ThinnedFrom(Without(b.Queue(o.side), k), b.Queue(o.side), o);
      }
    } else if b.window.Accepts(o.id) {
      var taker, makers := Priced(p, o), b.Queue(o.side.Opposite());
      var r := Sweep(p, taker, makers, b.logSeq, b.tradeSeq);
      SweepKeepsQueue(p, taker, o.side.Opposite(), makers, b.logSeq, b.tradeSeq);
      SweepKeepsTaker(p, taker, makers, b.logSeq, b.tradeSeq);
      ThinnedFrom(r.makers, makers, o);
      if Rests(r.taker) { InsertFrom(o.side, b.Queue(o.side), r.taker, o); }
    }
  }

  lemma ThinnedFrom(q: seq<Order>, was: seq<Order>, o: Order)
    requires Thinned(q, was)
    ensures FromOr(q, was, o)
  {
  }

  lemma WithoutThinned(q: seq<Order>, k: nat)
    requires k < |q|
    ensures Thinned(Without(q, k), q)
  {
    var r := Without(q, k);
    forall i | 0 <= i < |r| ensures OneOf(r[i], q) {
      assert r[i] == q[if i < k then i else i + 1].(size := r[i].size);
    }
  }

  lemma InsertFrom(side: Side, q: seq<Order>, t: Order, o: Order)
    requires t == o.(size := t.size) && o.side == side
    ensures FromOr(Insert(side, q, t), q, o)
  {
    var k, r := Slot(side, q, t.price, t.id), Insert(side, q, t);
    InsertedAtSlices(q, k, t);
    forall i | 0 <= i < |r| ensures OneOf(r[i], q) || r[i] == o.(size := r[i].size) {
      if i != k { assert r[i] == q[if i < k then i else i - 1].(size := r[i].size); }
    }
  }

  lemma ExecuteOrigins(p: Product, b: Book, c: Command)
    requires Inv(b) && Execute(p, b, c).Next?
    ensures forall id :: RestsIn(Execute(p, b, c).book, id) ==>
      RestsIn(b, id) || (c.Submit? && id == c.order.id && b.window.Accepts(id))
  {
    hide Execute;
    ExecuteOrders(p, b, c);
    var b' := Execute(p, b, c).book;
    OriginIds(b'.asks, b.asks, c.order);
    OriginIds(b'.bids, b.bids, c.order);
  }

  lemma OriginIds(q: seq<Order>, was: seq<Order>, o: Order)
    requires FromOr(q, was, o)
    ensures forall id :: HasId(q, id) ==> HasId(was, id) || id == o.id
    ensures Thinned(q, was) ==> forall id :: HasId(q, id) ==> HasId(was, id)
  {
    if Thinned(q, was) { ThinnedIds(was, q); }
    forall id | HasId(q, id) ensures HasId(was, id) || id == o.id {
      var i :| 0 <= i < |q| && q[i].id == id;
    }
  }

  /** The engine panics on an order exactly when it is a market buy with funds and the best ask is
      priced at zero: whatever the prices, sizes and funds are otherwise. */
  lemma PanicsIff(p: Product, b: Book, o: Order)
    requires b.window.Valid() && SortedQueue(Sell, b.asks) && p.topPrice >= 0
    requires forall i :: 0 <= i < |b.asks| ==> b.asks[i].price >= 0
    ensures ApplyOrder(p, b, o).Panicked?
            <==> b.window.Accepts(o.id) && o.IsMarketBuy() && o.funds != 0 && b.asks != [] && b.asks[0].price == 0
  {
    var taker, makers := Priced(p, o), b.Queue(o.side.Opposite());
    if o.IsMarketBuy() && b.asks != [] && b.asks[0].price > 0 {
      PricesRise(Sell, b.asks);
    }
    if !o.IsMarketBuy() || b.asks == [] || b.asks[0].price > 0 {
      NeverDivides(p, taker, makers, b.logSeq, b.tradeSeq);
    }
  }

  lemma {:induction false} NeverDivides(p: Product, taker: Order, makers: seq<Order>, logSeq: nat, tradeSeq: nat)
    requires taker.IsMarketBuy() ==> forall i :: 0 <= i < |makers| ==> makers[i].price != 0
    ensures Sweep(p, taker, makers, logSeq, tradeSeq).Swept?
    decreases makers
  {
    hide Wants;
    if makers != [] && Crosses(taker, makers[0]) && !(taker.IsMarketBuy() && taker.funds == 0)
        && Wants(p, taker, makers[0]) != 0 {
      var size := Min(Wants(p, taker, makers[0]), makers[0].size);
      var l := logSeq + if size == makers[0].size then 2 else 1;
      NeverDivides(p, Charge(taker, makers[0].price, size), makers[1..], l, tradeSeq + 1);
      SweepStep(p, taker, makers, logSeq, tradeSeq, size);
    }
  }

  /** A good command does not panic on a book of good orders, and leaves one. */
  lemma ExecuteKeepsGood(p: Product, b: Book, c: Command)
    requires GoodInv(p, b) && Admissible(b, c) && GoodCommand(p, c)
    ensures Execute(p, b, c).Next? && GoodInv(p, Execute(p, b, c).book)
  {
    hide Sweep, Inv, FromOr, Insert, Without;
    InvParts(b);
    if c.Submit? {
      NeverDivides(p, Priced(p, c.order), b.Queue(c.order.side.Opposite()), b.logSeq, b.tradeSeq);
    }
    assert Execute(p, b, c).Next?;
    ExecuteKeepsInv(p, b, c);
    InvParts(Execute(p, b, c).book);
    ExecuteOrders(p, b, c);
    var b' := Execute(p, b, c).book;
    OriginsGood(p, b'.asks, b.asks, c);
    OriginsGood(p, b'.bids, b.bids, c);
  }

  lemma OriginsGood(p: Product, q: seq<Order>, was: seq<Order>, c: Command)
    requires AllGood(p, was) && Positive(q) && FromOr(q, was, c.order)
    requires if c.Submit? then GoodOrder(p, c.order) else Thinned(q, was)
    ensures AllGood(p, q)
  {
    forall i | 0 <= i < |q| ensures GoodOrder(p, q[i]) {
      assert c.Cancel? ==> OneOf(q[i], was);
    }
  }

  // Runs.

  /** No id is submitted twice. */
  predicate UniqueRun(cmds: seq<Command>) {
    forall i, j :: 0 <= i < j < |cmds| && cmds[i].Submit? && cmds[j].Submit? ==>
      cmds[i].order.id != cmds[j].order.id
  }

  /** And every submitted order is good. */
  predicate GoodRun(p: Product, cmds: seq<Command>) {
    UniqueRun(cmds) && forall i :: 0 <= i < |cmds| ==> GoodCommand(p, cmds[i])
  }

  predicate Submitted(cmds: seq<Command>, id: int) {
    exists i :: 0 <= i < |cmds| && cmds[i].Submit? && cmds[i].order.id == id
  }

  lemma UniquePrefix(cmds: seq<Command>, n: nat)
    requires UniqueRun(cmds) && n <= |cmds|
    ensures UniqueRun(cmds[..n])
    ensures forall id :: Submitted(cmds[..n], id) ==> Submitted(cmds, id)
    ensures n < |cmds| && cmds[n].Submit? ==> !Submitted(cmds[..n], cmds[n].order.id)
  {
    forall id | Submitted(cmds[..n], id) ensures Submitted(cmds, id) {
      var i :| 0 <= i < n && cmds[..n][i].Submit? && cmds[..n][i].order.id == id;
      assert cmds[i].Submit?;
    }
  }

  lemma SubmittedMore(cmds: seq<Command>, n: nat)
    requires n < |cmds|
    ensures forall id :: Submitted(cmds[..n], id) ==> Submitted(cmds[..n + 1], id)
    ensures cmds[n].Submit? ==> Submitted(cmds[..n + 1], cmds[n].order.id)
  {
    forall id | Submitted(cmds[..n], id) ensures Submitted(cmds[..n + 1], id) {
      var i :| 0 <= i < n && cmds[..n][i].Submit? && cmds[..n][i].order.id == id;
      assert cmds[..n + 1][i] == cmds[i];
    }
    assert cmds[..n + 1][n] == cmds[n];
  }

  /** Every order of b rests in b0 or was submitted by cmds. */
  ghost predicate OnlyKnown(b0: Book, cmds: seq<Command>, b: Book) {
    forall id :: RestsIn(b, id) ==> RestsIn(b0, id) || Submitted(cmds, id)
  }

  /** Commands that a book in use may receive: orders with new ids. */
  predicate UniqueReplay(b0: Book, cmds: seq<Command>) {
    UniqueRun(cmds) && forall i :: 0 <= i < |cmds| && cmds[i].Submit? ==> !RestsIn(b0, cmds[i].order.id)
  }

  /** The book invariant survives any stretch of orders that does not panic. */
  lemma {:induction false} ReplayKeepsInv(p: Product, b0: Book, cmds: seq<Command>, n: nat)
    requires b0.window.Valid() && Inv(b0) && UniqueReplay(b0, cmds) && n <= |cmds|
    requires Replay(p, b0, cmds[..n]).Next?
    ensures var b := Replay(p, b0, cmds[..n]).book;
            Inv(b) && OnlyKnown(b0, cmds[..n], b) && (n < |cmds| ==> Admissible(b, cmds[n]))
  {
    hide Replay, Execute, Inv, UniqueReplay, RestsIn;
    if n == 0 {
      ReplayNothing(p, b0, cmds[..n]);
    } else {
      ReplayLast(p, b0, cmds, n - 1);
      ReplayKeepsInv(p, b0, cmds, n - 1);
      var b, c := Replay(p, b0, cmds[..n - 1]).book, cmds[n - 1];
      ExecuteOrigins(p, b, c);
      ExecuteKeepsInv(p, b, c);
      SubmittedMore(cmds, n - 1);
    }
    if n < |cmds| { NextIsAdmissible(b0, cmds, n, Replay(p, b0, cmds[..n]).book); }
  }

  lemma NextIsAdmissible(b0: Book, cmds: seq<Command>, n: nat, b: Book)
    requires UniqueReplay(b0, cmds) && n < |cmds| && OnlyKnown(b0, cmds[..n], b)
    ensures Admissible(b, cmds[n])
  {
    UniquePrefix(cmds, n);
  }

  lemma EmptyBook()
    ensures Inv(NewBook()) && forall id :: !RestsIn(NewBook(), id)
  {
  }

  /** The book invariant holds in every state that a run with unique ids reaches, whatever the prices,
      sizes and funds of its orders. */
  lemma RunKeepsInv(p: Product, cmds: seq<Command>)
    requires UniqueRun(cmds) && Run(p, cmds).Next?
    ensures Inv(Run(p, cmds).book) && forall id :: RestsIn(Run(p, cmds).book, id) ==> Submitted(cmds, id)
  {
    hide Replay, Inv, RestsIn;
    EmptyBook();
    assert cmds[..|cmds|] == cmds;
    ReplayKeepsInv(p, NewBook(), cmds, |cmds|);
  }

  lemma NextAdmissible(p: Product, cmds: seq<Command>, n: nat)
    requires UniqueRun(cmds) && n < |cmds| && Run(p, cmds[..n]).Next?
    ensures Inv(Run(p, cmds[..n]).book) && Admissible(Run(p, cmds[..n]).book, cmds[n])
  {
    hide Replay, Inv, RestsIn;
    EmptyBook();
    ReplayKeepsInv(p, NewBook(), cmds, n);
  }

  /** No run of good orders panics, and the orders that rest are good. */
  lemma {:induction false} GoodRunSurvives(p: Product, cmds: seq<Command>, n: nat)
    requires GoodRun(p, cmds) && n <= |cmds|
    ensures Run(p, cmds[..n]).Next? && GoodInv(p, Run(p, cmds[..n]).book)
  {
    hide Run, Replay, Execute, Inv;
    if n == 0 {
      RunNothing(p, cmds[..n]);
      EmptyBook();
    } else {
      GoodRunSurvives(p, cmds, n - 1);
      NextAdmissible(p, cmds, n - 1);
      RunLast(p, cmds, n - 1);
      ExecuteKeepsGood(p, Run(p, cmds[..n - 1]).book, cmds[n - 1]);
    }
  }

  /** The shortest run that panics: a limit sell priced at zero comes to rest, then a market buy with
      funds arrives. */
  lemma PanicReached(p: Product, ask: Order, buy: Order, cmds: seq<Command>)
    requires ask.kind.Limit? && ask.side.Sell? && ask.price == 0 && ask.size > 0 && buy.IsMarketBuy() && buy.funds != 0
    requires var w := NewBook().window; w.Accepts(ask.id) && w.Put(ask.id).Accepts(buy.id) && p.topPrice >= 0
    requires cmds == [Submit(ask), Submit(buy)]
    ensures Run(p, cmds[..1]).Next? && Run(p, cmds).Panicked?
  {
    hide Run, Sweep, Insert;
    RunNothing(p, cmds[..0]);
    RunLast(p, cmds, 0);
    RunLast(p, cmds, 1);
    assert cmds[..2] == cmds;
    FirstAskRests(p, ask);
    PanicsIff(p, ApplyOrder(p, NewBook(), ask).book, buy);
  }

  lemma FirstAskRests(p: Product, ask: Order)
    requires ask.kind.Limit? && ask.side.Sell? && ask.size > 0 && NewBook().window.Accepts(ask.id)
    ensures var r := ApplyOrder(p, NewBook(), ask);
            r.Next? && r.book.asks == [ask] && r.book.window == NewBook().window.Put(ask.id)
  {
    assert Insert(Sell, [], ask) == [ask];
  }

  /** Logs numbered without gaps after `logSeq`, trades without gaps after `tradeSeq`. */
  predicate Numbered(logs: seq<Log>, logSeq: nat, tradeSeq: nat) {
    forall i :: 0 <= i < |logs| ==>
      logs[i].seqNo == logSeq + 1 + i && (logs[i].MatchLog? ==> logs[i].tradeId == tradeSeq + 1 + Trades(logs[..i]))
  }

  lemma {:induction false} TradesAppend(a: seq<Log>, b: seq<Log>)
    ensures Trades(a + b) == Trades(a) + Trades(b)
  {
    if a == [] {
      assert a + b == b;
    } else {
      assert (a + b)[1..] == a[1..] + b;
      TradesAppend(a[1..], b);
    }
  }

  lemma NumberedAppend(a: seq<Log>, b: seq<Log>, logSeq: nat, tradeSeq: nat)
    requires Numbered(a, logSeq, tradeSeq) && Numbered(b, logSeq + |a|, tradeSeq + Trades(a))
    ensures Numbered(a + b, logSeq, tradeSeq)
  {
    forall i | 0 <= i < |a + b|
      ensures (a + b)[i].seqNo == logSeq + 1 + i
      ensures (a + b)[i].MatchLog? ==> (a + b)[i].tradeId == tradeSeq + 1 + Trades((a + b)[..i])
    {
      if i < |a| {
        assert (a + b)[..i] == a[..i];
      } else {
        assert (a + b)[..i] == a + b[..i - |a|];
        TradesAppend(a, b[..i - |a|]);
      }
    }
  }

  lemma {:induction false} SweepNumbered(p: Product, taker: Order, makers: seq<Order>, logSeq: nat, tradeSeq: nat)
    ensures var r := Sweep(p, taker, makers, logSeq, tradeSeq); r.Swept? ==> Numbered(r.logs, logSeq, tradeSeq)
    decreases makers
  {
    var r := Sweep(p, taker, makers, logSeq, tradeSeq);
    if r.Swept? && r.logs != [] {
      var size := Min(Wants(p, taker, makers[0]), makers[0].size);
      var logs := TradeLogs(taker.id, makers[0], size, logSeq, tradeSeq);
      SweepNumbered(p, Charge(taker, makers[0].price, size), makers[1..], logSeq + |logs|, tradeSeq + 1);
      assert Trades(logs) == 1 by { assert Trades(logs[1..]) == 0; }
      assert Trades(logs[..0]) == 0 && logs[..1] == [logs[0]];
      var rest := Sweep(p, Charge(taker, makers[0].price, size), makers[1..], logSeq + |logs|, tradeSeq + 1);
      NumberedAppend(logs, rest.logs, logSeq, tradeSeq);
    }
  }

  /** Over any run, whatever the orders, log numbers and trade numbers increase without a gap. */
  lemma {:induction false} RunNumbered(p: Product, cmds: seq<Command>)
    requires Run(p, cmds).Next?
    ensures var r := Run(p, cmds);
            Numbered(r.logs, 0, 0) && r.book.logSeq == |r.logs| && r.book.tradeSeq == Trades(r.logs)
  {
    hide Run, Replay, Execute, Numbered, Trades;
    if cmds == [] {
      RunNothing(p, cmds);
      NoneNumbered([], 0, 0);
    } else {
      var n := |cmds| - 1;
      RunLast(p, cmds, n);
      assert cmds[..n + 1] == cmds;
      RunNumbered(p, cmds[..n]);
      var before := Run(p, cmds[..n]);
      var after := Execute(p, before.book, cmds[n]);
      ExecuteNumbered(p, before.book, cmds[n]);
      NumberedAppend(before.logs, after.logs, 0, 0);
      TradesAppend(before.logs, after.logs);
    }
  }

  lemma ExecuteNumbered(p: Product, b: Book, c: Command)
    requires b.window.Valid() && Execute(p, b, c).Next?
    ensures var r := Execute(p, b, c);
            && Numbered(r.logs, b.logSeq, b.tradeSeq)
            && r.book.logSeq == b.logSeq + |r.logs| && r.book.tradeSeq == b.tradeSeq + Trades(r.logs)
  {
    hide Sweep, Numbered, Trades, Insert, ClosingLog, Without, Find;
    var o := c.order;
    if c.Submit? && b.window.Accepts(o.id) {
      var r := Sweep(p, Priced(p, o), b.Queue(o.side.Opposite()), b.logSeq, b.tradeSeq);
      SweepNumbered(p, Priced(p, o), b.Queue(o.side.Opposite()), b.logSeq, b.tradeSeq);
      var last := ClosingLog(r.taker, b.logSeq + |r.logs|);
      ClosingSeq(r.taker, b.logSeq + |r.logs|);
      OneNumbered(last, b.logSeq + |r.logs|, b.tradeSeq + Trades(r.logs));
      NumberedAppend(r.logs, [last], b.logSeq, b.tradeSeq);
      TradesAppend(r.logs, [last]);
    } else if c.Cancel? && CancelOrder(b, o).logs != [] {
      OneNumbered(CancelOrder(b, o).logs[0], b.logSeq, b.tradeSeq);
    } else {
      NoneNumbered([], b.logSeq, b.tradeSeq);
    }
  }

  lemma ClosingSeq(t: Order, l: nat)
    ensures ClosingLog(t, l).seqNo == l + 1 && !ClosingLog(t, l).MatchLog?
  {
  }

  lemma OneNumbered(log: Log, logSeq: nat, tradeSeq: nat)
    requires log.seqNo == logSeq + 1 && !log.MatchLog?
    ensures Numbered([log], logSeq, tradeSeq) && Trades([log]) == 0
  {
    assert [log][1..] == [];
  }

  lemma NoneNumbered(logs: seq<Log>, logSeq: nat, tradeSeq: nat)
    requires logs == []
    ensures Numbered(logs, logSeq, tradeSeq) && Trades(logs) == 0
  {
  }
}
