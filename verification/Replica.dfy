/** The order book replica behind the feeds: it is rebuilt from the matching logs and indexes its
    orders by price level. A save panics when the level it needs is missing; the index is sound when
    each level is the sum and the count of the orders at its price. */
module Replica {
  import opened Market
  import opened Sums

  /** A resting order; its id is the key under which the replica keeps it. */
  datatype Entry = Entry(size: int, price: int, side: Side)

  datatype PriceLevel = PriceLevel(size: int, count: int)

  /** A published change: the level at this price now has this size; zero means it is gone. */
  datatype Change = Change(seqNo: nat, side: Side, price: int, size: int)

  datatype Replica = Replica(orders: map<int, Entry>, asks: map<int, PriceLevel>, bids: map<int, PriceLevel>,
                             seqNo: nat, logSeq: nat)
  {
    function Levels(side: Side): map<int, PriceLevel> { if side.Sell? then asks else bids }

    function WithLevels(side: Side, levels: map<int, PriceLevel>): Replica {
      if side.Sell? then this.(asks := levels) else this.(bids := levels)
    }
  }

  function NewReplica(): Replica { Replica(map[], map[], map[], 0, 0) }

  datatype Saved = Panicked | Saved(replica: Replica, changes: seq<Change>)

  /** `saveOrder`: sets the size of an order and adjusts its level. */
  function Save(r: Replica, logSeq: nat, id: int, newSize: int, price: int, side: Side): Saved {
    var levels := r.Levels(side);
    if newSize < 0 then Panicked
    else if id !in r.orders && newSize == 0 then Saved(r, [])
    else if id !in r.orders then
      var was := if price in levels then levels[price] else PriceLevel(0, 0);
      var level := PriceLevel(was.size + newSize, was.count + 1);
      Noted(r, r.orders[id := Entry(newSize, price, side)], levels[price := level], logSeq, price, side, level.size)
    else if price !in levels then Panicked
    else
      var size := levels[price].size - (r.orders[id].size - newSize);
      var count := if newSize == 0 then levels[price].count - 1 else levels[price].count;
      Noted(r, if newSize == 0 then r.orders - {id} else r.orders[id := r.orders[id].(size := newSize)],
            if size == 0 then levels - {price} else levels[price := PriceLevel(size, count)],
            logSeq, price, side, size)
  }

  function Noted(r: Replica, orders: map<int, Entry>, levels: map<int, PriceLevel>, logSeq: nat,
                 price: int, side: Side, size: int): Saved
  {
    Saved(r.WithLevels(side, levels).(orders := orders, seqNo := r.seqNo + 1, logSeq := logSeq),
          [Change(r.seqNo + 1, side, price, size)])
  }

  /** What the stream does with one log. */
  function Feed(r: Replica, log: Log): Saved {
    match log
    case DoneLog(seqNo, id, price, remaining, _, side) =>
      if id !in r.orders then Saved(r, []) else Save(r, seqNo, id, r.orders[id].size - remaining, price, side)
    case OpenLog(seqNo, id, remaining, price, side) =>
      Save(r, seqNo, id, remaining, price, side)
    case MatchLog(seqNo, _, _, makerId, side, price, size) =>
      if makerId !in r.orders then Panicked else Save(r, seqNo, makerId, r.orders[makerId].size - size, price, side)
  }

  function FeedAll(r: Replica, logs: seq<Log>): Saved {
    if logs == [] then Saved(r, []) else FeedThen(FeedAll(r, logs[..|logs| - 1]), logs[|logs| - 1])
  }

  function FeedThen(before: Saved, log: Log): Saved {
    if before.Panicked? then Panicked
    else
      var after := Feed(before.replica, log);
      if after.Panicked? then Panicked else Saved(after.replica, before.changes + after.changes)
  }

  lemma FeedNothing(r: Replica, logs: seq<Log>)
    requires logs == []
    ensures FeedAll(r, logs) == Saved(r, [])
  {
  }

  lemma FeedLast(r: Replica, logs: seq<Log>, n: nat)
    requires n < |logs|
    ensures FeedAll(r, logs[..n + 1]) == FeedThen(FeedAll(r, logs[..n]), logs[n])
  {
    hide FeedThen;
    assert logs[..n + 1][..n] == logs[..n];
  }

  lemma {:induction false} FeedSplit(r: Replica, logs: seq<Log>, k: nat)
    requires k <= |logs|
    ensures var head := FeedAll(r, logs[..k]);
            FeedAll(r, logs)
            == if head.Panicked? then Panicked
               else
                 var tail := FeedAll(head.replica, logs[k..]);
                 if tail.Panicked? then Panicked else Saved(tail.replica, head.changes + tail.changes)
  {
    hide Feed;
    var n := |logs| - 1;
    if k == |logs| {
      assert logs[..k] == logs && logs[k..] == [];
    } else {
      assert logs[..n][..k] == logs[..k] && logs[..n][k..] == logs[k..][..n - k] && logs[k..][n - k] == logs[n];
      FeedSplit(r, logs[..n], k);
    }
  }

  // The level index.

  /** The sizes of the orders resting at a price. */
  ghost function At(orders: map<int, Entry>, side: Side, price: int): map<int, int> {
    map id | id in orders && orders[id].side == side && orders[id].price == price :: orders[id].size
  }

  /** A level exists exactly when an order rests at its price; its size is the sum of their sizes
      and its count their number. */
  ghost predicate LevelIs(orders: map<int, Entry>, side: Side, levels: map<int, PriceLevel>, price: int) {
    var here := At(orders, side, price);
    if |here| == 0 then price !in levels
    else price in levels && levels[price] == PriceLevel(Total(here), |here|)
  }

  ghost predicate LevelsAgree(orders: map<int, Entry>, side: Side, levels: map<int, PriceLevel>) {
    forall price :: LevelIs(orders, side, levels, price)
  }

  ghost predicate Valid(r: Replica) {
    && (forall id :: id in r.orders ==> r.orders[id].size > 0)
    && LevelsAgree(r.orders, Sell, r.asks) && LevelsAgree(r.orders, Buy, r.bids)
  }

  /** The table with an order's size set. */
  function Resized(orders: map<int, Entry>, id: int, e: Entry): map<int, Entry> {
    if e.size == 0 then orders - {id} else orders[id := e]
  }

  lemma AtResized(orders: map<int, Entry>, id: int, e: Entry, side: Side, price: int)
    requires id in orders ==> orders[id] == e.(size := orders[id].size)
    ensures At(Resized(orders, id, e), side, price)
            == if side != e.side || price != e.price then At(orders, side, price)
               else if e.size == 0 then At(orders, side, price) - {id}
               else At(orders, side, price)[id := e.size]
  {
  }

  /** Resizing one order changes its level by the difference. */
  lemma LevelOfResized(orders: map<int, Entry>, id: int, e: Entry)
    requires id in orders ==> orders[id] == e.(size := orders[id].size)
    ensures var before, after := At(orders, e.side, e.price), At(Resized(orders, id, e), e.side, e.price);
            && Total(after) == Total(before) + (e.size - if id in orders then orders[id].size else 0)
            && |after| == |before| + (if e.size == 0 then 0 else 1) - (if id in orders then 1 else 0)
  {
    hide At, Total, Resized;
    AtResized(orders, id, e, e.side, e.price);
    AtOwn(orders, id, e);
    TotalOfChanged(At(orders, e.side, e.price), At(Resized(orders, id, e), e.side, e.price), id, e.size);
  }

  lemma TotalOfChanged(before: map<int, int>, after: map<int, int>, id: int, size: int)
    requires after == if size == 0 then before - {id} else before[id := size]
    ensures Total(after) == Total(before) + (size - if id in before then before[id] else 0)
    ensures |after| == |before| + (if size == 0 then 0 else 1) - (if id in before then 1 else 0)
  {
    hide Total;
    WithOne(before, id);
    WithOne(after, id);
    SameWithout(before, after, id, size);
  }

  lemma SameWithout(before: map<int, int>, after: map<int, int>, id: int, size: int)
    requires after == if size == 0 then before - {id} else before[id := size]
    ensures before - {id} == after - {id}
  {
    var a, b := before - {id}, after - {id};
    forall k ensures (k in a <==> k in b) && (k in a ==> a[k] == b[k]) {
    }
  }

  lemma AtOwn(orders: map<int, Entry>, id: int, e: Entry)
    requires id in orders ==> orders[id] == e.(size := orders[id].size)
    ensures var before := At(orders, e.side, e.price);
            (id in before <==> id in orders) && (id in before ==> before[id] == orders[id].size)
  {
  }

  lemma LevelPositive(orders: map<int, Entry>, side: Side, price: int)
    requires forall id :: id in orders ==> orders[id].size > 0
    ensures var here := At(orders, side, price); Total(here) >= |here| && (|here| == 0 ==> Total(here) == 0)
  {
    var here := At(orders, side, price);
    forall id | id in here ensures here[id] > 0 {
    }
    TotalPositive(here);
  }

  /** Saving an order under its own price and side never panics, sets exactly its size, and keeps
      the index in step. */
  lemma SaveKeepsValid(r: Replica, logSeq: nat, id: int, newSize: int, price: int, side: Side)
    requires Valid(r) && newSize >= 0
    requires id in r.orders ==> r.orders[id].price == price && r.orders[id].side == side
    ensures var s := Save(r, logSeq, id, newSize, price, side);
            s.Saved? && Valid(s.replica) && s.replica.orders == Resized(r.orders, id, Entry(newSize, price, side))
  {
    hide LevelIs, At, Total;
    var e := Entry(newSize, price, side);
    var s := Save(r, logSeq, id, newSize, price, side);
    if id !in r.orders && newSize == 0 {
      assert r.orders - {id} == r.orders;
    } else {
      SavedLevel(r, logSeq, id, e);
      OtherLevels(r, s.replica, id, e);
    }
  }

  lemma SavedLevel(r: Replica, logSeq: nat, id: int, e: Entry)
    requires Valid(r) && e.size >= 0 && (id in r.orders || e.size > 0)
    requires id in r.orders ==> r.orders[id] == e.(size := r.orders[id].size)
    ensures var s := Save(r, logSeq, id, e.size, e.price, e.side);
            s.Saved? && LevelIs(Resized(r.orders, id, e), e.side, s.replica.Levels(e.side), e.price)
  {
    hide At, Total;
    LevelOfResized(r.orders, id, e);
    assert LevelIs(r.orders, e.side, r.Levels(e.side), e.price);
    if id in r.orders { InItsLevel(r.orders, id); }
    PositiveResized(r.orders, id, e);
    LevelPositive(r.orders, e.side, e.price);
    LevelPositive(Resized(r.orders, id, e), e.side, e.price);
  }

  lemma InItsLevel(orders: map<int, Entry>, id: int)
    requires id in orders
    ensures |At(orders, orders[id].side, orders[id].price)| != 0
  {
    assert id in At(orders, orders[id].side, orders[id].price);
  }

  lemma OtherLevels(r: Replica, r': Replica, id: int, e: Entry)
    requires Valid(r) && r'.orders == Resized(r.orders, id, e) && e.size >= 0
    requires id in r.orders ==> r.orders[id] == e.(size := r.orders[id].size)
    requires r'.Levels(e.side.Opposite()) == r.Levels(e.side.Opposite())
    requires forall price :: price != e.price ==> (price in r'.Levels(e.side) <==> price in r.Levels(e.side))
    requires forall price :: price != e.price && price in r.Levels(e.side) ==>
             r'.Levels(e.side)[price] == r.Levels(e.side)[price]
    requires LevelIs(r'.orders, e.side, r'.Levels(e.side), e.price)
    ensures Valid(r')
  {
    hide At, Total, Resized;
    forall side: Side, price: int ensures LevelIs(r'.orders, side, r'.Levels(side), price) {
      if side != e.side || price != e.price {
        AtResized(r.orders, id, e, side, price);
        assert LevelIs(r.orders, side, r.Levels(side), price);
      }
    }
    assert LevelsAgree(r'.orders, Sell, r'.Levels(Sell)) && LevelsAgree(r'.orders, Buy, r'.Levels(Buy));
    PositiveResized(r.orders, id, e);
  }

  lemma PositiveResized(orders: map<int, Entry>, id: int, e: Entry)
    requires (forall x :: x in orders ==> orders[x].size > 0) && e.size >= 0
    ensures forall x :: x in Resized(orders, id, e) ==> Resized(orders, id, e)[x].size > 0
  {
  }
}
