/** The replica as it is kept in memory, with its snapshots, and the stream that feeds it. */
module ReplicaBook {
  import opened Market
  import opened Decimals
  import opened Replica
  import opened ReplicaSnapshots
  import opened Level2

  datatype LevelRow = LevelRow(price: int, size: int, count: int)

  datatype Level2Snapshot = Level2Snapshot(seqNo: nat, asks: seq<LevelRow>, bids: seq<LevelRow>)

  /** The best `n` levels of one side, best first. */
  ghost predicate IsTop(side: Side, levels: map<int, PriceLevel>, n: nat, rows: seq<LevelRow>) {
    && |rows| == Min(n, |levels|)
    && (forall i :: 0 <= i < |rows| ==>
          rows[i].price in levels && levels[rows[i].price] == PriceLevel(rows[i].size, rows[i].count))
    && (forall i, j :: 0 <= i < j < |rows| ==> Rank(side, rows[i].price) < Rank(side, rows[j].price))
    && (forall price :: price in levels && price !in PricesOf(rows) ==>
          forall i :: 0 <= i < |rows| ==> Rank(side, rows[i].price) < Rank(side, price))
  }

  function PricesOf(rows: seq<LevelRow>): (s: set<int>)
    ensures forall i :: 0 <= i < |rows| ==> rows[i].price in s
  {
    if rows == [] then {} else PricesOf(rows[..|rows| - 1]) + {rows[|rows| - 1].price}
  }

  /** The levels a client reads out of snapshot rows. */
  function SizesOfRows(rows: seq<LevelRow>): map<int, int> {
    if rows == [] then map[]
    else SizesOfRows(rows[..|rows| - 1])[rows[|rows| - 1].price := rows[|rows| - 1].size]
  }

  lemma {:induction false} RowsAreLevels(side: Side, levels: map<int, PriceLevel>, rows: seq<LevelRow>)
    requires forall i :: 0 <= i < |rows| ==>
      rows[i].price in levels && levels[rows[i].price] == PriceLevel(rows[i].size, rows[i].count)
    requires forall i, j :: 0 <= i < j < |rows| ==> Rank(side, rows[i].price) < Rank(side, rows[j].price)
    ensures |PricesOf(rows)| == |rows| && PricesOf(rows) <= levels.Keys && SizesOfRows(rows).Keys == PricesOf(rows)
    ensures forall price :: price in PricesOf(rows) ==> SizesOfRows(rows)[price] == levels[price].size
    ensures rows != [] ==> forall price :: price in PricesOf(rows) ==>
            Rank(side, price) <= Rank(side, rows[|rows| - 1].price)
  {
    if rows != [] {
      var n := |rows| - 1;
      RowsAreLevels(side, levels, rows[..n]);
    }
  }

  /** A snapshot shows no level wrong, and shows them all if they are no more than asked for. */
  lemma TopShows(side: Side, levels: map<int, PriceLevel>, n: nat, rows: seq<LevelRow>)
    requires IsTop(side, levels, n, rows)
    ensures SubMap(SizesOfRows(rows), SizesOf(levels))
    ensures |levels| <= n ==> SizesOfRows(rows) == SizesOf(levels)
  {
    RowsAreLevels(side, levels, rows);
    if |levels| <= n {
      assert |levels.Keys| == |levels|;
      SameByCount(PricesOf(rows), levels.Keys);
      assert SizesOf(levels).Keys == levels.Keys;
      SameMap(SizesOfRows(rows), SizesOf(levels));
    }
  }

  lemma SameMap(a: map<int, int>, b: map<int, int>)
    requires a.Keys == b.Keys && forall k :: k in a ==> a[k] == b[k]
    ensures a == b
  {
    forall k ensures (k in a <==> k in b) && (k in a ==> a[k] == b[k]) {
      assert k in a.Keys <==> k in b.Keys;
    }
  }

  lemma {:induction false} SameByCount(a: set<int>, b: set<int>)
    requires a <= b && |a| == |b|
    ensures a == b
  {
    assert b == a + (b - a) && |b| == |a| + |b - a|;
  }

  lemma {:induction false} SomeLeast(side: Side, keys: set<int>)
    ensures keys == {} || exists k :: IsLeast(side, keys, k)
    decreases |keys|
  {
    HasSomeElement(keys);
    if k :| k in keys {
      var rest := keys - {k};
      SomeLeast(side, rest);
      if rest == {} {
        assert IsLeast(side, keys, k);
      } else {
        var l :| IsLeast(side, rest, l);
        assert IsLeast(side, keys, if Rank(side, k) <= Rank(side, l) then k else l);
      }
    }
  }

  lemma HasSomeElement(keys: set<int>)
    ensures keys == {} <==> forall k :: k !in keys
  {
    if forall k :: k !in keys { assert keys == {}; }
  }

  predicate IsLeast(side: Side, keys: set<int>, k: int) {
    k in keys && forall l :: l in keys ==> Rank(side, k) <= Rank(side, l)
  }

  /** Midway through the tree map: the rows seen so far, all before the levels still to come. */
  ghost predicate Walked(side: Side, levels: map<int, PriceLevel>, rows: seq<LevelRow>, rest: set<int>) {
    && rest == levels.Keys - PricesOf(rows) && |levels| == |rows| + |rest|
    && (forall i :: 0 <= i < |rows| ==>
          rows[i].price in levels && levels[rows[i].price] == PriceLevel(rows[i].size, rows[i].count))
    && (forall i, j :: 0 <= i < j < |rows| ==> Rank(side, rows[i].price) < Rank(side, rows[j].price))
    && (forall i, price :: 0 <= i < |rows| && price in rest ==> Rank(side, rows[i].price) < Rank(side, price))
  }

  lemma WalkOn(side: Side, levels: map<int, PriceLevel>, rows: seq<LevelRow>, rest: set<int>, price: int)
    requires Walked(side, levels, rows, rest) && IsLeast(side, rest, price)
    ensures Walked(side, levels, rows + [LevelRow(price, levels[price].size, levels[price].count)], rest - {price})
  {
    var row := LevelRow(price, levels[price].size, levels[price].count);
    assert (rows + [row])[..|rows|] == rows;
    forall l | l in rest - {price} ensures Rank(side, price) < Rank(side, l) {
    }
  }

  class OrderBook {
    var orders: map<int, Entry>
    var asks: map<int, PriceLevel>
    var bids: map<int, PriceLevel>
    var seqNo: nat
    var logSeq: nat

    function View(): Replica
      reads this
    {
      Replica(orders, asks, bids, seqNo, logSeq)
    }

    constructor ()
      ensures View() == NewReplica()
    {
      orders, asks, bids, seqNo, logSeq := map[], map[], map[], 0, 0;
    }

    method SaveOrder(logSeq: nat, orderId: int, newSize: int, price: int, side: Side)
      returns (panicked: bool, change: Option<Change>)
      modifies this
      ensures var s := Save(old(View()), logSeq, orderId, newSize, price, side);
              if s.Panicked? then panicked
              else !panicked && s == Saved(View(), if change.Some? then [change.value] else [])
    {
      panicked, change := false, None;
      if newSize < 0 {
        panicked := true;
        return;
      }
      var priceLevels := if side.Sell? then asks else bids;
      var changedLevel;
      if orderId !in orders {
        if newSize == 0 {
          return;
        }
        orders := orders[orderId := Entry(newSize, price, side)];
        if price !in priceLevels {
          changedLevel := PriceLevel(newSize, 1);
        } else {
          changedLevel := PriceLevel(priceLevels[price].size + newSize, priceLevels[price].count + 1);
        }
        priceLevels := priceLevels[price := changedLevel];
      } else {
        var order := orders[orderId];
        var decrSize := order.size - newSize;
        order := order.(size := newSize);
        var removed := order.size == 0;
        if removed {
          orders := orders - {orderId};
        } else {
          orders := orders[orderId := order];
        }
        if price !in priceLevels {
          panicked := true;
          return;
        }
        changedLevel := priceLevels[price].(size := priceLevels[price].size - decrSize);
        if changedLevel.size == 0 {
          priceLevels := priceLevels - {price};
        } else {
          if removed {
            changedLevel := changedLevel.(count := changedLevel.count - 1);
          }
          priceLevels := priceLevels[price := changedLevel];
        }
      }
      if side.Sell? { asks := priceLevels; } else { bids := priceLevels; }
      this.logSeq, seqNo := logSeq, seqNo + 1;
      change := Some(Change(seqNo, side, price, changedLevel.size));
    }

    /** Walks the tree map of one side, best level first. */
    method TopLevels(side: Side, levels: nat) returns (rows: seq<LevelRow>)
      ensures IsTop(side, View().Levels(side), levels, rows)
    {
      var priceLevels := if side.Sell? then asks else bids;
      var rest := priceLevels.Keys;
      rows := [];
      while rest != {} && |rows| < levels
        invariant |rows| <= levels && Walked(side, priceLevels, rows, rest)
        decreases |rest|
      {
        SomeLeast(side, rest);
        var price :| price in rest && IsLeast(side, rest, price);
        WalkOn(side, priceLevels, rows, rest, price);
        rows := rows + [LevelRow(price, priceLevels[price].size, priceLevels[price].count)];
        rest := rest - {price};
      }
    }

    method SnapshotLevel2(levels: nat) returns (s: Level2Snapshot)
      ensures s.seqNo == seqNo && IsTop(Sell, asks, levels, s.asks) && IsTop(Buy, bids, levels, s.bids)
    {
      var bidRows := TopLevels(Buy, levels);
      var askRows := TopLevels(Sell, levels);
      s := Level2Snapshot(seqNo, askRows, bidRows);
    }

    /** The table yields its orders in no particular order. */
    method SnapshotFull() returns (s: FullSnapshot)
      ensures s.seqNo == seqNo && s.logSeq == logSeq && ListsTable(s.orders, orders)
    {
      var list: seq<BookOrder>, rest := [], orders.Keys;
      while rest != {}
        invariant rest <= orders.Keys
        invariant forall i, j :: 0 <= i < j < |list| ==> list[i].id != list[j].id
        invariant forall i :: 0 <= i < |list| ==>
                  list[i].id in orders && orders[list[i].id] == list[i].entry && list[i].id !in rest
        invariant forall id :: id in orders && id !in rest ==> exists i :: 0 <= i < |list| && list[i].id == id
        decreases |rest|
      {
        HasSomeElement(rest);
        var id :| id in rest;
        ghost var before := list;
        list := list + [BookOrder(id, orders[id])];
        assert list[|before|].id == id && forall i :: 0 <= i < |before| ==> list[i] == before[i];
        rest := rest - {id};
      }
      s := FullSnapshot(list, seqNo, logSeq);
    }

    /** Loads a snapshot into a new replica. */
    method Restore(snapshot: FullSnapshot) returns (panicked: bool)
      requires View() == NewReplica()
      modifies this
      ensures var r := RestoreFull(snapshot);
              if r.Panicked? then panicked else !panicked && View() == r.replica
    {
      var list := snapshot.orders;
      assert list[..0] == [];
      for k := 0 to |list|
        invariant SaveAll(NewReplica(), list[..k]).Saved? && View() == SaveAll(NewReplica(), list[..k]).replica
      {
        var order := list[k];
        assert list[..k + 1][..k] == list[..k];
        var change;
        panicked, change := SaveOrder(0, order.id, order.entry.size, order.entry.price, order.entry.side);
        if panicked {
          PanicSpreads(list, k + 1);
          return;
        }
      }
      assert list[..|list|] == list;
      seqNo, logSeq := snapshot.seqNo, snapshot.logSeq;
      panicked := false;
    }
  }

  lemma {:induction false} PanicSpreads(list: seq<BookOrder>, k: nat)
    requires k <= |list| && SaveAll(NewReplica(), list[..k]).Panicked?
    ensures SaveAll(NewReplica(), list).Panicked?
    decreases |list|
  {
    if k < |list| {
      assert list[..|list| - 1][..k] == list[..k];
      PanicSpreads(list[..|list| - 1], k);
    } else {
      assert list[..k] == list;
    }
  }

  /** The stream: the replica, the snapshot it offers to clients, and the number of the last full
      snapshot. `shown` is the replica the offered snapshot was taken of. */
  class OrderBookStream {
    const orderBook: OrderBook
    var lastLevel2Snapshot: Option<Level2Snapshot>
    var lastFullSnapshot: Option<FullSnapshot>
    ghost var shown: Replica

    /** The offered snapshot shows the best 1000 levels as they were at most ten changes before the
        last one it was due to follow. */
    ghost predicate Valid()
      reads this, orderBook
    {
      && (lastLevel2Snapshot.Some? ==> Shows(lastLevel2Snapshot.value, shown) && shown.seqNo <= orderBook.seqNo)
      && (lastFullSnapshot.Some? ==> lastFullSnapshot.value.seqNo <= orderBook.seqNo)
    }

    constructor (orderBook: OrderBook)
      ensures Valid() && this.orderBook == orderBook && lastLevel2Snapshot.None?
    {
      this.orderBook := orderBook;
      lastLevel2Snapshot, lastFullSnapshot := None, None;
    }

    /** One log out of the reader: feeds it, refreshes the snapshots that are due, and publishes the
        change. A done log of an order the replica does not hold is skipped. */
    method OnLog(log: Log) returns (panicked: bool, full: Option<FullSnapshot>, change: Option<Change>)
      requires Valid()
      modifies this, orderBook
      ensures panicked <==> Feed(old(orderBook.View()), log).Panicked?
      ensures !panicked ==>
        && Valid()
        && Feed(old(orderBook.View()), log) == Saved(orderBook.View(), if change.Some? then [change.value] else [])
        && (shown == old(shown) || shown == orderBook.View())
        && (change.Some? ==> lastLevel2Snapshot.Some? && orderBook.seqNo - 10 <= shown.seqNo)
        && (full.Some? ==> ListsTable(full.value.orders, orderBook.orders) && full.value.seqNo == orderBook.seqNo
                           && full.value.logSeq == orderBook.logSeq)
    {
      hide Feed, IsTop, ListsTable;
      full := None;
      FeedGrows(orderBook.View(), log);
      var skipped;
      panicked, skipped, change := Apply(log);
      if skipped {
        return;
      }
      if panicked {
        return;
      }
      if lastLevel2Snapshot.None? || orderBook.seqNo - lastLevel2Snapshot.value.seqNo > 10 {
        Refresh();
      }
      if lastFullSnapshot.None? || orderBook.seqNo - lastFullSnapshot.value.seqNo > 10000 {
        var snapshot := orderBook.SnapshotFull();
        lastFullSnapshot, full := Some(snapshot), Some(snapshot);
      }
    }

    /** Feeds one log to the replica. */
    method Apply(log: Log) returns (panicked: bool, skipped: bool, change: Option<Change>)
      modifies orderBook
      ensures panicked <==> Feed(old(orderBook.View()), log).Panicked?
      ensures !panicked ==>
              Feed(old(orderBook.View()), log) == Saved(orderBook.View(), if change.Some? then [change.value] else [])
      ensures skipped ==> !panicked && change.None? && orderBook.View() == old(orderBook.View())
    {
      hide Save;
      panicked, skipped, change := false, false, None;
      match log {
        case DoneLog(seqNo, id, price, remaining, _, side) =>
          if id !in orderBook.orders {
            skipped := true;
            return;
          }
          var newSize := orderBook.orders[id].size - remaining;
          panicked, change := orderBook.SaveOrder(seqNo, id, newSize, price, side);
        case OpenLog(seqNo, id, remaining, price, side) =>
          panicked, change := orderBook.SaveOrder(seqNo, id, remaining, price, side);
        case MatchLog(seqNo, _, _, makerId, side, price, size) =>
          if makerId !in orderBook.orders {
            panicked := true;
            return;
          }
          var newSize := orderBook.orders[makerId].size - size;
          panicked, change := orderBook.SaveOrder(seqNo, makerId, newSize, price, side);
      }
    }

    /** After 200 quiet milliseconds. */
    method OnTimer()
      requires Valid()
      modifies this
      ensures Valid() && lastLevel2Snapshot.Some? && shown.seqNo >= old(orderBook.seqNo)
    {
      if lastLevel2Snapshot.None? || orderBook.seqNo > lastLevel2Snapshot.value.seqNo {
        Refresh();
      }
    }

    method Refresh()
      modifies this`lastLevel2Snapshot, this`shown
      ensures lastLevel2Snapshot.Some? && Shows(lastLevel2Snapshot.value, shown) && shown == orderBook.View()
    {
      var snapshot := orderBook.SnapshotLevel2(1000);
      lastLevel2Snapshot, shown := Some(snapshot), orderBook.View();
    }
  }

  lemma FeedGrows(r: Replica, log: Log)
    ensures Feed(r, log).Saved? ==> r.seqNo <= Feed(r, log).replica.seqNo
  {
  }

  ghost predicate Shows(s: Level2Snapshot, r: Replica) {
    s.seqNo == r.seqNo && IsTop(Sell, r.asks, 1000, s.asks) && IsTop(Buy, r.bids, 1000, s.bids)
  }
}
