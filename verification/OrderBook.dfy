/** The engine's order book as it is kept in memory: for each side a table of orders by id and a
    tree map from (price, id) keys, both changed in place. Each method is proved equal to the
    operation of Book on the two queues that table and tree map stand for. */
module OrderBook {
  import opened Market
  import opened Decimals
  import opened DedupWindow
  import opened Book
  import Spec = Book
  import opened PriceTime
  import Recovery
  import opened BookInvariant

  datatype Key = Key(price: int, orderId: int)

  /** Index at which the tree map holds the key, or |q|. */
  function KeyIndex(q: seq<Key>, key: Key): (k: nat)
    ensures k <= |q|
    ensures k < |q| ==> q[k] == key
    ensures k == |q| <==> key !in q
  {
    if q == [] then 0 else if q[0] == key then 0 else 1 + KeyIndex(q[1..], key)
  }

  function KeySlot(side: Side, q: seq<Key>, key: Key): (k: nat)
    ensures k <= |q|
  {
    if q == [] || !Before(side, q[0].price, q[0].orderId, key.price, key.orderId) then 0
    else 1 + KeySlot(side, q[1..], key)
  }

  /** The tree map's `Put`: an equal key is kept, a new one goes to its place. */
  function PutKey(side: Side, q: seq<Key>, key: Key): seq<Key> {
    if key in q then q
    else
      var k := KeySlot(side, q, key);
      q[..k] + [key] + q[k..]
  }

  /** The tree map's `Remove`. */
  function RemoveKey(q: seq<Key>, key: Key): seq<Key> {
    var k := KeyIndex(q, key);
    if k < |q| then q[..k] + q[k + 1..] else q
  }

  /** Table and queue of one side hold the same orders under the same keys. */
  ghost predicate Agree(orders: map<int, Order>, queue: seq<Key>) {
    && (forall i :: 0 <= i < |queue| ==>
          queue[i].orderId in orders && orders[queue[i].orderId].id == queue[i].orderId
          && orders[queue[i].orderId].price == queue[i].price)
    && (forall i, j :: 0 <= i < j < |queue| ==> queue[i].orderId != queue[j].orderId)
    && (forall id :: id in orders ==> exists i :: 0 <= i < |queue| && queue[i].orderId == id)
  }

  ghost function QueueOf(orders: map<int, Order>, queue: seq<Key>): (q: seq<Order>)
    requires Agree(orders, queue)
    ensures |q| == |queue|
    ensures forall i :: 0 <= i < |q| ==> q[i] == orders[queue[i].orderId]
  {
    seq(|queue|, i requires 0 <= i < |queue| => orders[queue[i].orderId])
  }

  lemma AgreeHasId(orders: map<int, Order>, queue: seq<Key>, id: int)
    requires Agree(orders, queue)
    ensures id in orders <==> HasId(QueueOf(orders, queue), id)
    ensures forall key :: key in queue <==> key.orderId in orders && orders[key.orderId].price == key.price
  {
    var q := QueueOf(orders, queue);
    if id in orders {
      var i :| 0 <= i < |queue| && queue[i].orderId == id;
      assert q[i].id == id;
    }
    forall key: Key | key.orderId in orders && orders[key.orderId].price == key.price ensures key in queue {
      var i :| 0 <= i < |queue| && queue[i].orderId == key.orderId;
      assert queue[i] == key;
    }
  }

  lemma {:induction false} KeySlotIsSlot(side: Side, orders: map<int, Order>, queue: seq<Key>, q: seq<Order>,
                                         price: int, id: int)
    requires |q| == |queue| && forall i :: 0 <= i < |queue| ==>
             q[i].price == queue[i].price && q[i].id == queue[i].orderId
    ensures KeySlot(side, queue, Key(price, id)) == Slot(side, q, price, id)
  {
    if queue != [] && Before(side, queue[0].price, queue[0].orderId, price, id) {
      KeySlotIsSlot(side, orders, queue[1..], q[1..], price, id);
    }
  }

  /** Adding an order keeps table and queue together exactly when its id does not rest at
      another price: a repeated id would leave its old key behind. */
  lemma AddAgreesIff(side: Side, orders: map<int, Order>, queue: seq<Key>, o: Order)
    requires Agree(orders, queue)
    ensures Agree(orders[o.id := o], PutKey(side, queue, Key(o.price, o.id)))
            <==> (o.id in orders ==> orders[o.id].price == o.price)
  {
    var key := Key(o.price, o.id);
    AgreeHasId(orders, queue, o.id);
    if o.id !in orders {
      AddedAgree(side, orders, queue, o);
    } else if orders[o.id].price == o.price {
      assert PutKey(side, queue, key) == queue;
    } else {
      StaleKey(side, orders, queue, o);
    }
  }

  /** The old key of a repeated id stays in the queue, where the new price contradicts it. */
  lemma StaleKey(side: Side, orders: map<int, Order>, queue: seq<Key>, o: Order)
    requires Agree(orders, queue) && o.id in orders && orders[o.id].price != o.price
    ensures !Agree(orders[o.id := o], PutKey(side, queue, Key(o.price, o.id)))
  {
    hide KeySlot;
    var key := Key(o.price, o.id);
    KeyNotIn(orders, queue, o);
    var k := KeySlot(side, queue, key);
    var i :| 0 <= i < |queue| && queue[i].orderId == o.id;
    InsertedAtSlices(queue, k, key);
    KeyStays(orders[o.id := o], PutKey(side, queue, key), if i < k then i else i + 1);
  }

  lemma KeyNotIn(orders: map<int, Order>, queue: seq<Key>, o: Order)
    requires Agree(orders, queue) && o.id in orders && orders[o.id].price != o.price
    ensures Key(o.price, o.id) !in queue
  {
    AgreeHasId(orders, queue, o.id);
  }

  lemma KeyStays(orders: map<int, Order>, queue: seq<Key>, i: nat)
    requires i < |queue| && queue[i].orderId in orders && orders[queue[i].orderId].price != queue[i].price
    ensures !Agree(orders, queue)
  {
  }

  lemma AddedAgree(side: Side, orders: map<int, Order>, queue: seq<Key>, o: Order)
    requires Agree(orders, queue) && o.id !in orders
    ensures var orders', queue' := orders[o.id := o], PutKey(side, queue, Key(o.price, o.id));
            Agree(orders', queue') && QueueOf(orders', queue') == Insert(side, QueueOf(orders, queue), o)
  {
    var key, k := Key(o.price, o.id), KeySlot(side, queue, Key(o.price, o.id));
    AgreeHasId(orders, queue, o.id);
    var queue' := PutKey(side, queue, key);
    InsertedAtSlices(queue, k, key);
    InsertedKeysAgree(orders, queue, o, k, queue');
    KeySlotIsSlot(side, orders, queue, QueueOf(orders, queue), o.price, o.id);
    InsertedAtSlices(QueueOf(orders, queue), k, o);
    SameInserted(QueueOf(orders[o.id := o], queue'), Insert(side, QueueOf(orders, queue), o), QueueOf(orders, queue),
                 k, o);
  }

  lemma InsertedKeysAgree(orders: map<int, Order>, queue: seq<Key>, o: Order, k: nat, queue': seq<Key>)
    requires Agree(orders, queue) && o.id !in orders && InsertedAt(queue', queue, k, Key(o.price, o.id))
    ensures Agree(orders[o.id := o], queue')
    ensures InsertedAt(QueueOf(orders[o.id := o], queue'), QueueOf(orders, queue), k, o)
  {
    var orders' := orders[o.id := o];
    forall id | id in orders' ensures exists i :: 0 <= i < |queue'| && queue'[i].orderId == id {
      var i := if id == o.id then k else IndexIn(orders, queue, id, k);
      assert queue'[i].orderId == id;
    }
    forall i, j | 0 <= i < j < |queue'| ensures queue'[i].orderId != queue'[j].orderId {
      var a, c := if i < k then i else i - 1, if j < k then j else j - 1;
      assert i != k ==> queue[a].orderId in orders && queue'[i] == queue[a];
      assert j != k ==> queue[c].orderId in orders && queue'[j] == queue[c];
    }
  }

  /** Where the key of an id stands once a key is put at position k. */
  ghost function IndexIn(orders: map<int, Order>, queue: seq<Key>, id: int, k: nat): (i: nat)
    requires Agree(orders, queue) && id in orders && k <= |queue|
    ensures i <= |queue| && i != k && queue[if i < k then i else i - 1].orderId == id
  {
    var j :| 0 <= j < |queue| && queue[j].orderId == id;
    if j < k then j else j + 1
  }

  lemma RemovedAgree(orders: map<int, Order>, queue: seq<Key>, i: nat)
    requires Agree(orders, queue) && i < |queue|
    ensures var orders', queue' := orders - {queue[i].orderId}, RemoveKey(queue, queue[i]);
            Agree(orders', queue') && QueueOf(orders', queue') == Without(QueueOf(orders, queue), i)
  {
    var queue' := RemoveKey(queue, queue[i]);
    assert KeyIndex(queue, queue[i]) == i;
    RemovedAtSlices(queue, i);
    RemovedKeysAgree(orders, queue, i, queue');
    RemovedAtSlices(QueueOf(orders, queue), i);
    SameRemoved(QueueOf(orders - {queue[i].orderId}, queue'), Without(QueueOf(orders, queue), i),
                QueueOf(orders, queue), i);
  }

  lemma RemovedKeysAgree(orders: map<int, Order>, queue: seq<Key>, i: nat, queue': seq<Key>)
    requires Agree(orders, queue) && RemovedAt(queue', queue, i)
    ensures Agree(orders - {queue[i].orderId}, queue')
    ensures RemovedAt(QueueOf(orders - {queue[i].orderId}, queue'), QueueOf(orders, queue), i)
  {
    var orders' := orders - {queue[i].orderId};
    forall id | id in orders' ensures exists j :: 0 <= j < |queue'| && queue'[j].orderId == id {
      var j :| 0 <= j < |queue| && queue[j].orderId == id;
      assert queue'[if j < i then j else j - 1] == queue[j];
    }
    forall j | 0 <= j < |queue'| ensures queue'[j].orderId in orders' {
      assert queue'[j] == queue[if j < i then j else j + 1];
    }
    forall j, l | 0 <= j < l < |queue'| ensures queue'[j].orderId != queue'[l].orderId {
      assert queue'[j] == queue[if j < i then j else j + 1] && queue'[l] == queue[if l < i then l else l + 1];
    }
  }

  lemma ResizedAgree(orders: map<int, Order>, queue: seq<Key>, i: nat, size: int)
    requires Agree(orders, queue) && i < |queue|
    ensures var id := queue[i].orderId;
            var orders' := orders[id := orders[id].(size := size)];
            Agree(orders', queue) && QueueOf(orders', queue) == QueueOf(orders, queue)[i := orders[id].(size := size)]
  {
    ReplacedAgree(orders, queue, i, orders[queue[i].orderId].(size := size));
  }

  ghost predicate RestsElsewhere(orders: map<int, Order>, o: Order) {
    o.id in orders && orders[o.id].price != o.price
  }

  /** A new id goes to its place; one that rests at the same price is replaced where it stands. */
  ghost function Added(side: Side, q: seq<Order>, o: Order): seq<Order> {
    if HasId(q, o.id) then q[Find(q, o.id) := o] else Insert(side, q, o)
  }

  lemma AddedContents(side: Side, orders: map<int, Order>, queue: seq<Key>, o: Order)
    requires Agree(orders, queue) && !RestsElsewhere(orders, o)
    ensures var orders', queue' := orders[o.id := o], PutKey(side, queue, Key(o.price, o.id));
            Agree(orders', queue') && QueueOf(orders', queue') == Added(side, QueueOf(orders, queue), o)
  {
    AgreeHasId(orders, queue, o.id);
    if o.id !in orders {
      AddedAgree(side, orders, queue, o);
    } else {
      var i := FindKey(orders, queue, o.id);
      assert PutKey(side, queue, Key(o.price, o.id)) == queue;
      ReplacedAgree(orders, queue, i, o);
    }
  }

  lemma ReplacedAgree(orders: map<int, Order>, queue: seq<Key>, i: nat, o: Order)
    requires Agree(orders, queue) && i < |queue| && queue[i] == Key(o.price, o.id)
    ensures Agree(orders[o.id := o], queue) && QueueOf(orders[o.id := o], queue) == QueueOf(orders, queue)[i := o]
  {
    assert forall j :: 0 <= j < |queue| && j != i ==> orders[o.id := o][queue[j].orderId] == orders[queue[j].orderId];
  }

  class Depth {
    const side: Side
    var orders: map<int, Order>
    var queue: seq<Key>
    ghost var contents: seq<Order>

    ghost predicate Valid()
      reads this
    {
      Agree(orders, queue) && contents == QueueOf(orders, queue)
    }

    ghost predicate Empty()
      reads this
    {
      orders == map[] && queue == [] && contents == []
    }

    constructor (side: Side)
      ensures Valid() && Empty() && this.side == side
    {
      this.side, orders, queue, contents := side, map[], [], [];
    }

    /** An id that rests at another price leaves its old key behind, and table and queue part. */
    method Add(o: Order)
      modifies this
      ensures orders == old(orders)[o.id := o] && queue == PutKey(side, old(queue), Key(o.price, o.id))
      ensures old(Valid()) ==> (Valid() <==> !RestsElsewhere(old(orders), o))
      ensures old(Valid()) && Valid() ==> contents == Added(side, old(contents), o)
    {
      ghost var was := Valid();
      if was { AddAgreesIff(side, orders, queue, o); }
      ghost var orders0, queue0 := orders, queue;
      orders := orders[o.id := o];
      queue := PutKey(side, queue, Key(o.price, o.id));
      if Agree(orders, queue) {
        if was { AddedContents(side, orders0, queue0, o); }
        contents := QueueOf(orders, queue);
      } else {
        contents := [];
      }
    }

    /** The orders of the table. The table yields them in no particular order, and the contract
        fixes none. */
    method List() returns (list: seq<Order>)
      requires Valid()
      ensures |list| == |contents| && UniqueIds(list) && forall o :: o in list <==> o in contents
    {
      list := [];
      for i := 0 to |queue|
        invariant list == contents[..i]
      {
        list := list + [orders[queue[i].orderId]];
      }
    }

    method DecrSize(orderId: int, size: int) returns (ok: bool)
      requires Valid()
      modifies this
      ensures Valid()
      ensures ok <==> orderId in old(orders) && old(orders)[orderId].size >= size
      ensures !ok ==> orders == old(orders) && queue == old(queue) && contents == old(contents)
      ensures ok ==> contents == Reduced(old(contents), Find(old(contents), orderId), size)
    {
      hide Find, Agree, QueueOf, RemoveKey;
      if orderId !in orders || orders[orderId].size < size {
        return false;
      }
      ghost var i := FindKey(orders, queue, orderId);
      var order := orders[orderId];
      order := order.(size := order.size - size);
      if order.size == 0 {
        RemovedAgree(orders, queue, i);
        orders := orders - {orderId};
        queue := RemoveKey(queue, Key(order.price, orderId));
      } else {
        ResizedAgree(orders, queue, i, order.size);
        orders := orders[orderId := order];
      }
      contents := Reduced(contents, i, size);
      ok := true;
    }
  }

  lemma ListsBoth(sells: seq<Order>, buys: seq<Order>, asks: seq<Order>, bids: seq<Order>)
    requires UniqueIds(sells) && UniqueIds(buys) && DisjointIds(asks, bids)
    requires (forall o :: o in sells <==> o in asks) && (forall o :: o in buys <==> o in bids)
    ensures UniqueIds(sells + buys)
  {
    forall i, j | 0 <= i < |sells| && 0 <= j < |buys| ensures sells[i].id != buys[j].id {
      assert sells[i] in asks && buys[j] in bids;
    }
  }

  /** Table and tree map of one side after adding the listed orders one by one. */
  function Loaded(side: Side, list: seq<Order>): (map<int, Order>, seq<Key>) {
    if list == [] then (map[], [])
    else
      var (orders, queue), o := Loaded(side, list[..|list| - 1]), list[|list| - 1];
      if o.side == side then (orders[o.id := o], PutKey(side, queue, Key(o.price, o.id))) else (orders, queue)
  }

  predicate UniqueOn(side: Side, list: seq<Order>) {
    forall i, j :: 0 <= i < j < |list| && list[i].side == list[j].side == side ==> list[i].id != list[j].id
  }

  lemma {:induction false} LoadedIds(side: Side, list: seq<Order>, id: int)
    requires id in Loaded(side, list).0
    ensures exists i :: 0 <= i < |list| && list[i].side == side && list[i].id == id
    decreases |list|
  {
    hide PutKey;
    var n := |list| - 1;
    if list[n].side != side || list[n].id != id { LoadedIds(side, list[..n], id); }
  }

  /** The next listed order. */
  lemma LoadedNext(list: seq<Order>, i: nat)
    requires i < |list|
    ensures var o := list[i];
            forall side ::
              && Loaded(side, list[..i + 1])
                 == (var (orders, queue) := Loaded(side, list[..i]);
                     if o.side == side then (orders[o.id := o], PutKey(side, queue, Key(o.price, o.id)))
                         else (orders, queue))
              && Recovery.AddAll(side, [], list[..i + 1])
                 == (var q := Recovery.AddAll(side, [], list[..i]); if o.side == side then Insert(side, q, o) else q)
    ensures UniqueOn(list[i].side, list) ==> list[i].id !in Loaded(list[i].side, list[..i]).0
  {
    hide PutKey, Insert;
    assert list[..i + 1] == list[..i] + [list[i]] && list[..i + 1][..i] == list[..i];
    forall side { Recovery.AddAllLast(side, [], list[..i], list[i]); }
    if UniqueOn(list[i].side, list) && list[i].id in Loaded(list[i].side, list[..i]).0 {
      LoadedIds(list[i].side, list[..i], list[i].id);
    }
  }

  /** What `Snapshot` returns. */
  datatype SnapshotStruct = SnapshotStruct(orders: seq<Order>, logSeq: nat, tradeSeq: nat, window: WindowStruct) {
    /** The snapshot as it would be written now. */
    ghost function View(): Recovery.Snapshot
      reads window.bitmap
    {
      Recovery.Snapshot(orders, logSeq, tradeSeq, window.View(BitsOf(window.bitmap[..])))
    }
  }

  lemma FindKey(orders: map<int, Order>, queue: seq<Key>, id: int) returns (i: nat)
    requires Agree(orders, queue) && id in orders
    ensures i < |queue| && queue[i] == Key(orders[id].price, id)
    ensures i == Find(QueueOf(orders, queue), id)
  {
    AgreeHasId(orders, queue, id);
    i := Find(QueueOf(orders, queue), id);
  }

  /** The queue once the order at position i loses `size`. */
  ghost function Reduced(q: seq<Order>, i: nat, size: int): seq<Order> {
    if i >= |q| then q
    else if size == q[i].size then Without(q, i) else q[i := q[i].(size := q[i].size - size)]
  }

  /** The window of a new book. */
  method NewOrderIdWindow() returns (w: WindowStruct)
    ensures fresh(w.bitmap) && w.Valid() && w.View(BitsOf(w.bitmap[..])) == FreshWindow()
  {
    hide BitsOf;
    var cap := ORDER_ID_WINDOW_CAP;
    w := NewWindow(0, cap);
  }

  class OrderBook {
    const product: Product
    const asks: Depth
    const bids: Depth
    var tradeSeq: nat
    var logSeq: nat
    var orderIdWindow: WindowStruct

    ghost predicate Valid()
      reads this, asks, bids
    {
      && asks != bids && asks.side == Sell && bids.side == Buy
      && asks.Valid() && bids.Valid() && orderIdWindow.Valid()
    }

    ghost function View(): Book
      reads this, asks, bids, orderIdWindow.bitmap
      requires Valid()
    {
      Book(asks.contents, bids.contents, logSeq, tradeSeq, orderIdWindow.View(BitsOf(orderIdWindow.bitmap[..])))
    }

    function DepthOf(side: Side): Depth { if side.Sell? then asks else bids }

    /** The book after an application with outcome r, when `was`, `keys` and `queue` were the table, the
        tree map and the orders of its own side. */
    ghost predicate Applied(r: Outcome, logs: seq<Log>, order: Order, was: map<int, Order>, keys: seq<Key>,
                            queue: seq<Order>)
      reads this, asks, bids, orderIdWindow.bitmap
    {
      var own, makers := DepthOf(order.side), DepthOf(order.side.Opposite());
      var rests := logs != [] && logs[|logs| - 1].OpenLog?;
      var taker := if rests then order.(size := logs[|logs| - 1].remaining) else order;
      && r.Next? && logs == r.logs && asks != bids && asks.side == Sell && bids.side == Buy
      && makers.Valid() && makers.contents == r.book.Queue(order.side.Opposite())
      && logSeq == r.book.logSeq && tradeSeq == r.book.tradeSeq
      && orderIdWindow.Valid() && orderIdWindow.View(BitsOf(orderIdWindow.bitmap[..])) == r.book.window
      && (own.Valid() <==> !(rests && RestsElsewhere(was, order)))
      && own.orders == (if rests then was[order.id := taker] else was)
      && own.queue == (if rests then PutKey(order.side, keys, Key(order.price, order.id)) else keys)
      && (own.Valid() ==> own.contents == if rests then Added(order.side, queue, taker) else queue)
    }

    constructor (product: Product)
      ensures Valid() && View() == NewBook() && this.product == product
      ensures fresh(asks) && fresh(bids) && fresh(orderIdWindow.bitmap)
    {
      hide BitsOf, FreshWindow;
      var window := NewOrderIdWindow();
      this.product := product;
      asks := new Depth(Sell);
      bids := new Depth(Buy);
      tradeSeq, logSeq := 0, 0;
      orderIdWindow := window;
    }

    /** Applies an order: the logs, the counters, the window and the makers are as specified. So is
        the own side if the id does not rest there; if it does, the order takes its place in the table,
        which is sound if and only if the price is the same. */
    method ApplyOrder(order: Order) returns (panicked: bool, logs: seq<Log>)
      requires Valid()
      modifies this`tradeSeq, this`logSeq, asks, bids, orderIdWindow.bitmap
      ensures panicked <==> Spec.ApplyOrder(product, old(View()), order).Panicked?
      ensures !panicked && order.id !in old(DepthOf(order.side).orders) ==>
        Valid() && Spec.ApplyOrder(product, old(View()), order) == Next(View(), logs)
      ensures !panicked ==>
        Applied(Spec.ApplyOrder(product, old(View()), order), logs, order, old(DepthOf(order.side).orders),
                old(DepthOf(order.side).queue), old(DepthOf(order.side).contents))
    {
      hide Sweep, AfterSweep, BitsOf, Agree, QueueOf, Insert, PutKey, HasId, Added, RestsElsewhere, ClosingLog, Trades;
      panicked, logs := false, [];
      ghost var b := View();
      var ok := orderIdWindow.Put(order.id);
      if !ok {
        return;
      }
      var takerOrder := order;
      if takerOrder.kind.Market? {
        takerOrder := takerOrder.(price := if takerOrder.side.Buy? then product.topPrice else 0);
      }
      panicked, takerOrder, logs := MatchMakers(DepthOf(order.side.Opposite()), takerOrder);
      if panicked {
        assert AfterSweep(b, order, DividedByZero).Panicked? by { PanickedBook(b, order); }
        return;
      }
      SweepKeepsTaker(product, Priced(product, order), b.Queue(order.side.Opposite()), b.logSeq, b.tradeSeq);
      ghost var fills, makers := logs, DepthOf(order.side.Opposite()).contents;
      NewIsInserted(DepthOf(order.side), takerOrder);
      var closing := Close(takerOrder);
      logs := logs + [closing];
      ClosingTells(takerOrder, b.logSeq + |fills|);
      AppliedBook(b, order, takerOrder, makers, fills);
    }

    /** Rests the leftover of a limit order, or ends the taker. */
    method Close(taker: Order) returns (log: Log)
      requires DepthOf(taker.side).Valid()
      modifies this`logSeq, DepthOf(taker.side)
      ensures log == ClosingLog(taker, old(logSeq)) && logSeq == old(logSeq) + 1
      ensures var d := DepthOf(taker.side);
              if Rests(taker) then
                && d.orders == old(d.orders)[taker.id := taker]
                && d.queue == PutKey(d.side, old(d.queue), Key(taker.price, taker.id))
                && (d.Valid() <==> !RestsElsewhere(old(d.orders), taker))
                && (d.Valid() ==> d.contents == Added(d.side, old(d.contents), taker))
              else d.Valid() && d.orders == old(d.orders) && d.queue == old(d.queue) && d.contents == old(d.contents)
    {
      logSeq := logSeq + 1;
      if taker.kind.Limit? && taker.size > 0 {
        DepthOf(taker.side).Add(taker);
        log := OpenLog(logSeq, taker.id, taker.size, taker.price, taker.side);
      } else {
        var takerOrder, remainingSize, reason := taker, taker.size, Filled;
        if takerOrder.kind.Market? {
          takerOrder := takerOrder.(price := 0);
          remainingSize := 0;
          if (takerOrder.side.Sell? && takerOrder.size > 0) || (takerOrder.side.Buy? && takerOrder.funds > 0) {
            reason := Cancelled;
          }
        }
        log := DoneLog(logSeq, takerOrder.id, takerOrder.price, remainingSize, reason, takerOrder.side);
      }
    }

    method CancelOrder(order: Order) returns (logs: seq<Log>)
      requires Valid()
      modifies this`logSeq, asks, bids, orderIdWindow.bitmap
      ensures Valid() && Spec.CancelOrder(old(View()), order) == Next(View(), logs)
    {
      hide BitsOf;
      logs := [];
      ghost var b := View();
      var depth := DepthOf(order.side);
      var _ := orderIdWindow.Put(order.id);
      AgreeHasId(depth.orders, depth.queue, order.id);
      if order.id !in depth.orders {
        return;
      }
      ghost var i := FindKey(depth.orders, depth.queue, order.id);
      var bookOrder := depth.orders[order.id];
      var remainingSize := bookOrder.size;
      var ok := depth.DecrSize(order.id, bookOrder.size);
      assert ok;
      logSeq := logSeq + 1;
      logs := [DoneLog(logSeq, bookOrder.id, bookOrder.price, remainingSize, Cancelled, bookOrder.side)];
      CancelledBook(b, order, i, View());
    }

    /** The window is copied with its reference: the snapshot goes on sharing the bitmap. */
    method Snapshot() returns (s: SnapshotStruct)
      requires Valid()
      ensures s.logSeq == logSeq && s.tradeSeq == tradeSeq && s.window == orderIdWindow
      ensures |s.orders| == |asks.contents| + |bids.contents|
      ensures var sells, buys := s.orders[..|asks.contents|], s.orders[|asks.contents|..];
              && UniqueIds(sells) && (forall o :: o in sells <==> o in asks.contents)
              && UniqueIds(buys) && (forall o :: o in buys <==> o in bids.contents)
      ensures DisjointIds(asks.contents, bids.contents) ==> Recovery.Lists(s.orders, View())
    {
      var sells := asks.List();
      var buys := bids.List();
      s := SnapshotStruct(sells + buys, logSeq, tradeSeq, orderIdWindow);
      assert s.orders[..|sells|] == sells && s.orders[|sells|..] == buys;
      if DisjointIds(asks.contents, bids.contents) {
        ListsBoth(sells, buys, asks.contents, bids.contents);
      }
    }

    /** Loads a snapshot into a book that holds no orders yet, whatever it lists. When it lists no order
        of a side twice, the book is as specified. */
    method Restore(snapshot: SnapshotStruct)
      requires Valid() && asks.Empty() && bids.Empty()
      requires snapshot.window.Valid() || snapshot.window.cap == 0
      modifies this, asks, bids
      ensures (asks.orders, asks.queue) == Loaded(Sell, snapshot.orders)
      ensures (bids.orders, bids.queue) == Loaded(Buy, snapshot.orders)
      ensures logSeq == snapshot.logSeq && tradeSeq == snapshot.tradeSeq && orderIdWindow.Valid()
      ensures snapshot.window.cap != 0 ==> orderIdWindow == snapshot.window
      ensures UniqueOn(Sell, snapshot.orders) && UniqueOn(Buy, snapshot.orders) ==>
        Valid() && View() == Recovery.Restore(old(snapshot.View()))
    {
      hide BitsOf, Loaded, UniqueOn, Agree, QueueOf, Recovery.AddAll, FreshWindow;
      logSeq := snapshot.logSeq;
      tradeSeq := snapshot.tradeSeq;
      orderIdWindow := snapshot.window;
      if orderIdWindow.cap == 0 {
        orderIdWindow := NewOrderIdWindow();
      }
      AddOrders(snapshot.orders);
    }

    method AddOrders(orders: seq<Order>)
      requires asks != bids && asks.side == Sell && bids.side == Buy && asks.Empty() && bids.Empty()
      modifies asks, bids
      ensures (asks.orders, asks.queue) == Loaded(Sell, orders) && (bids.orders, bids.queue) == Loaded(Buy, orders)
      ensures UniqueOn(Sell, orders) ==> asks.Valid() && asks.contents == Recovery.AddAll(Sell, [], orders)
      ensures UniqueOn(Buy, orders) ==> bids.Valid() && bids.contents == Recovery.AddAll(Buy, [], orders)
    {
      hide PutKey, Insert;
      for i := 0 to |orders|
        invariant (asks.orders, asks.queue) == Loaded(Sell, orders[..i])
                  && (bids.orders, bids.queue) == Loaded(Buy, orders[..i])
        invariant UniqueOn(Sell, orders) ==> asks.Valid() && asks.contents == Recovery.AddAll(Sell, [], orders[..i])
        invariant UniqueOn(Buy, orders) ==> bids.Valid() && bids.contents == Recovery.AddAll(Buy, [], orders[..i])
      {
        ghost var o := orders[i];
        LoadedNext(orders, i);
        if DepthOf(o.side).Valid() { AgreeHasId(DepthOf(o.side).orders, DepthOf(o.side).queue, o.id); }
        DepthOf(orders[i].side).Add(orders[i]);
      }
      assert orders[..|orders|] == orders;
    }

    /** The loop over the maker queue; `taker` carries the amount still to trade. */
    method MatchMakers(makerDepth: Depth, order: Order) returns (panicked: bool, taker: Order, logs: seq<Log>)
      requires makerDepth.Valid()
      modifies this`tradeSeq, this`logSeq, makerDepth
      ensures makerDepth.Valid()
      ensures var r := Sweep(product, order, old(makerDepth.contents), old(logSeq), old(tradeSeq));
              if r.DividedByZero? then panicked else !panicked && r == Swept(taker, makerDepth.contents, logs)
      ensures !panicked ==> logSeq == old(logSeq) + |logs| && tradeSeq == old(tradeSeq) + Trades(logs)
    {
      hide Agree, QueueOf, Sweep, TradeLogs, Reduced, Crosses, Wants, Charge, Left, Midway;
      panicked, taker, logs := false, order, [];
      ghost var l, t, kept, rest := logSeq, tradeSeq, [], makerDepth.contents;
      ghost var p := product;
      ghost var r := Sweep(p, order, rest, l, t);
      MidwayAtStart(p, order, rest, l, t);
      var k := 0;
      while k < |makerDepth.queue|
        invariant !panicked && makerDepth.Valid() && k == |kept| && makerDepth.contents == kept + rest
                  && |makerDepth.queue| == |makerDepth.contents|
        invariant Midway(r, p, taker, kept, rest, logs, l, t, logSeq, tradeSeq)
        decreases |makerDepth.queue| - k
      {
        assert makerDepth.contents[k] == rest[0];
        ghost var ls, ts := logSeq, tradeSeq;
        var stop, size, filled, charged, emitted;
        stop, panicked, size, filled, charged, emitted := MatchMaker(makerDepth, k, taker);
        if panicked || stop {
          break;
        }
        kept, rest := LoopStep(r, p, taker, kept, rest, logs, l, t, ls, ts, size, charged, emitted);
        taker, logs := charged, logs + emitted;
        k := if filled then k else k + 1;
      }
      EndsMidway(panicked, r, p, taker, kept, rest, logs, l, t, logSeq, tradeSeq);
    }

    /** The loop body: stops, panics, or trades with the maker at position k. */
    method MatchMaker(makerDepth: Depth, k: nat, taker: Order)
      returns (stop: bool, panicked: bool, size: int, filled: bool, charged: Order, emitted: seq<Log>)
      requires makerDepth.Valid() && k < |makerDepth.queue| == |makerDepth.contents|
      modifies this`tradeSeq, this`logSeq, makerDepth
      ensures makerDepth.Valid() && |makerDepth.queue| == |makerDepth.contents|
      ensures var m := old(makerDepth.contents[k]);
        && (panicked <==> Crosses(taker, m) && taker.IsMarketBuy() && taker.funds != 0 && m.price == 0)
        && (!panicked ==>
              (stop <==> !Crosses(taker, m) || (taker.IsMarketBuy() && taker.funds == 0)
                         || Wants(product, taker, m) == 0))
        && (panicked || stop ==>
              makerDepth.contents == old(makerDepth.contents) && logSeq == old(logSeq) && tradeSeq == old(tradeSeq))
        && (!panicked && !stop ==>
              && size == Min(Wants(product, taker, m), m.size) && charged == Charge(taker, m.price, size)
              && emitted == TradeLogs(taker.id, m, size, old(logSeq), old(tradeSeq)) && filled == (size == m.size)
              && makerDepth.contents == Reduced(old(makerDepth.contents), k, size)
              && logSeq == old(logSeq) + |emitted| && tradeSeq == old(tradeSeq) + 1)
    {
      var makerOrder := makerDepth.orders[makerDepth.queue[k].orderId];
      emitted := [];
      stop, panicked, size, charged := TradeSize(taker, makerOrder);
      filled := size == makerOrder.size;
      if !panicked && !stop {
        emitted := Trade(makerDepth, k, taker.id, size);
      }
    }

    /** Whether the loop stops at this maker, and otherwise the trade size and the charged taker. */
    method TradeSize(taker: Order, makerOrder: Order) returns (stop: bool, panicked: bool, size: int, charged: Order)
      ensures panicked
              <==> Crosses(taker, makerOrder) && taker.IsMarketBuy() && taker.funds != 0 && makerOrder.price == 0
      ensures !panicked ==>
        (stop <==> !Crosses(taker, makerOrder) || (taker.IsMarketBuy() && taker.funds == 0)
                   || Wants(product, taker, makerOrder) == 0)
      ensures !panicked && !stop ==> size == Min(Wants(product, taker, makerOrder), makerOrder.size)
      ensures !panicked && !stop ==> charged == Charge(taker, makerOrder.price, size)
    {
      stop, panicked, size, charged := true, false, 0, taker;
      if (taker.side.Buy? && taker.price < makerOrder.price) || (taker.side.Sell? && taker.price > makerOrder.price) {
        return;
      }
      if taker.kind.Limit? || (taker.kind.Market? && taker.side.Sell?) {
        if taker.size == 0 {
          return;
        }
        size := Min(taker.size, makerOrder.size);
        charged := taker.(size := taker.size - size);
      } else {
        if taker.funds == 0 {
          return;
        }
        if makerOrder.price == 0 {
          panicked := true;
          return;
        }
        var takerSize := BuyableSize(taker.funds, makerOrder.price, product.unit);
        if takerSize == 0 {
          return;
        }
        size := Min(takerSize, makerOrder.size);
        var funds := size * makerOrder.price;
        charged := taker.(funds := taker.funds - funds);
      }
      stop := false;
    }

    /** One trade with the maker at position k: its size falls, and the trade is logged. */
    method Trade(makerDepth: Depth, k: nat, takerId: int, size: int) returns (logs: seq<Log>)
      requires makerDepth.Valid() && k < |makerDepth.queue| == |makerDepth.contents|
      requires size <= makerDepth.contents[k].size
      modifies this`tradeSeq, this`logSeq, makerDepth
      ensures makerDepth.Valid() && makerDepth.contents == Reduced(old(makerDepth.contents), k, size)
      ensures logs == TradeLogs(takerId, old(makerDepth.contents[k]), size, old(logSeq), old(tradeSeq))
      ensures logSeq == old(logSeq) + |logs| && tradeSeq == old(tradeSeq) + 1
    {
      var makerOrder := makerDepth.orders[makerDepth.queue[k].orderId];
      var ok := makerDepth.DecrSize(makerOrder.id, size);
      assert ok;
      logSeq, tradeSeq := logSeq + 1, tradeSeq + 1;
      logs := [MatchLog(logSeq, tradeSeq, takerId, makerOrder.id, makerOrder.side, makerOrder.price, size)];
      if makerOrder.size - size == 0 {
        logSeq := logSeq + 1;
        logs := logs + [DoneLog(logSeq, makerOrder.id, makerOrder.price, 0, Filled, makerOrder.side)];
      }
    }
  }

  lemma PanickedBook(b: Book, o: Order)
    requires b.window.Valid()
    ensures AfterSweep(b, o, DividedByZero).Panicked?
  {
  }

  ghost function BookAfter(b: Book, o: Order, taker: Order, makers: seq<Order>, fills: seq<Log>): Book
    requires b.window.Valid()
  {
    var own := if Rests(taker) then Insert(o.side, b.Queue(o.side), taker) else b.Queue(o.side);
    b.WithQueue(o.side.Opposite(), makers).WithQueue(o.side, own).(
      logSeq := b.logSeq + |fills| + 1, tradeSeq := b.tradeSeq + Trades(fills), window := b.window.Put(o.id))
  }

  lemma AppliedBook(b: Book, o: Order, taker: Order, makers: seq<Order>, fills: seq<Log>)
    requires b.window.Valid()
    ensures AfterSweep(b, o, Swept(taker, makers, fills))
            == Next(BookAfter(b, o, taker, makers, fills), fills + [ClosingLog(taker, b.logSeq + |fills|)])
  {
    hide Insert, ClosingLog, Trades;
  }

  lemma ClosingTells(taker: Order, l: nat)
    ensures var log := ClosingLog(taker, l);
            (log.OpenLog? <==> Rests(taker)) && (log.OpenLog? ==> log.remaining == taker.size)
  {
  }

  lemma NewIsInserted(d: Depth, o: Order)
    requires d.Valid()
    ensures o.id !in d.orders ==>
            !RestsElsewhere(d.orders, o) && Added(d.side, d.contents, o) == Insert(d.side, d.contents, o)
    ensures forall x: Order :: x.id == o.id && x.price == o.price ==>
            RestsElsewhere(d.orders, x) == RestsElsewhere(d.orders, o)
  {
    AgreeHasId(d.orders, d.queue, o.id);
  }

  lemma CancelledBook(b: Book, o: Order, i: nat, b': Book)
    requires b.window.Valid() && i == Find(b.Queue(o.side), o.id) < |b.Queue(o.side)|
    requires b'.Queue(o.side) == Without(b.Queue(o.side), i)
             && b'.Queue(o.side.Opposite()) == b.Queue(o.side.Opposite())
    requires b'.logSeq == b.logSeq + 1 && b'.tradeSeq == b.tradeSeq && b'.window == b.window.Put(o.id)
    ensures var q := b.Queue(o.side);
            Spec.CancelOrder(b, o)
                == Next(b', [DoneLog(b'.logSeq, q[i].id, q[i].price, q[i].size, Cancelled, q[i].side)])
  {
  }

  /** The loop's account of a sweep that began at l0 and t0: what was kept and logged so far, and
      the sweep still to do. */
  ghost predicate Midway(r: SweepResult, p: Product, taker: Order, kept: seq<Order>, rest: seq<Order>, logs: seq<Log>,
                         l0: nat, t0: nat, l: nat, t: nat)
  {
    r == Prepend(kept, logs, Sweep(p, taker, rest, l, t)) && l == l0 + |logs| && t == t0 + Trades(logs)
  }

  lemma MidwayAtStart(p: Product, taker: Order, makers: seq<Order>, l: nat, t: nat)
    ensures Midway(Sweep(p, taker, makers, l, t), p, taker, [], makers, [], l, t, l, t)
  {
    PrependNothing(Sweep(p, taker, makers, l, t));
  }

  /** One iteration keeps that account. */
  lemma LoopStep(r: SweepResult, p: Product, taker: Order, kept: seq<Order>, rest: seq<Order>, logs: seq<Log>,
                 l0: nat, t0: nat, l: nat, t: nat, size: int, charged: Order, emitted: seq<Log>)
    returns (kept': seq<Order>, rest': seq<Order>)
    requires rest != [] && Midway(r, p, taker, kept, rest, logs, l0, t0, l, t) && Crosses(taker, rest[0])
    requires taker.IsMarketBuy() ==> taker.funds != 0 && rest[0].price != 0
    requires Wants(p, taker, rest[0]) != 0 && size == Min(Wants(p, taker, rest[0]), rest[0].size)
    requires charged == Charge(taker, rest[0].price, size) && emitted == TradeLogs(taker.id, rest[0], size, l, t)
    ensures Midway(r, p, charged, kept', rest', logs + emitted, l0, t0, l + |emitted|, t + 1)
    ensures Reduced(kept + rest, |kept|, size) == kept' + rest'
    ensures |kept'| == (if size == rest[0].size then |kept| else |kept| + 1) && |rest'| == |rest| - 1
  {
    kept', rest' := kept + Left(rest[0], size), rest[1..];
    EmittedTrades(logs, emitted);
    ReducedAt(kept, rest, size);
    SweepStep(p, taker, rest, l, t, size);
    PrependTwice(kept, logs, Left(rest[0], size), emitted, Sweep(p, charged, rest[1..], l + |emitted|, t + 1));
  }

  lemma ReducedAt(kept: seq<Order>, rest: seq<Order>, size: int)
    requires rest != []
    ensures Reduced(kept + rest, |kept|, size) == kept + Left(rest[0], size) + rest[1..]
  {
  }

  /** Out of the loop the account is the whole sweep. */
  lemma EndsMidway(panicked: bool, r: SweepResult, p: Product, taker: Order, kept: seq<Order>, rest: seq<Order>,
                   logs: seq<Log>, l0: nat, t0: nat, l: nat, t: nat)
    requires Midway(r, p, taker, kept, rest, logs, l0, t0, l, t)
    requires panicked
             <==> rest != [] && Crosses(taker, rest[0]) && taker.IsMarketBuy() && taker.funds != 0 && rest[0].price == 0
    requires panicked || rest == [] || !Crosses(taker, rest[0]) || (taker.IsMarketBuy() && taker.funds == 0)
             || Wants(p, taker, rest[0]) == 0
    ensures r == if panicked then DividedByZero else Swept(taker, kept + rest, logs)
    ensures l == l0 + |logs| && t == t0 + Trades(logs)
  {
    assert logs + [] == logs;
  }

  lemma PrependNothing(r: SweepResult)
    ensures r == Prepend([], [], r)
  {
    if r.Swept? { assert [] + r.makers == r.makers && [] + r.logs == r.logs; }
  }

  lemma PrependTwice(kept: seq<Order>, logs: seq<Log>, kept': seq<Order>, logs': seq<Log>, r: SweepResult)
    ensures Prepend(kept, logs, Prepend(kept', logs', r)) == Prepend(kept + kept', logs + logs', r)
  {
    if r.Swept? {
      assert kept + (kept' + r.makers) == kept + kept' + r.makers;
      assert logs + (logs' + r.logs) == logs + logs' + r.logs;
    }
  }

  lemma {:induction false} EmittedTrades(logs: seq<Log>, emitted: seq<Log>)
    requires 1 <= |emitted| <= 2 && emitted[0].MatchLog? && (|emitted| == 2 ==> !emitted[1].MatchLog?)
    ensures Trades(logs + emitted) == Trades(logs) + 1
  {
    if logs == [] {
      assert logs + emitted == emitted;
      assert Trades(emitted[1..]) == 0;
    } else {
      assert (logs + emitted)[1..] == logs[1..] + emitted;
      EmittedTrades(logs[1..], emitted);
    }
  }
}
