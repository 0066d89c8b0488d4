/** Snapshots: restoring one and replaying the orders after it continues the interrupted run. */
module Recovery {
  import opened Market
  import opened Decimals
  import opened DedupWindow
  import opened Book
  import opened PriceTime
  import opened BookInvariant

  /** What `Snapshot` records of a book; the orders come in whatever order the tables yield them. */
  datatype Snapshot = Snapshot(orders: seq<Order>, logSeq: nat, tradeSeq: nat, window: Window)

  ghost predicate Lists(orders: seq<Order>, b: Book) {
    UniqueIds(orders) && forall o :: o in orders <==> o in b.asks || o in b.bids
  }

  /** `depth.add` for every listed order of one side. */
  function AddAll(side: Side, q: seq<Order>, orders: seq<Order>): seq<Order>
    decreases orders
  {
    if orders == [] then q
    else AddAll(side, if orders[0].side == side then Insert(side, q, orders[0]) else q, orders[1..])
  }

  /** A fresh book after `Restore`. */
  function Restore(s: Snapshot): Book {
    Book(AddAll(Sell, [], s.orders), AddAll(Buy, [], s.orders), s.logSeq, s.tradeSeq,
         if s.window.cap == 0 then FreshWindow() else s.window)
  }

  lemma {:induction false} AddAllOrders(side: Side, q: seq<Order>, orders: seq<Order>)
    requires QueueInv(side, q) && UniqueIds(orders)
    requires forall i :: 0 <= i < |orders| ==> !HasId(q, orders[i].id)
    requires forall i :: 0 <= i < |orders| && orders[i].side == side ==>
      orders[i].size > 0 && orders[i].kind.Limit?
    ensures QueueInv(side, AddAll(side, q, orders))
    ensures forall o :: o in AddAll(side, q, orders) <==> o in q || (o in orders && o.side == side)
    decreases orders
  {
    if orders != [] {
      var o, rest := orders[0], orders[1..];
      assert UniqueIds(rest) && orders == [o] + rest;
      if o.side == side {
        var k := InsertInv(side, q, o);
        var q' := Insert(side, q, o);
        InsertedElements(q, k, o, q');
        assert forall i :: 0 <= i < |rest| ==> rest[i].id != o.id && !HasId(q, rest[i].id) by {
          assert forall i :: 0 <= i < |rest| ==> rest[i] == orders[i + 1];
        }
        AddAllOrders(side, q', rest);
      } else {
        AddAllOrders(side, q, rest);
      }
    }
  }

  lemma {:induction false} AddAllLast(side: Side, q: seq<Order>, orders: seq<Order>, o: Order)
    ensures AddAll(side, q, orders + [o])
            == if o.side == side then Insert(side, AddAll(side, q, orders), o) else AddAll(side, q, orders)
    decreases orders
  {
    if orders == [] {
      assert orders + [o] == [o] && [o][1..] == [];
    } else {
      assert (orders + [o])[1..] == orders[1..] + [o];
      AddAllLast(side, if orders[0].side == side then Insert(side, q, orders[0]) else q, orders[1..], o);
    }
  }

  lemma InsertedElements(q: seq<Order>, k: nat, o: Order, r: seq<Order>)
    requires InsertedAt(r, q, k, o)
    ensures forall x :: x in r <==> x in q || x == o
    ensures forall id :: HasId(r, id) ==> HasId(q, id) || id == o.id
  {
    forall x | x in q ensures x in r {
      var i :| 0 <= i < |q| && q[i] == x;
      assert r[if i < k then i else i + 1] == x;
    }
    assert r[k] == o;
    forall id | HasId(r, id) ensures HasId(q, id) || id == o.id {
      var i :| 0 <= i < |r| && r[i].id == id;
      if i != k { assert q[if i < k then i else i - 1].id == id; }
    }
  }

  /** A queue is determined by its orders. */
  lemma {:induction false} SortedUnique(side: Side, q: seq<Order>, r: seq<Order>)
    requires QueueInv(side, q) && QueueInv(side, r)
    requires forall o :: o in q <==> o in r
    ensures q == r
  {
    assert |q| > 0 ==> q[0] in r;
    assert |r| > 0 ==> r[0] in q;
    if q != [] {
      SameHead(side, q, r);
      assert q == [q[0]] + q[1..] && r == [r[0]] + r[1..];
      forall o ensures o in q[1..] <==> o in r[1..] {
        assert o in q[1..] <==> o in q && o != q[0] by { TailElements(q, o); }
        assert o in r[1..] <==> o in r && o != r[0] by { TailElements(r, o); }
      }
      SortedUnique(side, q[1..], r[1..]);
    }
  }

  lemma TailElements(q: seq<Order>, o: Order)
    requires q != [] && UniqueIds(q)
    ensures o in q[1..] <==> o in q && o != q[0]
  {
    if o in q && o != q[0] {
      var i :| 0 <= i < |q| && q[i] == o;
      assert q[1..][i - 1] == o;
    }
  }

  lemma SameHead(side: Side, q: seq<Order>, r: seq<Order>)
    requires QueueInv(side, q) && QueueInv(side, r) && q != [] && r != []
    requires forall o :: o in q <==> o in r
    ensures q[0] == r[0]
  {
    assert q[0] in r && r[0] in q;
    var j :| 0 <= j < |r| && r[j] == q[0];
    var i :| 0 <= i < |q| && q[i] == r[0];
    HeadFirst(side, q, i);
    HeadFirst(side, r, j);
  }

  lemma HeadFirst(side: Side, q: seq<Order>, i: nat)
    requires SortedQueue(side, q) && i < |q|
    ensures i == 0 || Before(side, q[0].price, q[0].id, q[i].price, q[i].id)
  {
  }

  /** Restoring a snapshot gives back the very book it was taken of, however it lists the orders. */
  lemma RestoreIsIdentity(b: Book, s: Snapshot)
    requires Inv(b) && Lists(s.orders, b)
    requires s.logSeq == b.logSeq && s.tradeSeq == b.tradeSeq && s.window == b.window
    ensures Restore(s) == b
  {
    forall i | 0 <= i < |s.orders|
      ensures s.orders[i].size > 0 && s.orders[i].kind.Limit?
    {
      assert s.orders[i] in s.orders;
    }
    AddAllOrders(Sell, [], s.orders);
    AddAllOrders(Buy, [], s.orders);
    SortedUnique(Sell, AddAll(Sell, [], s.orders), b.asks);
    SortedUnique(Buy, AddAll(Buy, [], s.orders), b.bids);
  }

  /** For every stream with unique ids and every cut it reaches, a snapshot at the cut, restored into a
      fresh book, replays the rest of the stream with the same logs to the same book as the
      uninterrupted run, or panics where that does. */
  lemma RecoveryEquivalence(p: Product, cmds: seq<Command>, cut: nat, s: Snapshot)
    requires UniqueRun(cmds) && cut <= |cmds|
    requires var b := Run(p, cmds[..cut]);
             b.Next? && Lists(s.orders, b.book) && s.logSeq == b.book.logSeq
             && s.tradeSeq == b.book.tradeSeq && s.window == b.book.window
    ensures var tail := Replay(p, Restore(s), cmds[cut..]);
            Run(p, cmds) == if tail.Panicked? then Panicked
                            else Next(tail.book, Run(p, cmds[..cut]).logs + tail.logs)
  {
    hide Replay;
    UniquePrefix(cmds, cut);
    RunKeepsInv(p, cmds[..cut]);
    RestoreIsIdentity(Run(p, cmds[..cut]).book, s);
    ReplaySplit(p, NewBook(), cmds, cut);
  }

  // The snapshot shares the bitmap with the running book: what reaches the store are the bits at
  // the time it is written, after some of the orders that will be replayed.

  predicate SameButWindow(b1: Book, b2: Book) { b1 == b2.(window := b1.window) }

  /** Whether an order inside the range of the window was let through between the two cuts. */
  ghost predicate ScreenedLater(p: Product, cmds: seq<Command>, cut: nat, late: nat)
    requires cut <= late <= |cmds|
  {
    exists i :: cut <= i < late && PassedInRange(p, cmds, i)
  }

  predicate PassedInRange(p: Product, cmds: seq<Command>, i: nat)
    requires i < |cmds|
  {
    var before := Run(p, cmds[..i]);
    before.Next? && cmds[i].Submit?
    && cmds[i].order.id <= before.book.window.max && before.book.window.Accepts(cmds[i].order.id)
  }

  /** A command that both windows treat alike has the same effect on books that differ in the window only. */
  lemma ExecuteAlike(p: Product, b1: Book, b2: Book, c: Command)
    requires b1.window.Valid() && b2.window.Valid() && SameButWindow(b1, b2)
    requires c.Submit? ==> b1.window.Accepts(c.order.id) == b2.window.Accepts(c.order.id)
    ensures var r1, r2 := Execute(p, b1, c), Execute(p, b2, c);
            r1.Next? == r2.Next?
            && (r1.Next? ==>
                  && SameButWindow(r1.book, r2.book) && r1.logs == r2.logs
                  && r1.book.window == b1.window.Put(c.order.id) && r2.book.window == b2.window.Put(c.order.id))
  {
    hide Sweep, Insert, Find, Without, ClosingLog, Trades;
    assert b1.asks == b2.asks && b1.bids == b2.bids;
  }

  /** The window after a command. */
  lemma ExecuteWindow(p: Product, b: Book, c: Command)
    requires b.window.Valid() && Execute(p, b, c).Next?
    ensures Execute(p, b, c).book.window == b.window.Put(c.order.id)
  {
    hide Sweep;
  }

  /** Bits are only ever set. */
  lemma {:induction false} WindowGrows(p: Product, cmds: seq<Command>, i: nat, j: nat)
    requires i <= j <= |cmds| && Run(p, cmds[..j]).Next?
    ensures Run(p, cmds[..i]).Next?
    ensures var w1, w2 := Run(p, cmds[..i]).book.window, Run(p, cmds[..j]).book.window;
            w1 == w2.(used := w1.used) && w1.used <= w2.used
  {
    hide Run, Replay, Execute;
    if i < j {
      RunLast(p, cmds, j - 1);
      WindowGrows(p, cmds, i, j - 1);
      ExecuteWindow(p, Run(p, cmds[..j - 1]).book, cmds[j - 1]);
    }
  }

  /** The replay from a snapshot whose window has the bits `used`. */
  function LateReplay(p: Product, cmds: seq<Command>, cut: nat, late: nat, n: nat): Outcome
    requires cut <= n <= |cmds| && cut <= late <= |cmds|
    requires Run(p, cmds[..cut]).Next? && Run(p, cmds[..late]).Next?
  {
    var b := Run(p, cmds[..cut]).book;
    Replay(p, b.(window := b.window.(used := Run(p, cmds[..late]).book.window.used)), cmds[cut..n])
  }

  lemma StepOfLateReplay(p: Product, cmds: seq<Command>, cut: nat, late: nat, n: nat)
    requires cut <= n < |cmds| && cut <= late <= |cmds|
    requires Run(p, cmds[..cut]).Next? && Run(p, cmds[..late]).Next?
    ensures LateReplay(p, cmds, cut, late, n).Next? ==> LateReplay(p, cmds, cut, late, n).book.window.Valid()
    ensures LateReplay(p, cmds, cut, late, n + 1) == Then(p, LateReplay(p, cmds, cut, late, n), cmds[n])
  {
    hide Then, Run, Replay;
    assert cmds[cut..][..n - cut] == cmds[cut..n] && cmds[cut..][..n + 1 - cut] == cmds[cut..n + 1];
    var b := Run(p, cmds[..cut]).book;
    ReplayLast(p, b.(window := b.window.(used := Run(p, cmds[..late]).book.window.used)), cmds[cut..], n - cut);
  }

  /** As long as no order inside the range was let through in between, the late bits change nothing. */
  lemma {:induction false} LateBitsHarmless(p: Product, cmds: seq<Command>, cut: nat, late: nat, n: nat)
    requires cut <= n <= |cmds| && cut <= late <= |cmds| && Run(p, cmds).Next?
    requires Run(p, cmds[..cut]).Next? && Run(p, cmds[..late]).Next? && Run(p, cmds[..n]).Next?
    requires forall i :: cut <= i < n && i < late ==> !PassedInRange(p, cmds, i)
    ensures var r, o := LateReplay(p, cmds, cut, late, n), Run(p, cmds[..n]);
            r.Next? && SameButWindow(r.book, o.book) && Run(p, cmds[..cut]).logs + r.logs == o.logs
            && r.book.window == o.book.window.(used := r.book.window.used)
            && r.book.window.used == if n <= late then Run(p, cmds[..late]).book.window.used else o.book.window.used
  {
    hide Run, Replay, Execute, PassedInRange;
    if n == cut {
      LateReplayStart(p, cmds, cut, late);
    } else {
      WindowGrows(p, cmds, n - 1, n);
      LateBitsHarmless(p, cmds, cut, late, n - 1);
      LateBitsStep(p, cmds, cut, late, n - 1);
    }
  }

  lemma LateReplayStart(p: Product, cmds: seq<Command>, cut: nat, late: nat)
    requires cut <= late <= |cmds|
    requires Run(p, cmds[..cut]).Next? && Run(p, cmds[..late]).Next?
    ensures var b := Run(p, cmds[..cut]).book;
            LateReplay(p, cmds, cut, late, cut)
            == Next(b.(window := b.window.(used := Run(p, cmds[..late]).book.window.used)), [])
  {
    hide Run, Then;
    assert cmds[cut..cut] == [];
  }

  lemma LateBitsStep(p: Product, cmds: seq<Command>, cut: nat, late: nat, n: nat)
    requires cut <= n < |cmds| && cut <= late <= |cmds|
    requires Run(p, cmds[..cut]).Next? && Run(p, cmds[..late]).Next? && Run(p, cmds[..n + 1]).Next?
             && Run(p, cmds[..n]).Next?
    requires n < late ==> !PassedInRange(p, cmds, n)
    requires var r, o := LateReplay(p, cmds, cut, late, n), Run(p, cmds[..n]);
             r.Next? && SameButWindow(r.book, o.book) && Run(p, cmds[..cut]).logs + r.logs == o.logs
             && r.book.window == o.book.window.(used := r.book.window.used)
             && r.book.window.used == if n <= late then Run(p, cmds[..late]).book.window.used else o.book.window.used
    ensures var r, o := LateReplay(p, cmds, cut, late, n + 1), Run(p, cmds[..n + 1]);
            r.Next? && SameButWindow(r.book, o.book) && Run(p, cmds[..cut]).logs + r.logs == o.logs
            && r.book.window == o.book.window.(used := r.book.window.used)
            && r.book.window.used == if n + 1 <= late then Run(p, cmds[..late]).book.window.used else o.book.window.used
  {
    hide Run, Replay, Execute, LateReplay;
    var c := cmds[n];
    var r, o := LateReplay(p, cmds, cut, late, n), Run(p, cmds[..n]);
    RunLast(p, cmds, n);
    StepOfLateReplay(p, cmds, cut, late, n);
    if n < late { WindowGrows(p, cmds, n, late); WindowGrows(p, cmds, n + 1, late); }
    ExecuteWindow(p, o.book, c);
    ExecuteAlike(p, r.book, o.book, c);
  }

  predicate LogsName(logs: seq<Log>, id: int) {
    exists i :: 0 <= i < |logs| && logs[i].Names(id)
  }

  lemma LogsNameAppend(a: seq<Log>, b: seq<Log>, id: int)
    ensures LogsName(a + b, id) <==> LogsName(a, id) || LogsName(b, id)
  {
    if LogsName(a, id) {
      var i :| 0 <= i < |a| && a[i].Names(id);
      assert (a + b)[i].Names(id);
    }
    if LogsName(b, id) {
      var i :| 0 <= i < |b| && b[i].Names(id);
      assert (a + b)[|a| + i].Names(id);
    }
  }

  lemma {:induction false} SweepNames(p: Product, taker: Order, makers: seq<Order>, l: nat, t: nat, id: int)
    requires Sweep(p, taker, makers, l, t).Swept? && LogsName(Sweep(p, taker, makers, l, t).logs, id)
    ensures id == taker.id || HasId(makers, id)
    decreases makers
  {
    if id != taker.id && makers[0].id != id {
      var size := Min(Wants(p, taker, makers[0]), makers[0].size);
      var logs := TradeLogs(taker.id, makers[0], size, l, t);
      var charged := Charge(taker, makers[0].price, size);
      SweepStep(p, taker, makers, l, t, size);
      var rest := Sweep(p, charged, makers[1..], l + if size == makers[0].size then 2 else 1, t + 1);
      LogsNameAppend(logs, rest.logs, id);
      SweepNames(p, charged, makers[1..], l + if size == makers[0].size then 2 else 1, t + 1, id);
      var i :| 0 <= i < |makers[1..]| && makers[1..][i].id == id;
      assert makers[i + 1].id == id;
    }
  }

  /** A command's logs are about resting orders and the order it submits. */
  lemma ExecuteNames(p: Product, b: Book, c: Command, id: int)
    requires b.window.Valid() && Execute(p, b, c).Next? && LogsName(Execute(p, b, c).logs, id)
    ensures RestsIn(b, id) || (c.Submit? && c.order.id == id && b.window.Accepts(id))
  {
    var o := c.order;
    if c.Submit? {
      var r := Sweep(p, Priced(p, o), b.Queue(o.side.Opposite()), b.logSeq, b.tradeSeq);
      SweepKeepsTaker(p, Priced(p, o), b.Queue(o.side.Opposite()), b.logSeq, b.tradeSeq);
      LogsNameAppend(r.logs, [ClosingLog(r.taker, b.logSeq + |r.logs|)], id);
      if LogsName(r.logs, id) {
        SweepNames(p, Priced(p, o), b.Queue(o.side.Opposite()), b.logSeq, b.tradeSeq, id);
      }
    }
  }

  /** An order that is screened whenever it is submitted is never heard of. */
  lemma {:induction false} NeverNamed(p: Product, b0: Book, cmds: seq<Command>, n: nat, id: int)
    requires b0.window.Valid() && Inv(b0) && UniqueReplay(b0, cmds) && n <= |cmds| && !RestsIn(b0, id)
    requires Replay(p, b0, cmds[..n]).Next?
    requires forall j :: 0 <= j < n && cmds[j].Submit? && cmds[j].order.id == id ==>
      Replay(p, b0, cmds[..j]).Next? ==> !Replay(p, b0, cmds[..j]).book.window.Accepts(id)
    ensures var r := Replay(p, b0, cmds[..n]); !LogsName(r.logs, id) && !RestsIn(r.book, id)
  {
    hide Replay, Execute, Inv, UniqueReplay, RestsIn;
    if n == 0 {
      ReplayNothing(p, b0, cmds[..n]);
    } else {
      ReplayLast(p, b0, cmds, n - 1);
      NeverNamed(p, b0, cmds, n - 1, id);
      ReplayKeepsInv(p, b0, cmds, n - 1);
      var b, c := Replay(p, b0, cmds[..n - 1]).book, cmds[n - 1];
      ExecuteOrigins(p, b, c);
      LogsNameAppend(Replay(p, b0, cmds[..n - 1]).logs, Execute(p, b, c).logs, id);
      if LogsName(Execute(p, b, c).logs, id) { ExecuteNames(p, b, c, id); }
    }
  }

  /** An accepted order names itself in its last log. */
  lemma AcceptedNamed(p: Product, b: Book, c: Command)
    requires b.window.Valid() && c.Submit? && b.window.Accepts(c.order.id) && Execute(p, b, c).Next?
    ensures LogsName(Execute(p, b, c).logs, c.order.id)
  {
    hide Sweep;
    var o := c.order;
    SweepKeepsTaker(p, Priced(p, o), b.Queue(o.side.Opposite()), b.logSeq, b.tradeSeq);
    var logs := Execute(p, b, c).logs;
    assert logs[|logs| - 1].Names(o.id);
  }

  /** What a run logged stays logged. */
  lemma {:induction false} NamedOnwards(p: Product, cmds: seq<Command>, i: nat, n: nat, id: int)
    requires i <= n <= |cmds| && Run(p, cmds[..i]).Next? && LogsName(Run(p, cmds[..i]).logs, id)
             && Run(p, cmds[..n]).Next?
    ensures LogsName(Run(p, cmds[..n]).logs, id)
  {
    hide Run, Replay, Execute;
    if i < n {
      RunLast(p, cmds, n - 1);
      NamedOnwards(p, cmds, i, n - 1, id);
      var before := Run(p, cmds[..n - 1]);
      LogsNameAppend(before.logs, Execute(p, before.book, cmds[n - 1]).logs, id);
    }
  }

  /** The book a late-written snapshot restores to. */
  function LateBook(p: Product, cmds: seq<Command>, cut: nat, late: nat): Book
    requires cut <= |cmds| && late <= |cmds|
    requires Run(p, cmds[..cut]).Next? && Run(p, cmds[..late]).Next?
  {
    var b := Run(p, cmds[..cut]).book;
    b.(window := b.window.(used := Run(p, cmds[..late]).book.window.used))
  }

  lemma LateBookInv(p: Product, cmds: seq<Command>, cut: nat, late: nat)
    requires UniqueRun(cmds) && cut <= |cmds| && late <= |cmds|
    requires Run(p, cmds[..cut]).Next? && Run(p, cmds[..late]).Next?
    ensures var b0 := LateBook(p, cmds, cut, late);
            b0.window.Valid() && Inv(b0) && UniqueReplay(b0, cmds[cut..])
    ensures forall id :: RestsIn(LateBook(p, cmds, cut, late), id) ==> Submitted(cmds[..cut], id)
  {
    hide Replay, Run;
    UniquePrefix(cmds, cut);
    RunKeepsInv(p, cmds[..cut]);
    var b, b0 := Run(p, cmds[..cut]).book, LateBook(p, cmds, cut, late);
    assert b.asks == b0.asks && b.bids == b0.bids;
    assert forall id :: RestsIn(b0, id) <==> RestsIn(b, id);
    forall i | 0 <= i < |cmds[cut..]| && cmds[cut..][i].Submit? ensures !RestsIn(b0, cmds[cut..][i].order.id) {
      NotSubmittedEarlier(cmds, cut, cut + i);
    }
  }

  lemma NotSubmittedEarlier(cmds: seq<Command>, cut: nat, i: nat)
    requires UniqueRun(cmds) && cut <= i < |cmds| && cmds[i].Submit?
    ensures !Submitted(cmds[..cut], cmds[i].order.id)
  {
    UniquePrefix(cmds, i);
    UniquePrefix(cmds[..i], cut);
    assert cmds[..i][..cut] == cmds[..cut];
  }

  /** The bit an order leaves is among the late bits, so the replay screens that order. */
  lemma ScreenedInReplay(p: Product, cmds: seq<Command>, cut: nat, late: nat, i: nat)
    requires cut <= i < late <= |cmds|
    requires Run(p, cmds).Next? && Run(p, cmds[..cut]).Next? && Run(p, cmds[..late]).Next? && Run(p, cmds[..i]).Next?
    requires PassedInRange(p, cmds, i) && forall j :: cut <= j < i ==> !PassedInRange(p, cmds, j)
    ensures var r := Replay(p, LateBook(p, cmds, cut, late), cmds[cut..i]);
            r.Next? && !r.book.window.Accepts(cmds[i].order.id)
  {
    hide Run, Replay, Execute;
    LateBitsHarmless(p, cmds, cut, late, i);
    WindowGrows(p, cmds, i + 1, late);
    RunLast(p, cmds, i);
    ExecuteWindow(p, Run(p, cmds[..i]).book, cmds[i]);
    assert LateReplay(p, cmds, cut, late, i) == Replay(p, LateBook(p, cmds, cut, late), cmds[cut..i]);
  }

  /** An order let through in between is lost: the replay never mentions it, the run did. */
  lemma LostOrder(p: Product, cmds: seq<Command>, cut: nat, late: nat, i: nat)
    requires UniqueRun(cmds) && cut <= i < late <= |cmds|
    requires Run(p, cmds).Next? && Run(p, cmds[..cut]).Next? && Run(p, cmds[..late]).Next?
    requires PassedInRange(p, cmds, i) && forall j :: cut <= j < i ==> !PassedInRange(p, cmds, j)
    requires LateReplay(p, cmds, cut, late, |cmds|).Next?
    ensures LogsName(Run(p, cmds).logs, cmds[i].order.id)
    ensures !LogsName(Run(p, cmds[..cut]).logs + LateReplay(p, cmds, cut, late, |cmds|).logs, cmds[i].order.id)
  {
    hide Run, Replay, Execute, UniqueRun, RestsIn;
    var id, b0, tail := cmds[i].order.id, LateBook(p, cmds, cut, late), cmds[cut..];
    LateBookInv(p, cmds, cut, late);
    NotSubmittedEarlier(cmds, cut, i);
    forall j | 0 <= j < |tail| && tail[j].Submit? && tail[j].order.id == id
      ensures Replay(p, b0, tail[..j]).Next? ==> !Replay(p, b0, tail[..j]).book.window.Accepts(id)
    {
      SameIdSameOrder(cmds, i, cut + j);
      assert tail[..j] == cmds[cut..i];
      WindowGrows(p, cmds, i, late);
      ScreenedInReplay(p, cmds, cut, late, i);
    }
    assert tail[..|tail|] == tail == cmds[cut..|cmds|];
    NeverNamed(p, b0, tail, |tail|, id);
    NotNamedBefore(p, cmds, cut, id);
    NamedByRun(p, cmds, i);
    LogsNameAppend(Run(p, cmds[..cut]).logs, LateReplay(p, cmds, cut, late, |cmds|).logs, id);
  }

  lemma SameIdSameOrder(cmds: seq<Command>, i: nat, j: nat)
    requires UniqueRun(cmds) && i < |cmds| && j < |cmds| && cmds[i].Submit? && cmds[j].Submit?
    requires cmds[i].order.id == cmds[j].order.id
    ensures i == j
  {
  }

  lemma NotNamedBefore(p: Product, cmds: seq<Command>, cut: nat, id: int)
    requires UniqueRun(cmds) && cut <= |cmds| && !Submitted(cmds[..cut], id) && Run(p, cmds[..cut]).Next?
    ensures !LogsName(Run(p, cmds[..cut]).logs, id)
  {
    hide Replay;
    UniquePrefix(cmds, cut);
    EmptyBook();
    assert forall j :: 0 <= j < cut && cmds[..cut][j].Submit? ==> cmds[..cut][j].order.id != id;
    assert cmds[..cut][..cut] == cmds[..cut];
    NeverNamed(p, NewBook(), cmds[..cut], cut, id);
  }

  lemma NamedByRun(p: Product, cmds: seq<Command>, i: nat)
    requires i < |cmds| && PassedInRange(p, cmds, i) && Run(p, cmds).Next?
    ensures LogsName(Run(p, cmds).logs, cmds[i].order.id)
  {
    hide Run, Replay, Execute;
    var b := Run(p, cmds[..i]).book;
    assert cmds[..|cmds|] == cmds;
    WindowGrows(p, cmds, i + 1, |cmds|);
    RunLast(p, cmds, i);
    AcceptedNamed(p, b, cmds[i]);
    LogsNameAppend(Run(p, cmds[..i]).logs, Execute(p, b, cmds[i]).logs, cmds[i].order.id);
    NamedOnwards(p, cmds, i + 1, |cmds|, cmds[i].order.id);
  }

  /** With the bits written at `late`, recovery yields the logs of the uninterrupted run exactly when
      no order inside the range was let through between the snapshot and its writing. */
  lemma SharedBitmapRecoveryIff(p: Product, cmds: seq<Command>, cut: nat, late: nat)
    requires UniqueRun(cmds) && cut <= late <= |cmds|
    requires Run(p, cmds).Next? && Run(p, cmds[..cut]).Next? && Run(p, cmds[..late]).Next?
    ensures var r := LateReplay(p, cmds, cut, late, |cmds|);
            (r.Next? && Run(p, cmds[..cut]).logs + r.logs == Run(p, cmds).logs) <==> !ScreenedLater(p, cmds, cut, late)
  {
    hide Run, Replay, Execute, PassedInRange, LateReplay, UniqueRun;
    assert cmds[..|cmds|] == cmds;
    if ScreenedLater(p, cmds, cut, late) {
      if LateReplay(p, cmds, cut, late, |cmds|).Next? {
        var i := FirstPassed(p, cmds, cut, late);
        LostOrder(p, cmds, cut, late, i);
      }
    } else {
      LateBitsHarmless(p, cmds, cut, late, |cmds|);
    }
  }

  lemma {:induction false} FirstPassed(p: Product, cmds: seq<Command>, cut: nat, late: nat) returns (i: nat)
    requires cut <= late <= |cmds| && ScreenedLater(p, cmds, cut, late)
    ensures cut <= i < late && PassedInRange(p, cmds, i)
    ensures forall j :: cut <= j < i ==> !PassedInRange(p, cmds, j)
  {
    hide PassedInRange;
    var k :| cut <= k < late && PassedInRange(p, cmds, k);
    i := cut;
    while !PassedInRange(p, cmds, i)
      invariant cut <= i <= k && forall j :: cut <= j < i ==> !PassedInRange(p, cmds, j)
      decreases k - i
    {
      i := i + 1;
    }
  }

  /** The least such history: one order, let through after the snapshot and before its writing. */
  lemma OneOrderLost(p: Product)
    ensures var cmds := [Submit(Order(1, 1, 1, 1, Buy, Limit))];
            UniqueRun(cmds) && Run(p, cmds).Next? && Run(p, cmds[..0]).Next? && Run(p, cmds[..1]).Next?
            && !(var r := LateReplay(p, cmds, 0, 1, 1); r.Next? && Run(p, cmds[..0]).logs + r.logs == Run(p, cmds).logs)
  {
    hide Run, Replay, Execute, LateReplay;
    var cmds := [Submit(Order(1, 1, 1, 1, Buy, Limit))];
    GoodRunSurvives(p, cmds, 1);
    RunNothing(p, cmds[..0]);
    assert cmds[..1] == cmds;
    assert PassedInRange(p, cmds, 0);
    SharedBitmapRecoveryIff(p, cmds, 0, 1);
  }
}
