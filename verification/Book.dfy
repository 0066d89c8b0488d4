/** The order book as a value: each side is the queue of its resting orders in matching order. Every
    operation maps a book to the next book and the logs it emits, or panics; a run is what an empty
    book does with a stretch of the order stream, and can be split at any command. */
module Book {
  import opened Market
  import opened Decimals
  import opened DedupWindow

  datatype Book = Book(asks: seq<Order>, bids: seq<Order>, logSeq: nat, tradeSeq: nat, window: Window) {
    function Queue(side: Side): seq<Order> { if side.Sell? then asks else bids }

    function WithQueue(side: Side, q: seq<Order>): Book {
      if side.Sell? then this.(asks := q) else this.(bids := q)
    }
  }

  function NewBook(): Book { Book([], [], 0, 0, FreshWindow()) }

  predicate SortedQueue(side: Side, q: seq<Order>) {
    forall i, j :: 0 <= i < j < |q| ==> Before(side, q[i].price, q[i].id, q[j].price, q[j].id)
  }

  predicate UniqueIds(q: seq<Order>) {
    forall i, j :: 0 <= i < j < |q| ==> q[i].id != q[j].id
  }

  predicate HasId(q: seq<Order>, id: int) {
    exists i :: 0 <= i < |q| && q[i].id == id
  }

  /** Number of leading orders that are matched before the given key. */
  function Slot(side: Side, q: seq<Order>, price: int, id: int): (k: nat)
    ensures k <= |q|
    ensures forall i :: 0 <= i < k ==> Before(side, q[i].price, q[i].id, price, id)
    ensures k < |q| ==> !Before(side, q[k].price, q[k].id, price, id)
  {
    if q == [] || !Before(side, q[0].price, q[0].id, price, id) then 0
    else 1 + Slot(side, q[1..], price, id)
  }

  /** `depth.add` for an id that does not rest yet. */
  function Insert(side: Side, q: seq<Order>, o: Order): seq<Order> {
    var k := Slot(side, q, o.price, o.id);
    q[..k] + [o] + q[k..]
  }

  /** Index of the order with the given id, or |q|. */
  function Find(q: seq<Order>, id: int): (k: nat)
    ensures k <= |q|
    ensures k < |q| ==> q[k].id == id
    ensures k == |q| <==> !HasId(q, id)
  {
    if q == [] then 0
    else if q[0].id == id then assert HasId(q, id); 0
    else
      var k := Find(q[1..], id);
      assert k < |q| - 1 ==> q[k + 1].id == id;
      assert HasId(q, id) ==> HasId(q[1..], id) by {
        if HasId(q, id) { var i :| 0 <= i < |q| && q[i].id == id; assert q[1..][i - 1].id == id; }
      }
      k + 1
  }

  function Without(q: seq<Order>, k: nat): seq<Order>
    requires k < |q|
  {
    q[..k] + q[k + 1..]
  }

  /** r is q with x put in at position k. */
  ghost predicate InsertedAt<T>(r: seq<T>, q: seq<T>, k: nat, x: T) {
    |r| == |q| + 1 && k <= |q|
    && forall i {:trigger r[i]} :: 0 <= i < |r| ==> r[i] == if i < k then q[i] else if i == k then x else q[i - 1]
  }

  /** r is q without its element at position k. */
  ghost predicate RemovedAt<T>(r: seq<T>, q: seq<T>, k: nat) {
    |r| == |q| - 1 && k < |q|
    && forall i {:trigger r[i]} :: 0 <= i < |r| ==> r[i] == if i < k then q[i] else q[i + 1]
  }

  lemma InsertedAtSlices<T>(q: seq<T>, k: nat, x: T)
    requires k <= |q|
    ensures InsertedAt(q[..k] + [x] + q[k..], q, k, x)
  {
  }

  lemma RemovedAtSlices<T>(q: seq<T>, k: nat)
    requires k < |q|
    ensures RemovedAt(q[..k] + q[k + 1..], q, k)
  {
  }

  lemma SameInserted<T>(r: seq<T>, r': seq<T>, q: seq<T>, k: nat, x: T)
    requires InsertedAt(r, q, k, x) && InsertedAt(r', q, k, x)
    ensures r == r'
  {
  }

  lemma SameRemoved<T>(r: seq<T>, r': seq<T>, q: seq<T>, k: nat)
    requires RemovedAt(r, q, k) && RemovedAt(r', q, k)
    ensures r == r'
  {
  }

  /** Whether the taker's limit reaches the maker's price. */
  predicate Crosses(taker: Order, maker: Order) {
    Rank(taker.side.Opposite(), maker.price) <= Rank(taker.side.Opposite(), taker.price)
  }

  /** The largest size the taker can still trade at the maker's price. */
  function Wants(p: Product, taker: Order, maker: Order): int
    requires taker.IsMarketBuy() ==> maker.price != 0
  {
    if taker.IsMarketBuy() then BuyableSize(taker.funds, maker.price, p.unit) else taker.size
  }

  function Charge(taker: Order, price: int, size: int): Order {
    if taker.IsMarketBuy() then taker.(funds := taker.funds - size * price)
    else taker.(size := taker.size - size)
  }

  datatype SweepResult = DividedByZero | Swept(taker: Order, makers: seq<Order>, logs: seq<Log>)

  function Prepend(kept: seq<Order>, logs: seq<Log>, r: SweepResult): SweepResult {
    if r.Swept? then r.(makers := kept + r.makers, logs := logs + r.logs) else r
  }

  function TradeLogs(takerId: int, maker: Order, size: int, logSeq: nat, tradeSeq: nat): seq<Log> {
    [MatchLog(logSeq + 1, tradeSeq + 1, takerId, maker.id, maker.side, maker.price, size)]
    + if size == maker.size then [DoneLog(logSeq + 2, maker.id, maker.price, 0, Filled, maker.side)] else []
  }

  function Left(maker: Order, size: int): seq<Order> {
    if size == maker.size then [] else [maker.(size := maker.size - size)]
  }

  /** The matching loop over the opposite queue. */
  function Sweep(p: Product, taker: Order, makers: seq<Order>, logSeq: nat, tradeSeq: nat): SweepResult
    decreases makers
  {
    if makers == [] || !Crosses(taker, makers[0]) || (taker.IsMarketBuy() && taker.funds == 0) then
      Swept(taker, makers, [])
    else if taker.IsMarketBuy() && makers[0].price == 0 then
      DividedByZero
    else
      var maker, wants := makers[0], Wants(p, taker, makers[0]);
      if wants == 0 then
        Swept(taker, makers, [])
      else
        var size := Min(wants, maker.size);
        var logs := TradeLogs(taker.id, maker, size, logSeq, tradeSeq);
        Prepend(Left(maker, size), logs,
                Sweep(p, Charge(taker, maker.price, size), makers[1..], logSeq + |logs|, tradeSeq + 1))
  }

  /** A market order takes any price: the top price to buy, zero to sell. */
  function Priced(p: Product, o: Order): Order {
    if o.kind.Limit? then o else o.(price := if o.side.Buy? then p.topPrice else 0)
  }

  predicate Rests(taker: Order) { taker.kind.Limit? && taker.size > 0 }

  /** The log that closes an application: the remainder opens, or the taker is done. */
  function ClosingLog(taker: Order, logSeq: nat): Log {
    if Rests(taker) then
      OpenLog(logSeq + 1, taker.id, taker.size, taker.price, taker.side)
    else if taker.kind.Limit? then
      DoneLog(logSeq + 1, taker.id, taker.price, taker.size, Filled, taker.side)
    else
      var left := if taker.side.Sell? then taker.size else taker.funds;
      DoneLog(logSeq + 1, taker.id, 0, 0, if left > 0 then Cancelled else Filled, taker.side)
  }

  datatype Outcome = Panicked | Next(book: Book, logs: seq<Log>)

  function Trades(logs: seq<Log>): nat {
    if logs == [] then 0 else (if logs[0].MatchLog? then 1 else 0) + Trades(logs[1..])
  }

  function ApplyOrder(p: Product, b: Book, o: Order): Outcome
    requires b.window.Valid()
  {
    if !b.window.Accepts(o.id) then Next(b, [])
    else AfterSweep(b, o, Sweep(p, Priced(p, o), b.Queue(o.side.Opposite()), b.logSeq, b.tradeSeq))
  }

  /** The book and the logs once the loop has ended with r. */
  function AfterSweep(b: Book, o: Order, r: SweepResult): Outcome
    requires b.window.Valid()
  {
    if r.DividedByZero? then Panicked
    else
      var b1 := b.WithQueue(o.side.Opposite(), r.makers).(
        window := b.window.Put(o.id), logSeq := b.logSeq + |r.logs| + 1, tradeSeq := b.tradeSeq + Trades(r.logs));
      Next(if Rests(r.taker) then b1.WithQueue(o.side, Insert(o.side, b1.Queue(o.side), r.taker)) else b1,
           r.logs + [ClosingLog(r.taker, b.logSeq + |r.logs|)])
  }

  function CancelOrder(b: Book, o: Order): Outcome
    requires b.window.Valid()
  {
    var b1 := b.(window := b.window.Put(o.id));
    var q := b.Queue(o.side);
    var k := Find(q, o.id);
    if k == |q| then
      Next(b1, [])
    else
      Next(b1.WithQueue(o.side, Without(q, k)).(logSeq := b.logSeq + 1),
           [DoneLog(b.logSeq + 1, q[k].id, q[k].price, q[k].size, Cancelled, q[k].side)])
  }

  function Execute(p: Product, b: Book, c: Command): Outcome
    requires b.window.Valid()
  {
    if c.Submit? then ApplyOrder(p, b, c.order) else CancelOrder(b, c.order)
  }

  /** What a book does with a stretch of the order stream: the last book and all logs. */
  function Replay(p: Product, b: Book, cmds: seq<Command>): (r: Outcome)
    requires b.window.Valid()
    ensures r.Next? ==> r.book.window.Valid()
  {
    if cmds == [] then Next(b, [])
    else Then(p, Replay(p, b, cmds[..|cmds| - 1]), cmds[|cmds| - 1])
  }

  function Then(p: Product, before: Outcome, c: Command): (r: Outcome)
    requires before.Next? ==> before.book.window.Valid()
    ensures r.Next? ==> r.book.window.Valid()
  {
    if before.Panicked? then Panicked
    else
      var after := Execute(p, before.book, c);
      if after.Panicked? then Panicked else Next(after.book, before.logs + after.logs)
  }

  /** A whole run from an empty book. */
  function Run(p: Product, cmds: seq<Command>): (r: Outcome)
    ensures r.Next? ==> r.book.window.Valid()
  {
    Replay(p, NewBook(), cmds)
  }

  lemma ReplayNothing(p: Product, b: Book, cmds: seq<Command>)
    requires b.window.Valid() && cmds == []
    ensures Replay(p, b, cmds) == Next(b, [])
  {
    hide Then;
  }

  /** The last command of a stretch. */
  lemma ReplayLast(p: Product, b: Book, cmds: seq<Command>, n: nat)
    requires b.window.Valid() && n < |cmds|
    ensures Replay(p, b, cmds[..n + 1]) == Then(p, Replay(p, b, cmds[..n]), cmds[n])
  {
    hide Then;
    assert cmds[..n + 1][..n] == cmds[..n];
  }

  lemma RunNothing(p: Product, cmds: seq<Command>)
    requires cmds == []
    ensures Run(p, cmds) == Next(NewBook(), [])
  {
    ReplayNothing(p, NewBook(), cmds);
  }

  lemma RunLast(p: Product, cmds: seq<Command>, n: nat)
    requires n < |cmds|
    ensures Run(p, cmds[..n + 1]) == Then(p, Run(p, cmds[..n]), cmds[n])
  {
    ReplayLast(p, NewBook(), cmds, n);
  }

  lemma {:induction false} ReplaySplit(p: Product, b: Book, cmds: seq<Command>, k: nat)
    requires b.window.Valid() && k <= |cmds|
    ensures var head := Replay(p, b, cmds[..k]);
            Replay(p, b, cmds)
            == if head.Panicked? then Panicked
               else
                 var tail := Replay(p, head.book, cmds[k..]);
                 if tail.Panicked? then Panicked else Next(tail.book, head.logs + tail.logs)
  {
    hide Execute;
    var n := |cmds| - 1;
    if k == |cmds| {
      assert cmds[..k] == cmds && cmds[k..] == [];
    } else {
      assert cmds[..n][..k] == cmds[..k] && cmds[..n][k..] == cmds[k..][..n - k] && cmds[k..][n - k] == cmds[n];
      ReplaySplit(p, b, cmds[..n], k);
    }
  }
}
