/** Accounts, orders, fills and bills as the database holds them, and the transactions on them as
    functions: placing an order and holding what it ties up, turning fills into bills, and turning
    bills into balances. Orders are numbered by their place in the table. */
module Settlement {
  import opened Market
  import opened Decimals

  datatype Currency = Base | Quote

  datatype Owner = Owner(user: int, currency: Currency)

  datatype Account = Account(available: int, hold: int)

  datatype Status = New | Open | Cancelled | Filled

  datatype Row = Row(user: int, order: Order, executedValue: int, filledSize: int, status: Status) {
    predicate Live() { status.New? || status.Open? }

    /** The owner of the funds or the size that the order ties up. */
    function Holder(): Owner { Owner(user, if order.side.Buy? then Quote else Base) }

    /** What the order still ties up. */
    function Unspent(): int { if order.side.Buy? then order.funds - executedValue else order.size - filledSize }
  }

  /** One side of a trade, or the end of an order. The side recorded is the other party's. */
  datatype Fill = Fill(orderId: int, size: int, price: int, side: Side, done: bool, reason: DoneReason, settled: bool)

  datatype Bill = Bill(owner: Owner, available: int, hold: int, settled: bool)

  /** The row of an order has its id as index, counted from 1. */
  datatype Db = Db(accounts: map<Owner, Account>, orders: seq<Row>, fills: seq<Fill>, bills: seq<Bill>) {
    predicate HasOrder(id: int) { 1 <= id <= |orders| }
  }

  /** What an order is checked and rounded against. Amounts asked for come in units of 1 / `fine`
      of a tick; `baseUnit` is the number of base ticks in 1. */
  datatype Listing = Listing(product: Product, fine: Unit, baseUnit: Unit, baseMinSize: int, quoteMinSize: int)

  /** The size, price and funds of the order placed for a request, if it is acceptable. */
  function Rounded(l: Listing, kind: OrderType, side: Side, size: int, price: int, funds: int)
    : Option<(int, int, int)>
  {
    if kind.Limit? then
      var s, q := RoundedQuotient(size, l.fine), RoundedQuotient(price, l.fine);
      if s < l.baseMinSize || q < 0 then None else Some((s, q, s * q))
    else if side.Buy? then
      var f := RoundedQuotient(funds, l.fine) * l.baseUnit;
      if f < l.quoteMinSize then None else Some((0, 0, f))
    else
      var s := RoundedQuotient(size, l.fine);
      if s < l.baseMinSize then None else Some((s, 0, 0))
  }

  predicate HasEnoughBalance(seen: map<Owner, Account>, owner: Owner, size: int) {
    owner in seen && seen[owner].available >= size
  }

  /** The test is on the balances as they were seen before the row was locked, and is not repeated. */
  function HoldBalance(accounts: map<Owner, Account>, seen: map<Owner, Account>, owner: Owner, size: int)
    : Option<map<Owner, Account>>
  {
    if size <= 0 || !HasEnoughBalance(seen, owner, size) || owner !in accounts then None
    else Some(accounts[owner := Account(accounts[owner].available - size, accounts[owner].hold + size)])
  }

  /** The new database, or None with the error. */
  function PlaceOrder(l: Listing, db: Db, seen: map<Owner, Account>, user: int, kind: OrderType, side: Side,
                      size: int, price: int, funds: int): Option<Db>
  {
    var r := Rounded(l, kind, side, size, price, funds);
    if r.None? then None
    else
      var o := Order(|db.orders| + 1, r.value.0, r.value.2, r.value.1, side, kind);
      var row := Row(user, o, 0, 0, New);
      var held := HoldBalance(db.accounts, seen, row.Holder(), if side.Buy? then o.funds else o.size);
      if held.None? then None
      else
        var bill := Bill(row.Holder(), -row.Unspent(), row.Unspent(), true);
        Some(db.(accounts := held.value, orders := db.orders + [row], bills := db.bills + [bill]))
  }

  function RowAfter(row: Row, f: Fill): Row {
    if f.done then row.(status := if f.reason.Cancelled? then Status.Cancelled else Status.Filled)
    else row.(executedValue := row.executedValue + f.size * f.price, filledSize := row.filledSize + f.size)
  }

  function BillsFor(row: Row, f: Fill): seq<Bill> {
    if f.done then
      if row.Unspent() > 0 then [Bill(row.Holder(), row.Unspent(), -row.Unspent(), false)] else []
    else if row.order.side.Buy? then
      [Bill(Owner(row.user, Base), f.size, 0, false), Bill(Owner(row.user, Quote), 0, -(f.size * f.price), false)]
    else
      [Bill(Owner(row.user, Base), 0, -f.size, false), Bill(Owner(row.user, Quote), f.size * f.price, 0, false)]
  }

  function SettleFill(db: Db, k: nat): (db': Db)
    requires k < |db.fills| && db.HasOrder(db.fills[k].orderId)
    ensures |db'.fills| == |db.fills| && |db'.orders| == |db.orders|
    ensures forall i :: 0 <= i < |db.fills| ==>
            db'.fills[i].orderId == db.fills[i].orderId && db'.fills[i].done == db.fills[i].done
  {
    var f := db.fills[k];
    var row := db.orders[f.orderId - 1];
    db.(orders := db.orders[f.orderId - 1 := RowAfter(row, f)], fills := db.fills[k := f.(settled := true)],
        bills := db.bills + BillsFor(row, f))
  }

  predicate AllFills(db: Db, ks: seq<nat>) {
    forall i :: 0 <= i < |ks| ==> ks[i] < |db.fills| && db.HasOrder(db.fills[ks[i]].orderId)
  }

  /** The loop over the fetched fills: the fill that ends the order is the last one settled. */
  function SettleFills(db: Db, ks: seq<nat>): Db
    requires AllFills(db, ks)
    decreases |ks|
  {
    if ks == [] then db
    else if db.fills[ks[0]].done then SettleFill(db, ks[0])
    else SettleFills(SettleFill(db, ks[0]), ks[1..])
  }

  /** Where the unsettled fills of an order are, oldest first. */
  function UnsettledFills(fills: seq<Fill>, id: int): (ks: seq<nat>)
    ensures forall i :: 0 <= i < |ks| ==> ks[i] < |fills| && fills[ks[i]].orderId == id && !fills[ks[i]].settled
  {
    if fills == [] then []
    else
      var n := |fills| - 1;
      UnsettledFills(fills[..n], id) + if fills[n].orderId == id && !fills[n].settled then [n] else []
  }

  function First<T>(s: seq<T>, n: nat): seq<T> { if |s| <= n then s else s[..n] }

  function ExecuteFill(db: Db, id: int): Option<Db> {
    if !db.HasOrder(id) || !db.orders[id - 1].Live() then None
    else Some(SettleFills(db, First(UnsettledFills(db.fills, id), 100)))
  }

  function SettleBill(db: Db, k: nat): (db': Db)
    requires k < |db.bills|
    ensures |db'.bills| == |db.bills|
  {
    var b := db.bills[k];
    var a := if b.owner in db.accounts then db.accounts[b.owner] else Account(0, 0);
    db.(accounts := db.accounts[b.owner := Account(a.available + b.available, a.hold + b.hold)],
        bills := db.bills[k := b.(settled := true)])
  }

  function SettleBills(db: Db, ks: seq<nat>): Db
    requires forall i :: 0 <= i < |ks| ==> ks[i] < |db.bills|
    decreases |ks|
  {
    if ks == [] then db else SettleBills(SettleBill(db, ks[0]), ks[1..])
  }

  function UnsettledBills(bills: seq<Bill>, owner: Owner): (ks: seq<nat>)
    ensures forall i :: 0 <= i < |ks| ==> ks[i] < |bills| && bills[ks[i]].owner == owner && !bills[ks[i]].settled
  {
    if bills == [] then []
    else
      var n := |bills| - 1;
      UnsettledBills(bills[..n], owner) + if bills[n].owner == owner && !bills[n].settled then [n] else []
  }

  function ExecuteBill(db: Db, owner: Owner): Db {
    SettleBills(db, First(UnsettledBills(db.bills, owner), 100))
  }

  /** `UpdateOrderStatus` from new to open. */
  function OpenOrder(db: Db, id: int): Db {
    if db.HasOrder(id) && db.orders[id - 1].status.New? then
      db.(orders := db.orders[id - 1 := db.orders[id - 1].(status := Open)])
    else db
  }
}
