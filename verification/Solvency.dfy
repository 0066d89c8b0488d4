/** When orders, holds and balances stay non-negative. */
module Solvency {
  import opened Market
  import opened Decimals
  import opened Sums
  import opened Book
  import opened BookInvariant
  import opened AnyRun
  import opened Settlement
  import opened TradeSizes
  import opened FillMaking
  import opened Ledger
  import opened Exchange

  /** An ask price that the market-buy division can take; the placing of orders does not check it. */
  predicate PriceTaken(l: Listing, e: Event) {
    e.Place? && e.kind.Limit? && e.side.Sell? ==> 0 < RoundedQuotient(e.price, l.fine) < 2 * l.product.unit
  }

  /** Any price will do when the division keeps at least one place more than sizes have. */
  predicate PricePlain(l: Listing, e: Event) { l.product.unit >= 2 || PriceTaken(l, e) }

  predicate RowsGood(p: Product, rows: seq<Row>) {
    forall i :: 0 <= i < |rows| ==>
      GoodOrder(p, rows[i].order)
          && (rows[i].order.kind.Limit? ==> rows[i].order.funds == rows[i].order.size * rows[i].order.price)
  }

  predicate FillsPositive(fills: seq<Fill>) {
    forall k :: 0 <= k < |fills| && !fills[k].done ==> fills[k].size > 0 && fills[k].price >= 0
  }

  /** No order is asked for more than it was placed for. */
  predicate Bounded(rows: seq<Row>, fills: seq<Fill>) {
    forall i :: 0 <= i < |rows| ==>
      if rows[i].order.side.Buy? then Sum(fills, ValueFor(i + 1)) <= rows[i].order.funds
      else Sum(fills, SizeFor(i + 1)) <= rows[i].order.size
  }

  predicate BillsSolvent(bills: seq<Bill>) {
    forall k :: 0 <= k < |bills| && !bills[k].settled ==> bills[k].available >= 0 >= bills[k].hold
  }

  predicate RowsPlain(p: Product, rows: seq<Row>) { forall i :: 0 <= i < |rows| ==> PlainOrder(p, rows[i].order) }

  /** Nothing that is still to be paid takes anything from a balance. */
  predicate Paying(p: Product, db: Db) {
    RowsPlain(p, db.orders) && FillsPositive(db.fills) && BillsSolvent(db.bills)
  }

  /** And no order is asked for more than it has. */
  predicate Solid(p: Product, db: Db) {
    Paying(p, db) && RowsGood(p, db.orders) && Bounded(db.orders, db.fills)
  }

  // What follows for the tables.

  /** What an order still ties up is never negative. */
  lemma UnspentNonNegative(p: Product, db: Db, i: nat)
    requires Sound(db) && Solid(p, db) && i < |db.orders|
    ensures db.orders[i].Unspent() >= 0
  {
    hide HoldsAgree, RowsGood, RowsPlain, BillsSolvent, RowsNumbered, FillsFit;
    forall k | 0 <= k < |db.fills|
      ensures SettledSize(i + 1)(db.fills[k]) <= SizeFor(i + 1)(db.fills[k])
      ensures SettledValue(i + 1)(db.fills[k]) <= ValueFor(i + 1)(db.fills[k])
    {
      if !db.fills[k].done { MulNonNegative(db.fills[k].size, db.fills[k].price); }
    }
    SumAtMost(db.fills, SettledSize(i + 1), SizeFor(i + 1));
    SumAtMost(db.fills, SettledValue(i + 1), ValueFor(i + 1));
  }

  /** Holds are never negative either. */
  lemma HoldNonNegative(p: Product, db: Db, owner: Owner)
    requires Sound(db) && Solid(p, db)
    ensures HoldIn(db.accounts, owner) >= 0
  {
    hide Sound, HoldIn, RowsGood, RowsPlain, Bounded, FillsPositive;
    HoldOf(db, owner);
    SumNonPositive(db.bills, BillHold(owner));
    forall i | 0 <= i < |db.orders| ensures RowHold(owner)(db.orders[i]) >= 0 {
      UnspentNonNegative(p, db, i);
    }
    SumNonNegative(db.orders, RowHold(owner));
  }

  // Placing.

  lemma PositiveFactor(a: int, b: int)
    requires b >= 0
    ensures a * b > 0 ==> a > 0
  {
  }

  lemma PlacedPlain(l: Listing, db: Db, e: Event)
    requires e.Place? && PricePlain(l, e)
    requires PlaceOrder(l, db, e.seen, e.user, e.kind, e.side, e.size, e.price, e.funds).Some?
    ensures var db' := PlaceOrder(l, db, e.seen, e.user, e.kind, e.side, e.size, e.price, e.funds).value;
            && |db'.orders| == |db.orders| + 1
            && var o := db'.orders[|db.orders|].order;
            && PlainOrder(l.product, o) && (o.kind.Limit? ==> o.funds == o.size * o.price)
            && (PriceTaken(l, e) ==> GoodOrder(l.product, o))
  {
    hide RoundedQuotient;
    var r := Rounded(l, e.kind, e.side, e.size, e.price, e.funds);
    if e.kind.Limit? && e.side.Buy? {
      PositiveFactor(r.value.0, r.value.1);
    } else if e.kind.Limit? {
      MulNonNegative(r.value.0, r.value.1);
    }
  }

  lemma PlacedPaying(p: Product, db: Db, seen: map<Owner, Account>, db': Db)
    requires Paying(p, db) && OrderAdded(db, seen, db') && PlainOrder(p, db'.orders[|db.orders|].order)
    ensures Paying(p, db')
  {
    hide PlainOrder;
  }

  lemma PlacedBounded(p: Product, db: Db, seen: map<Owner, Account>, db': Db)
    requires Sound(db) && RowsGood(p, db.orders) && Bounded(db.orders, db.fills) && OrderAdded(db, seen, db')
    requires var o := db'.orders[|db.orders|].order; GoodOrder(p, o) && (o.kind.Limit? ==> o.funds == o.size * o.price)
    ensures RowsGood(p, db'.orders) && Bounded(db'.orders, db'.fills)
  {
    hide HoldsAgree, RowsBooked, RowsNumbered;
    NoFillsYet(db.orders, db.fills);
  }

  // Settling and paying.

  lemma SettleFillPaying(p: Product, db: Db, k: nat)
    requires Paying(p, db) && k < |db.fills| && db.HasOrder(db.fills[k].orderId)
    ensures Paying(p, SettleFill(db, k))
  {
    hide PlainOrder;
    if !db.fills[k].done { MulNonNegative(db.fills[k].size, db.fills[k].price); }
  }

  lemma {:induction false} SettleFillsPaying(p: Product, db: Db, ks: seq<nat>)
    requires Paying(p, db) && AllFills(db, ks)
    ensures Paying(p, SettleFills(db, ks))
    decreases |ks|
  {
    hide Paying;
    if ks != [] {
      SettleFillPaying(p, db, ks[0]);
      if !db.fills[ks[0]].done { SettleFillsPaying(p, SettleFill(db, ks[0]), ks[1..]); }
    }
  }

  /** Orders keep their amounts and fills theirs, so what orders are asked for stays the same. */
  lemma SameBounded(p: Product, db: Db, db': Db)
    requires RowsGood(p, db.orders) && Bounded(db.orders, db.fills) && SameTrades(db, db')
    ensures RowsGood(p, db'.orders) && Bounded(db'.orders, db'.fills)
  {
    hide GoodOrder;
    SamePlain(db, db');
    forall i | 0 <= i < |db.orders|
      ensures db'.orders[i].order == db.orders[i].order
      ensures Sum(db'.fills, SizeFor(i + 1)) == Sum(db.fills, SizeFor(i + 1))
      ensures Sum(db'.fills, ValueFor(i + 1)) == Sum(db.fills, ValueFor(i + 1))
    {
      PlainSum(db.fills, SizeFor(i + 1));
      PlainSum(db'.fills, SizeFor(i + 1));
      PlainSum(db.fills, ValueFor(i + 1));
      PlainSum(db'.fills, ValueFor(i + 1));
    }
  }

  predicate BalancesNonNegative(db: Db) { forall o :: o in db.accounts ==> db.accounts[o].available >= 0 }

  lemma {:induction false} SettleBillsSolvent(db: Db, ks: seq<nat>)
    requires BillsSolvent(db.bills) && Ascending(ks) && forall i :: 0 <= i < |ks| ==>
             ks[i] < |db.bills| && !db.bills[ks[i]].settled
    ensures BillsSolvent(SettleBills(db, ks).bills)
    ensures BalancesNonNegative(db) ==> BalancesNonNegative(SettleBills(db, ks))
    decreases |ks|
  {
    if ks != [] { SettleBillsSolvent(SettleBill(db, ks[0]), ks[1..]); }
  }

  // Matching and fill making.

  lemma StreamIsPlain(p: Product, rows: seq<Row>, cmds: seq<Command>, submitted: set<int>, n: nat)
    requires StreamGood(rows, cmds, submitted) && RowsPlain(p, rows) && n <= |cmds|
    ensures PlainRun(p, cmds[..n])
  {
    hide PlainOrder;
    assert forall k :: 0 <= k < |cmds| && cmds[k].Submit? ==> PlainOrder(p, cmds[k].order);
  }

  lemma StreamIsGood(p: Product, rows: seq<Row>, cmds: seq<Command>, submitted: set<int>, n: nat)
    requires StreamGood(rows, cmds, submitted) && RowsGood(p, rows) && n <= |cmds|
    ensures GoodRun(p, cmds[..n])
  {
    hide GoodOrder;
    assert forall k :: 0 <= k < |cmds| && cmds[k].Submit? ==> GoodOrder(p, cmds[k].order);
  }

  /** The fills still being made are of positive sizes, as every trade of such a run is. */
  lemma MadePositive(p: Product, x: Exchange)
    requires Consistent(p, x) && RowsPlain(p, x.db.orders)
    ensures FillsPositive(x.making)
  {
    hide Run, PlainRun, Sound, Consistent, StreamGood;
    ConsistentParts(p, x);
    var cmds, logs := x.cmds[..x.matched], Logs(p, x);
    StreamIsPlain(p, x.db.orders, x.cmds, x.submitted, x.matched);
    assert cmds[..|cmds|] == cmds;
    RunPositive(p, cmds, |cmds|);
    AllPositive(logs[..x.read]);
    forall k | 0 <= k < |x.making| ensures x.making[k] == AllFillsOf(logs[..x.read])[|x.db.fills| + k] {
    }
  }

  lemma {:induction false} AllPositive(logs: seq<Log>)
    requires PositiveTrades(logs)
    ensures FillsPositive(AllFillsOf(logs))
  {
    if logs != [] { AllPositive(logs[..|logs| - 1]); }
  }

  /** Written fills stay within the orders. */
  lemma WrittenBounded(p: Product, x: Exchange, n: nat)
    requires Consistent(p, x) && RowsGood(p, x.db.orders) && RowsPlain(p, x.db.orders) && n <= |x.making|
    ensures Bounded(x.db.orders, x.db.fills + x.making[..n])
  {
    hide Sound, Consistent;
    MadePositive(p, x);
    forall i | 0 <= i < |x.db.orders|
      ensures var o, written := x.db.orders[i].order, x.db.fills + x.making[..n];
              if o.side.Buy? then Sum(written, ValueFor(i + 1)) <= o.funds else Sum(written, SizeFor(i + 1)) <= o.size
    {
      MadeBounded(p, x, i);
      PartAtMostAll(x.db.fills, x.making, n, i + 1);
    }
  }

  /** So do all fills made. */
  lemma MadeBounded(p: Product, x: Exchange, i: nat)
    requires Consistent(p, x) && RowsGood(p, x.db.orders) && i < |x.db.orders|
    ensures var o, made := x.db.orders[i].order, Plain(x.db.fills) + x.making;
            if o.side.Buy? then Sum(made, ValueFor(i + 1)) <= o.funds else Sum(made, SizeFor(i + 1)) <= o.size
  {
    hide Run, GoodRun, Sound, Consistent, MatchedSize, MatchedValue, AllFillsOf, RowsGood, RowsNumbered, FillsFit,
         StreamGood, Sum, Placed, GoodOrder, Submitted, NothingAfterDone;
    ConsistentParts(p, x);
    StreamIsGood(p, x.db.orders, x.cmds, x.submitted, x.matched);
    LogsKnown(p, x);
    assert forall k :: 0 <= k < x.read ==> KnownLog(x.cmds[..x.matched], Logs(p, x)[k]);
    OrderInStream(p, x, i);
    TradesWithinOrder(p, x.cmds[..x.matched], x.db.orders[i].order, x.read);
    FillsAddUp(Logs(p, x)[..x.read], i + 1);
  }

  lemma OrderInStream(p: Product, x: Exchange, i: nat)
    requires RowsNumbered(x.db.orders) && RowsGood(p, x.db.orders) && x.matched <= |x.cmds|
    requires StreamGood(x.db.orders, x.cmds, x.submitted) && i < |x.db.orders|
    ensures var o, cmds := x.db.orders[i].order, x.cmds[..x.matched];
            && GoodOrder(p, o) && o.id == i + 1 && (o.kind.Limit? ==> o.funds == o.size * o.price)
            && forall k :: 0 <= k < |cmds| && cmds[k].Submit? && cmds[k].order.id == o.id ==> cmds[k].order == o
  {
  }

  lemma PartAtMostAll(fills: seq<Fill>, making: seq<Fill>, n: nat, id: int)
    requires FillsPositive(making) && n <= |making|
    ensures Sum(fills + making[..n], SizeFor(id)) <= Sum(Plain(fills) + making, SizeFor(id))
    ensures Sum(fills + making[..n], ValueFor(id)) <= Sum(Plain(fills) + making, ValueFor(id))
  {
    assert making == making[..n] + making[n..];
    forall k | 0 <= k < |making[n..]| ensures SizeFor(id)(making[n..][k]) >= 0 && ValueFor(id)(making[n..][k]) >= 0 {
      if !making[n + k].done { MulNonNegative(making[n + k].size, making[n + k].price); }
    }
    PartOf(fills, making[..n], making[n..], SizeFor(id));
    PartOf(fills, making[..n], making[n..], ValueFor(id));
  }

  lemma PartOf(fills: seq<Fill>, a: seq<Fill>, b: seq<Fill>, f: Fill -> int)
    requires forall k :: 0 <= k < |b| ==> f(b[k]) >= 0
    requires forall x: Fill :: f(x.(settled := false)) == f(x)
    ensures Sum(fills + a, f) <= Sum(Plain(fills) + (a + b), f)
  {
    SumAppend(fills, a, f);
    SumAppend(Plain(fills), a + b, f);
    SumAppend(a, b, f);
    SumNonNegative(b, f);
    PlainSum(fills, f);
  }

  // Whole histories.

  lemma StepPaying(l: Listing, x: Exchange, e: Event)
    requires Consistent(l.product, x) && Paying(l.product, x.db) && PricePlain(l, e)
    ensures Paying(l.product, Step(l, x, e).db)
  {
    hide Run, Sound, Logs, FillsOf, Consistent, PlaceOrder, Paying, SettleFills, SettleBills, UnsettledFills,
         UnsettledBills;
    ConsistentParts(l.product, x);
    match e
    case Place(seen, user, kind, side, size, price, funds) =>
      if PlaceOrder(l, x.db, seen, user, kind, side, size, price, funds).Some? {
        PlacedRow(l, x.db, seen, user, kind, side, size, price, funds);
        PlacedPlain(l, x.db, e);
        PlacedPaying(l.product, x.db, seen, Step(l, x, e).db);
      }
    case SendOrder(_) => {}
    case SendCancel(_) => {}
    case Match => {}
    case ReadLog =>
      if x.read < |Logs(l.product, x)| { OpenOrderPaying(l.product, x.db, Logs(l.product, x)[x.read]); }
    case Write(n) =>
      if n <= |x.making| { WritePaying(l.product, x, n); }
    case Settle(id) =>
      if ExecuteFill(x.db, id).Some? { SettleFillsPaying(l.product, x.db, First(UnsettledFills(x.db.fills, id), 100)); }
    case Pay(owner) => PayPaying(l.product, x.db, owner);
  }

  lemma OpenOrderPaying(p: Product, db: Db, log: Log)
    requires Paying(p, db)
    ensures log.OpenLog? ==> Paying(p, OpenOrder(db, log.orderId))
  {
    hide PlainOrder;
  }

  lemma WritePaying(p: Product, x: Exchange, n: nat)
    requires Consistent(p, x) && Paying(p, x.db) && n <= |x.making|
    ensures Paying(p, x.db.(fills := x.db.fills + x.making[..n]))
  {
    hide Consistent, RowsPlain;
    MadePositive(p, x);
  }

  lemma PayPaying(p: Product, db: Db, owner: Owner)
    requires Sound(db) && Paying(p, db)
    ensures Paying(p, ExecuteBill(db, owner))
  {
    hide Sound, SettleBills, RowsPlain;
    UnsettledBillsAscend(db.bills, owner);
    SettleBillsSolvent(db, First(UnsettledBills(db.bills, owner), 100));
    ExecuteBillKeeps(db, owner);
  }

  lemma StepSolid(l: Listing, x: Exchange, e: Event)
    requires Consistent(l.product, x) && Solid(l.product, x.db) && PriceTaken(l, e)
    ensures Solid(l.product, Step(l, x, e).db)
  {
    hide Run, Sound, Logs, FillsOf, Consistent, PlaceOrder, Paying, RowsGood, Bounded, ExecuteFill, ExecuteBill,
         OpenOrder, GoodOrder, SameTrades;
    StepPaying(l, x, e);
    ConsistentParts(l.product, x);
    var p, x' := l.product, Step(l, x, e);
    match e
    case Place(seen, user, kind, side, size, price, funds) =>
      if PlaceOrder(l, x.db, seen, user, kind, side, size, price, funds).Some? {
        PlacedRow(l, x.db, seen, user, kind, side, size, price, funds);
        PlacedPlain(l, x.db, e);
        PlacedBounded(p, x.db, seen, x'.db);
      }
    case SendOrder(_) => {}
    case SendCancel(_) => {}
    case Match => {}
    case ReadLog =>
      if x.read < |Logs(p, x)| && Logs(p, x)[x.read].OpenLog? {
        OpenOrderKeeps(x.db, Logs(p, x)[x.read].orderId);
        SameBounded(p, x.db, x'.db);
      }
    case Write(n) =>
      if n <= |x.making| {
        PlainRows(p, x.db);
        WrittenBounded(p, x, n);
      }
    case Settle(id) =>
      if ExecuteFill(x.db, id).Some? {
        ExecuteFillKeeps(x.db, id);
        SameBounded(p, x.db, x'.db);
      }
    case Pay(owner) => ExecuteBillKeeps(x.db, owner);
  }

  lemma PlainRows(p: Product, db: Db)
    requires Paying(p, db)
    ensures RowsPlain(p, db.orders)
  {
  }

  predicate PricesTaken(l: Listing, events: seq<Event>, n: nat)
    requires n <= |events|
  {
    forall i :: 0 <= i < n ==> PriceTaken(l, events[i])
  }

  predicate PricesPlain(l: Listing, events: seq<Event>, n: nat)
    requires n <= |events|
  {
    forall i :: 0 <= i < n ==> PricePlain(l, events[i])
  }

  lemma {:induction false} HistoryPaying(l: Listing, xs: seq<Exchange>, events: seq<Event>, n: nat)
    requires History(l, xs, events) && n <= |events| && PricesPlain(l, events, n)
    ensures Consistent(l.product, xs[n]) && Paying(l.product, xs[n].db)
  {
    hide Consistent, Step, AllMoney, PricePlain;
    MoneyIsConserved(l, xs, events, n);
    if n > 0 {
      HistoryPaying(l, xs, events, n - 1);
      StepPaying(l, xs[n - 1], events[n - 1]);
    }
  }

  lemma {:induction false} HistorySolid(l: Listing, xs: seq<Exchange>, events: seq<Event>, n: nat)
    requires History(l, xs, events) && n <= |events| && PricesTaken(l, events, n)
    ensures Consistent(l.product, xs[n]) && Solid(l.product, xs[n].db)
  {
    hide Consistent, Step, AllMoney, PriceTaken;
    MoneyIsConserved(l, xs, events, n);
    if n > 0 {
      HistorySolid(l, xs, events, n - 1);
      StepSolid(l, xs[n - 1], events[n - 1]);
    }
  }

  /** While ask prices are within the bound, no order spends more than it has and no hold is negative,
      so holds are exactly what is unspent of the live orders. */
  lemma NothingOverspent(l: Listing, xs: seq<Exchange>, events: seq<Event>, n: nat, owner: Owner)
    requires History(l, xs, events) && n <= |events| && PricesTaken(l, events, n)
    ensures var db := xs[n].db;
            && (forall i :: 0 <= i < |db.orders| ==> db.orders[i].Unspent() >= 0)
            && HoldIn(db.accounts, owner) >= 0
            && HoldIn(db.accounts, owner) + Sum(db.bills, BillHold(owner)) == Sum(db.orders, LiveHold(owner))
  {
    hide Consistent, Step, AllMoney, Sound, Solid, HoldIn, Opening;
    var db := xs[n].db;
    HistorySolid(l, xs, events, n);
    ConsistentParts(l.product, xs[n]);
    forall i | 0 <= i < |db.orders| ensures db.orders[i].Unspent() >= 0 { UnspentNonNegative(l.product, db, i); }
    HoldNonNegative(l.product, db, owner);
    HoldsAreTied(l, xs, events, n, owner);
  }

  /** Whoever's order is placed has what it ties up at the moment the hold is moved. */
  predicate Covered(l: Listing, x: Exchange, e: Event) {
    if e.Place? && PlaceOrder(l, x.db, e.seen, e.user, e.kind, e.side, e.size, e.price, e.funds).Some? then
      var r := Rounded(l, e.kind, e.side, e.size, e.price, e.funds);
      HasEnoughBalance(x.db.accounts, Owner(e.user, if e.side.Buy? then Quote else Base),
                       if e.side.Buy? then r.value.2 else r.value.0)
    else true
  }

  lemma StepBalances(l: Listing, x: Exchange, e: Event)
    requires Consistent(l.product, x) && Paying(l.product, x.db) && BalancesNonNegative(x.db)
    ensures BalancesNonNegative(Step(l, x, e).db) <==> Covered(l, x, e)
  {
    hide Run, Consistent, Logs, FillsOf, PlaceOrder, Covered, SettleBills, Paying, SettleFills, UnsettledFills,
         UnsettledBills;
    ConsistentParts(l.product, x);
    if e.Place? {
      PlacedBalances(l, x, e);
    } else if e.Settle? {
      if ExecuteFill(x.db, e.id).Some? { FillsLeaveAccounts(x.db, First(UnsettledFills(x.db.fills, e.id), 100)); }
    } else if e.Pay? {
      BillsOf(l.product, x.db);
      UnsettledBillsAscend(x.db.bills, e.owner);
      SettleBillsSolvent(x.db, First(UnsettledBills(x.db.bills, e.owner), 100));
    }
    assert !e.Place? ==> Covered(l, x, e) by { OnlyPlacing(l, x, e); }
  }

  lemma OnlyPlacing(l: Listing, x: Exchange, e: Event)
    ensures !e.Place? ==> Covered(l, x, e)
  {
  }

  lemma PlacedBalances(l: Listing, x: Exchange, e: Event)
    requires e.Place? && BalancesNonNegative(x.db) && x.matched <= |x.cmds|
    ensures BalancesNonNegative(Step(l, x, e).db) <==> Covered(l, x, e)
  {
    hide Run, RoundedQuotient;
    var db := Step(l, x, e).db;
    if PlaceOrder(l, x.db, e.seen, e.user, e.kind, e.side, e.size, e.price, e.funds).Some? {
      var owner := Owner(e.user, if e.side.Buy? then Quote else Base);
      assert owner in db.accounts && forall o :: o in db.accounts && o != owner ==> db.accounts[o] == x.db.accounts[o];
    }
  }

  lemma BillsOf(p: Product, db: Db)
    requires Paying(p, db)
    ensures BillsSolvent(db.bills)
  {
  }

  lemma {:induction false} FillsLeaveAccounts(db: Db, ks: seq<nat>)
    requires AllFills(db, ks)
    ensures SettleFills(db, ks).accounts == db.accounts
    decreases |ks|
  {
    if ks != [] && !db.fills[ks[0]].done { FillsLeaveAccounts(SettleFill(db, ks[0]), ks[1..]); }
  }

  /** Whatever the prices, unless sizes have as many places as the division: no balance is ever negative
      if and only if every order was covered when its hold was moved. */
  lemma {:induction false} BalancesNonNegativeIff(l: Listing, xs: seq<Exchange>, events: seq<Event>, n: nat)
    requires History(l, xs, events) && n <= |events| && PricesPlain(l, events, n)
    ensures (forall i :: 0 <= i <= n ==> BalancesNonNegative(xs[i].db))
            <==> (forall i :: 0 <= i < n ==> Covered(l, xs[i], events[i]))
  {
    hide Consistent, Step, AllMoney, Paying, Covered, PricePlain;
    if n > 0 {
      BalancesNonNegativeIff(l, xs, events, n - 1);
      HistoryPaying(l, xs, events, n - 1);
      assert xs[n] == Step(l, xs[n - 1], events[n - 1]);
      if BalancesNonNegative(xs[n - 1].db) { StepBalances(l, xs[n - 1], events[n - 1]); }
    }
  }

  /** Seeing the balance as it is covers the order. */
  lemma FreshReadCovers(l: Listing, x: Exchange, e: Event)
    requires e.Place? ==> e.seen == x.db.accounts
    ensures Covered(l, x, e)
  {
    hide Rounded;
  }

  /** Two orders of one user, both tested before either is placed, overdraw a balance that covers one. */
  lemma BalanceOverdrawn(l: Listing, x: Exchange, user: int, funds: int) returns (xs: seq<Exchange>, events: seq<Event>)
    requires Opening(x)
    requires var r := Rounded(l, Market, Buy, 0, 0, funds);
             r.Some? && Owner(user, Quote) in x.db.accounts
             && r.value.2 <= x.db.accounts[Owner(user, Quote)].available < 2 * r.value.2
    ensures |events| == 2 && History(l, xs, events) && xs[0] == x && PricesTaken(l, events, 2)
    ensures events[0].Place? && events[1].Place? && events[0].seen == events[1].seen == x.db.accounts
    ensures !BalancesNonNegative(xs[2].db)
  {
    hide Rounded, Run;
    var e := Place(x.db.accounts, user, Market, Buy, 0, 0, funds);
    var x1 := Step(l, x, e);
    xs, events := [x, x1, Step(l, x1, e)], [e, e];
    assert xs[2].db.accounts[Owner(user, Quote)].available < 0;
  }
}
