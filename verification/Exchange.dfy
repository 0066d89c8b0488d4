/** The whole exchange of one product, from placing an order to paying its bills, without crashes. */
module Exchange {
  import opened Market
  import opened Decimals
  import opened Sums
  import opened Book
  import opened BookInvariant
  import opened AnyRun
  import opened Settlement
  import opened FillMaking
  import opened Ledger

  /** The tables, the order stream and how far the engine and the fill maker have read: `matched`
      orders are applied, `read` of their logs were turned into fills, of which `making` are still
      in the fill maker's hands. */
  datatype Exchange = Exchange(db: Db, cmds: seq<Command>, submitted: set<int>, matched: nat, read: nat,
                               making: seq<Fill>)

  datatype Event =
    | Place(seen: map<Owner, Account>, user: int, kind: OrderType, side: Side, size: int, price: int, funds: int)
    | SendOrder(id: int)                  // a placed order goes to the engine, once
    | SendCancel(id: int)                 // so does a cancellation, any time
    | Match                               // the engine takes the next message, unless it panics on it
    | ReadLog                             // the fill maker takes the next log
    | Write(n: nat)                       // and writes some of its fills
    | Settle(id: int)
    | Pay(owner: Owner)

  /** A first day: money in accounts, nothing on hold, no orders. */
  ghost predicate Opening(x: Exchange) {
    && x.db.orders == [] && x.db.fills == [] && x.db.bills == [] && x.cmds == [] && x.making == []
    && x.matched == x.read == 0
    && forall o :: o in x.db.accounts ==> x.db.accounts[o].available >= 0 && x.db.accounts[o].hold == 0
  }

  function Logs(p: Product, x: Exchange): seq<Log>
    requires x.matched <= |x.cmds|
  {
    var r := Run(p, x.cmds[..x.matched]);
    if r.Next? then r.logs else []
  }

  function Step(l: Listing, x: Exchange, e: Event): Exchange
    requires x.matched <= |x.cmds|
  {
    match e
    case Place(seen, user, kind, side, size, price, funds) =>
      var r := PlaceOrder(l, x.db, seen, user, kind, side, size, price, funds);
      if r.None? then x else x.(db := r.value)
    case SendOrder(id) =>
      if !x.db.HasOrder(id) || id in x.submitted then x
      else x.(cmds := x.cmds + [Submit(x.db.orders[id - 1].order)], submitted := x.submitted + {id})
    case SendCancel(id) =>
      if !x.db.HasOrder(id) then x else x.(cmds := x.cmds + [Cancel(x.db.orders[id - 1].order)])
    case Match =>
      if x.matched < |x.cmds| && Run(l.product, x.cmds[..x.matched + 1]).Next? then x.(matched := x.matched + 1) else x
    case ReadLog =>
      var logs := Logs(l.product, x);
      if x.read >= |logs| then x
      else
        var log := logs[x.read];
        x.(db := if log.OpenLog? then OpenOrder(x.db, log.orderId) else x.db,
           making := x.making + FillsOf(log), read := x.read + 1)
    case Write(n) =>
      if n > |x.making| then x
      else x.(db := x.db.(fills := x.db.fills + x.making[..n]), making := x.making[n..])
    case Settle(id) =>
      var r := ExecuteFill(x.db, id);
      if r.None? then x else x.(db := r.value)
    case Pay(owner) => x.(db := ExecuteBill(x.db, owner))
  }

  /** The stream holds orders of the table, none twice. */
  predicate StreamGood(rows: seq<Row>, cmds: seq<Command>, submitted: set<int>) {
    && (forall k :: 0 <= k < |cmds| && cmds[k].Submit? ==>
          1 <= cmds[k].order.id <= |rows| && cmds[k].order == rows[cmds[k].order.id - 1].order
              && cmds[k].order.id in submitted)
    && (forall j, k :: 0 <= j < k < |cmds| && cmds[j].Submit? && cmds[k].Submit? ==>
        cmds[j].order.id != cmds[k].order.id)
  }

  /** The fills as the fill maker made them. */
  function Plain(fills: seq<Fill>): (s: seq<Fill>)
    ensures |s| == |fills| && forall i :: 0 <= i < |fills| ==> s[i] == fills[i].(settled := false)
  {
    seq(|fills|, i requires 0 <= i < |fills| => fills[i].(settled := false))
  }

  ghost predicate Consistent(p: Product, x: Exchange) {
    && Sound(x.db) && FillsFit(x.db.orders, x.making)
    && x.matched <= |x.cmds| && StreamGood(x.db.orders, x.cmds, x.submitted) && Run(p, x.cmds[..x.matched]).Next?
    && x.read <= |Logs(p, x)| && Plain(x.db.fills) + x.making == AllFillsOf(Logs(p, x)[..x.read])
  }

  /** All the money in a currency, counting the fills still being made. */
  ghost function AllMoney(x: Exchange, c: Currency): int { Money(x.db, c) + Sum(x.making, Effect(c)) }

  lemma StreamIsUnique(rows: seq<Row>, cmds: seq<Command>, submitted: set<int>, n: nat)
    requires StreamGood(rows, cmds, submitted) && n <= |cmds|
    ensures UniqueRun(cmds[..n])
  {
  }

  /** Who the logs of the exchange are about. */
  lemma LogsKnown(p: Product, x: Exchange)
    requires Consistent(p, x)
    ensures AllKnown(x.cmds[..x.matched], Logs(p, x)) && NothingAfterDone(Logs(p, x))
  {
    hide Run, Sound;
    StreamIsUnique(x.db.orders, x.cmds, x.submitted, x.matched);
    RunKnown(p, x.cmds[..x.matched]);
  }

  /** A log about an order of the stream names an order of the table, on its side. */
  lemma PlacedInTable(rows: seq<Row>, cmds: seq<Command>, submitted: set<int>, n: nat)
    requires StreamGood(rows, cmds, submitted) && n <= |cmds|
    ensures forall id :: Submitted(cmds[..n], id) ==> 1 <= id <= |rows|
    ensures forall side, id :: Placed(cmds[..n], side, id) ==> 1 <= id <= |rows| && rows[id - 1].order.side == side
  {
  }

  /** The fills a log makes fit the orders they name. */
  lemma NextFillsFit(p: Product, x: Exchange)
    requires Consistent(p, x) && x.read < |Logs(p, x)|
    ensures FillsFit(x.db.orders, FillsOf(Logs(p, x)[x.read]))
  {
    hide Run, Sound, StreamGood, Logs, FillsFit, FillsOf, KnownLog, NothingAfterDone;
    ConsistentParts(p, x);
    LogsKnown(p, x);
    assert KnownLog(x.cmds[..x.matched], Logs(p, x)[x.read]);
    KnownFits(x.db.orders, x.cmds, x.submitted, x.matched, Logs(p, x)[x.read]);
  }

  lemma KnownFits(rows: seq<Row>, cmds: seq<Command>, submitted: set<int>, n: nat, log: Log)
    requires StreamGood(rows, cmds, submitted) && n <= |cmds| && KnownLog(cmds[..n], log)
    ensures FillsFit(rows, FillsOf(log))
  {
    hide StreamGood, Placed, Submitted;
    PlacedInTable(rows, cmds, submitted, n);
  }

  /** The two fills of a trade cancel out, so making fills moves no money. */
  lemma FillsBalance(log: Log, c: Currency)
    ensures Sum(FillsOf(log), Effect(c)) == 0
  {
    SumTwo(FillsOf(log), Effect(c));
  }

  lemma ConsistentParts(p: Product, x: Exchange)
    requires Consistent(p, x)
    ensures Sound(x.db) && RowsNumbered(x.db.orders) && FillsFit(x.db.orders, x.db.fills)
            && FillsFit(x.db.orders, x.making)
    ensures x.matched <= |x.cmds| && StreamGood(x.db.orders, x.cmds, x.submitted) && Run(p, x.cmds[..x.matched]).Next?
    ensures x.read <= |Logs(p, x)| && Plain(x.db.fills) + x.making == AllFillsOf(Logs(p, x)[..x.read])
  {
    hide Run;
  }

  lemma {:induction false} PlainSum(fills: seq<Fill>, f: Fill -> int)
    requires forall x: Fill :: f(x.(settled := false)) == f(x)
    ensures Sum(Plain(fills), f) == Sum(fills, f)
    decreases |fills|
  {
    if fills != [] {
      assert Plain(fills)[..|fills| - 1] == Plain(fills[..|fills| - 1]);
      PlainSum(fills[..|fills| - 1], f);
    }
  }

  /** What a step keeps when it leaves the engine and the fill maker alone. */
  lemma SameEngine(p: Product, x: Exchange, x': Exchange)
    requires Consistent(p, x) && Sound(x'.db) && x' == x.(db := x'.db, cmds := x'.cmds, submitted := x'.submitted)
    requires |x'.cmds| >= |x.cmds| && x'.cmds[..|x.cmds|] == x.cmds
    requires StreamGood(x'.db.orders, x'.cmds, x'.submitted) && FillsFit(x'.db.orders, x.making)
    requires Plain(x'.db.fills) == Plain(x.db.fills)
    ensures Consistent(p, x')
  {
    hide Run, Sound;
    assert x'.cmds[..x.matched] == x.cmds[..x.matched];
  }

  lemma SameOrders(rows: seq<Row>, rows': seq<Row>, cmds: seq<Command>, submitted: set<int>, fills: seq<Fill>)
    requires StreamGood(rows, cmds, submitted) && FillsFit(rows, fills) && |rows'| >= |rows|
    requires forall i :: 0 <= i < |rows| ==> rows'[i].order == rows[i].order
    ensures StreamGood(rows', cmds, submitted) && FillsFit(rows', fills)
  {
    assert forall k :: 0 <= k < |fills| ==> Fits(rows, fills[k]) && Fits(rows', fills[k]);
  }

  lemma SamePlain(db: Db, db': Db)
    requires SameTrades(db, db')
    ensures Plain(db'.fills) == Plain(db.fills)
  {
  }

  lemma PlaceKeeps(l: Listing, x: Exchange, e: Event)
    requires Consistent(l.product, x) && e.Place?
    ensures var x' := Step(l, x, e); Consistent(l.product, x') && forall c :: AllMoney(x', c) == AllMoney(x, c)
  {
    hide Run, Sound, PlaceOrder, Money, Consistent;
    ConsistentParts(l.product, x);
    var x' := Step(l, x, e);
    if PlaceOrder(l, x.db, e.seen, e.user, e.kind, e.side, e.size, e.price, e.funds).Some? {
      PlacedRow(l, x.db, e.seen, e.user, e.kind, e.side, e.size, e.price, e.funds);
      PlaceOrderKeeps(l, x.db, e.seen, e.user, e.kind, e.side, e.size, e.price, e.funds);
      SameOrders(x.db.orders, x'.db.orders, x.cmds, x.submitted, x.making);
      SameEngine(l.product, x, x');
    }
  }

  lemma SendKeeps(l: Listing, x: Exchange, e: Event)
    requires Consistent(l.product, x) && (e.SendOrder? || e.SendCancel?)
    ensures Consistent(l.product, Step(l, x, e)) && Step(l, x, e).db == x.db && Step(l, x, e).making == x.making
  {
    hide Run, Sound, Consistent;
    ConsistentParts(l.product, x);
    var x' := Step(l, x, e);
    SentGood(l, x, e);
    SameEngine(l.product, x, x');
  }

  lemma SentGood(l: Listing, x: Exchange, e: Event)
    requires x.matched <= |x.cmds| && RowsNumbered(x.db.orders) && StreamGood(x.db.orders, x.cmds, x.submitted)
    requires e.SendOrder? || e.SendCancel?
    ensures var x' := Step(l, x, e); StreamGood(x'.db.orders, x'.cmds, x'.submitted) && x.cmds <= x'.cmds
  {
    hide Run;
  }

  lemma MatchKeeps(l: Listing, x: Exchange)
    requires Consistent(l.product, x)
    ensures Consistent(l.product, Step(l, x, Match)) && Step(l, x, Match).db == x.db
            && Step(l, x, Match).making == x.making
  {
    hide Run, Sound, Execute, Replay;
    var p, x' := l.product, Step(l, x, Match);
    if x'.matched > x.matched {
      RunLast(p, x.cmds, x.matched);
      assert Logs(p, x')[..x.read] == Logs(p, x)[..x.read];
    }
  }

  lemma ReadLogKeeps(l: Listing, x: Exchange)
    requires Consistent(l.product, x)
    ensures var x' := Step(l, x, ReadLog); Consistent(l.product, x') && forall c :: AllMoney(x', c) == AllMoney(x, c)
  {
    hide Run, Sound, OpenOrder, Money, Consistent, FillsOf, StreamGood, Sum;
    ConsistentParts(l.product, x);
    var p, x', logs := l.product, Step(l, x, ReadLog), Logs(l.product, x);
    if x.read < |logs| {
      var log := logs[x.read];
      NextFillsFit(p, x);
      if log.OpenLog? { OpenOrderKeeps(x.db, log.orderId); }
      if !log.OpenLog? { Unchanged(x.db); }
      SameOrders(x.db.orders, x'.db.orders, x.cmds, x.submitted, x.making + FillsOf(log));
      SamePlain(x.db, x'.db);
      assert logs[..x.read + 1][..x.read] == logs[..x.read];
      assert Plain(x.db.fills) + (x.making + FillsOf(log)) == Plain(x.db.fills) + x.making + FillsOf(log);
      ReadConsistent(p, x, x');
      forall c ensures AllMoney(x', c) == AllMoney(x, c) {
        SumAppend(x.making, FillsOf(log), Effect(c));
        FillsBalance(log, c);
      }
    }
  }

  lemma Unchanged(db: Db)
    ensures SameTrades(db, db)
  {
  }

  lemma ReadConsistent(p: Product, x: Exchange, x': Exchange)
    requires Consistent(p, x) && x.read < |Logs(p, x)| && Sound(x'.db) && FillsFit(x'.db.orders, x'.making)
    requires x' == x.(db := x'.db, making := x'.making, read := x.read + 1)
    requires StreamGood(x'.db.orders, x.cmds, x.submitted)
    requires Plain(x'.db.fills) + x'.making == AllFillsOf(Logs(p, x)[..x.read + 1])
    ensures Consistent(p, x')
  {
    hide Run, Sound;
  }

  lemma WriteKeeps(l: Listing, x: Exchange, n: nat)
    requires Consistent(l.product, x)
    ensures var x' := Step(l, x, Write(n)); Consistent(l.product, x') && forall c :: AllMoney(x', c) == AllMoney(x, c)
  {
    hide Run, Sound, Money, Consistent;
    ConsistentParts(l.product, x);
    var p, x' := l.product, Step(l, x, Write(n));
    if n <= |x.making| {
      NoneMarked(p, x);
      AddFillsKeeps(x.db, x.making[..n]);
      assert Plain(x.db.fills + x.making[..n]) + x.making[n..] == Plain(x.db.fills) + x.making;
      WrittenConsistent(p, x, x');
      assert x.making[..n] + x.making[n..] == x.making;
      forall c ensures AllMoney(x', c) == AllMoney(x, c) { SumAppend(x.making[..n], x.making[n..], Effect(c)); }
    }
  }

  lemma WrittenConsistent(p: Product, x: Exchange, x': Exchange)
    requires Consistent(p, x) && Sound(x'.db) && x'.db.orders == x.db.orders
             && x' == x.(db := x'.db, making := x'.making)
    requires FillsFit(x'.db.orders, x'.making) && Plain(x'.db.fills) + x'.making == Plain(x.db.fills) + x.making
    ensures Consistent(p, x')
  {
    hide Run, Sound;
  }

  /** Fills on their way to the table are not settled. */
  lemma NoneMarked(p: Product, x: Exchange)
    requires Consistent(p, x)
    ensures forall k :: 0 <= k < |x.making| ==> !x.making[k].settled
  {
    hide Run, Sound;
    NeverSettled(Logs(p, x)[..x.read]);
    forall k | 0 <= k < |x.making| ensures !x.making[k].settled {
      assert x.making[k] == (Plain(x.db.fills) + x.making)[|x.db.fills| + k];
    }
  }

  lemma {:induction false} NeverSettled(logs: seq<Log>)
    ensures forall k :: 0 <= k < |AllFillsOf(logs)| ==> !AllFillsOf(logs)[k].settled
  {
    if logs != [] { NeverSettled(logs[..|logs| - 1]); }
  }

  lemma SettleKeeps(l: Listing, x: Exchange, id: int)
    requires Consistent(l.product, x)
    ensures var x' := Step(l, x, Settle(id)); Consistent(l.product, x') && forall c :: AllMoney(x', c) == AllMoney(x, c)
  {
    hide Run, Sound, Money, ExecuteFill, Consistent;
    ConsistentParts(l.product, x);
    var x' := Step(l, x, Settle(id));
    if ExecuteFill(x.db, id).Some? {
      ExecuteFillKeeps(x.db, id);
      SameOrders(x.db.orders, x'.db.orders, x.cmds, x.submitted, x.making);
      SamePlain(x.db, x'.db);
      SameEngine(l.product, x, x');
    }
  }

  lemma PayKeeps(l: Listing, x: Exchange, owner: Owner)
    requires Consistent(l.product, x)
    ensures var x' := Step(l, x, Pay(owner)); Consistent(l.product, x') && forall c :: AllMoney(x', c) == AllMoney(x, c)
  {
    hide Run, Sound, Money, ExecuteBill, Consistent;
    ConsistentParts(l.product, x);
    ExecuteBillKeeps(x.db, owner);
    SameEngine(l.product, x, Step(l, x, Pay(owner)));
  }

  /** Every step of the exchange keeps its tables sound and all the money of each currency. */
  lemma StepKeeps(l: Listing, x: Exchange, e: Event)
    requires Consistent(l.product, x)
    ensures var x' := Step(l, x, e); Consistent(l.product, x') && forall c :: AllMoney(x', c) == AllMoney(x, c)
  {
    hide Run, Consistent, Step, AllMoney;
    ConsistentParts(l.product, x);
    match e
    case Place(_, _, _, _, _, _, _) => PlaceKeeps(l, x, e);
    case SendOrder(_) => SendKeeps(l, x, e); SameMoney(x, Step(l, x, e));
    case SendCancel(_) => SendKeeps(l, x, e); SameMoney(x, Step(l, x, e));
    case Match => MatchKeeps(l, x); SameMoney(x, Step(l, x, e));
    case ReadLog => ReadLogKeeps(l, x);
    case Write(n) => WriteKeeps(l, x, n);
    case Settle(id) => SettleKeeps(l, x, id);
    case Pay(owner) => PayKeeps(l, x, owner);
  }

  lemma SameMoney(x: Exchange, x': Exchange)
    requires x'.db == x.db && x'.making == x.making
    ensures forall c :: AllMoney(x', c) == AllMoney(x, c)
  {
    hide Money;
  }

  ghost predicate History(l: Listing, xs: seq<Exchange>, events: seq<Event>) {
    && |xs| == |events| + 1 && Opening(xs[0])
    && forall i :: 0 <= i < |events| ==> xs[i].matched <= |xs[i].cmds| && xs[i + 1] == Step(l, xs[i], events[i])
  }

  lemma OpeningConsistent(p: Product, x: Exchange)
    requires Opening(x)
    ensures Consistent(p, x)
  {
    hide Replay;
    RunNothing(p, x.cmds[..0]);
  }

  /** For every history of placing, matching, fill making, settling and paying, in any interleaving,
      whatever is asked for and whatever balances the tests see: the money of each currency, unpaid
      bills and unsettled fills included, never changes, ... */
  lemma {:induction false} MoneyIsConserved(l: Listing, xs: seq<Exchange>, events: seq<Event>, n: nat)
    requires History(l, xs, events) && n <= |events|
    ensures Consistent(l.product, xs[n]) && forall c :: AllMoney(xs[n], c) == AllMoney(xs[0], c)
  {
    hide Consistent, Step, AllMoney, Opening;
    if n == 0 {
      OpeningConsistent(l.product, xs[0]);
    } else {
      MoneyIsConserved(l, xs, events, n - 1);
      StepKeeps(l, xs[n - 1], events[n - 1]);
    }
  }

  /** ... and every owner's hold, with that of unpaid bills, is what the owner's orders tie up: exactly
      what is unspent of the live ones if and only if no closed one spent more than it had. */
  lemma HoldsAreTied(l: Listing, xs: seq<Exchange>, events: seq<Event>, n: nat, owner: Owner)
    requires History(l, xs, events) && n <= |events|
    ensures var db := xs[n].db;
            var hold := HoldIn(db.accounts, owner) + Sum(db.bills, BillHold(owner));
            && hold == Sum(db.orders, RowHold(owner))
            && (hold == Sum(db.orders, LiveHold(owner)) <==>
                forall i :: 0 <= i < |db.orders| && !db.orders[i].Live() && db.orders[i].Holder() == owner ==>
                  db.orders[i].Unspent() >= 0)
  {
    hide Consistent, Step, AllMoney, HoldIn, Sound, Opening;
    MoneyIsConserved(l, xs, events, n);
    ConsistentParts(l.product, xs[n]);
    HoldOf(xs[n].db, owner);
    SumOfSum(xs[n].db.orders, LiveHold(owner), ExcessHold(owner), RowHold(owner));
    SumNonPositive(xs[n].db.orders, ExcessHold(owner));
  }

  function LiveHold(owner: Owner): Row -> int { (r: Row) => if r.Live() && r.Holder() == owner then r.Unspent() else 0 }

  function ExcessHold(owner: Owner): Row -> int {
    (r: Row) => if !r.Live() && r.Holder() == owner then Min(r.Unspent(), 0) else 0
  }

  /** Once everything made is settled and paid, the accounts hold what they held at the opening. */
  lemma NothingOutstanding(l: Listing, xs: seq<Exchange>, events: seq<Event>, n: nat, c: Currency)
    requires History(l, xs, events) && n <= |events| && xs[n].making == []
    requires forall k :: 0 <= k < |xs[n].db.fills| ==> xs[n].db.fills[k].settled
    requires forall k :: 0 <= k < |xs[n].db.bills| ==> xs[n].db.bills[k].settled
    ensures Total(AccountMoney(xs[n].db.accounts, c)) == Total(AccountMoney(xs[0].db.accounts, c))
  {
    hide Consistent, Step, AccountMoney, Total;
    MoneyIsConserved(l, xs, events, n);
    AllZero(xs[n].db.fills, Effect(c));
    AllZero(xs[n].db.bills, BillMoney(c));
    assert AllMoney(xs[n], c) == AllMoney(xs[0], c);
  }
}
