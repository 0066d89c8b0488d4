/** The replica follows the engine: fed the logs of any run it never panics, and between commands it
    holds exactly the resting orders. */
module ReplicaRefinement {
  import opened Market
  import opened Book
  import opened BookInvariant
  import opened AnyRun
  import opened Replica

  /** The replica's entry for one order is what the logs leave of it while it is open. */
  predicate Mirrors(orders: map<int, Entry>, o: Order, logs: seq<Log>) {
    if Alive(logs, o.id) && Unmatched(o, logs) > 0
    then o.id in orders && orders[o.id] == Entry(Unmatched(o, logs), o.price, o.side)
    else o.id !in orders
  }

  ghost predicate MirrorsAll(orders: map<int, Entry>, cmds: seq<Command>, logs: seq<Log>) {
    && (forall o :: Sent(cmds, o) ==> Mirrors(orders, o, logs))
    && (forall id :: id in orders ==> Submitted(cmds, id))
  }

  /** The order whose entry a log changes: the maker of a match. */
  function Changed(log: Log): int { if log.MatchLog? then log.makerId else log.orderId }

  /** What one more log says of an order. */
  lemma AfterLog(before: seq<Log>, log: Log, id: int)
    ensures Opened(before + [log], id) <==> Opened(before, id) || (log.OpenLog? && log.orderId == id)
    ensures Done(before + [log], id) <==> Done(before, id) || (log.DoneLog? && log.orderId == id)
    ensures MatchedSize(before + [log], id)
            == MatchedSize(before, id) + if log.MatchLog? && log.Names(id) then log.size else 0
  {
    hide Opened, Done, MatchedSize;
    StagesAppend(before, [log], id);
    MatchedAppend(before, [log], id);
    OneLog(log, id);
  }

  lemma OneLog(log: Log, id: int)
    ensures Opened([log], id) <==> log.OpenLog? && log.orderId == id
    ensures Done([log], id) <==> log.DoneLog? && log.orderId == id
    ensures MatchedSize([log], id) == if log.MatchLog? && log.Names(id) then log.size else 0
  {
    assert [log][0] == log && [log][1..] == [];
  }

  /** The order that a log in order changes. */
  lemma ChangedOrder(cmds: seq<Command>, before: seq<Log>, log: Log) returns (o: Order)
    requires Follows(cmds, before, log)
    ensures Sent(cmds, o) && o.id == Changed(log)
    ensures match log
            case OpenLog(_, id, remaining, price, side) => OpensAs(cmds, before, o, id, remaining, price, side)
            case MatchLog(_, _, _, id, side, price, size) => TradesAs(cmds, before, o, id, side, price, size)
            case DoneLog(_, id, price, remaining, _, side) => EndsAs(cmds, before, o, id, price, remaining, side)
  {
    hide Sent, Opened, Done, Placed, MatchedSize;
    match log
    case OpenLog(_, id, remaining, price, side) =>
      o :| OpensAs(cmds, before, o, id, remaining, price, side);
    case MatchLog(_, _, _, id, side, price, size) =>
      o :| TradesAs(cmds, before, o, id, side, price, size);
    case DoneLog(_, id, price, remaining, _, side) =>
      o :| EndsAs(cmds, before, o, id, price, remaining, side);
  }

  /** A log in order is taken without panic, and the entry it changes goes on mirroring its order. */
  lemma FeedOwn(r: Replica, cmds: seq<Command>, before: seq<Log>, log: Log) returns (o: Order)
    requires Valid(r) && Follows(cmds, before, log) && MirrorsAll(r.orders, cmds, before)
    ensures Sent(cmds, o) && o.id == Changed(log)
    ensures var s := Feed(r, log);
            && s.Saved? && Valid(s.replica) && Mirrors(s.replica.orders, o, before + [log])
            && forall id :: id != o.id ==>
                 (id in s.replica.orders <==> id in r.orders)
                 && (id in r.orders ==> s.replica.orders[id] == r.orders[id])
  {
    hide Valid, Save, Sent, Opened, Done, MatchedSize, Placed, Submitted;
    o := ChangedOrder(cmds, before, log);
    assert Mirrors(r.orders, o, before);
    AfterLog(before, log, o.id);
    match log
    case MatchLog(seqNo, _, _, makerId, side, price, size) =>
      SaveKeepsValid(r, seqNo, o.id, r.orders[o.id].size - size, price, side);
    case OpenLog(seqNo, _, remaining, price, side) =>
      SaveKeepsValid(r, seqNo, o.id, remaining, price, side);
    case DoneLog(seqNo, _, price, remaining, _, side) =>
      if o.id in r.orders { SaveKeepsValid(r, seqNo, o.id, r.orders[o.id].size - remaining, price, side); }
  }

  /** Whatever it does to one order, a log in order touches no other entry. */
  lemma FeedOther(orders: map<int, Entry>, orders': map<int, Entry>, cmds: seq<Command>, before: seq<Log>, log: Log,
                  o: Order)
    requires Follows(cmds, before, log) && o.id != Changed(log) && Mirrors(orders, o, before)
    requires (o.id in orders' <==> o.id in orders) && (o.id in orders ==> orders'[o.id] == orders[o.id])
    ensures Mirrors(orders', o, before + [log])
  {
    hide Sent, Opened, Done, MatchedSize, Placed;
    AfterLog(before, log, o.id);
  }

  lemma FeedNext(r: Replica, cmds: seq<Command>, before: seq<Log>, log: Log)
    requires UniqueRun(cmds) && Valid(r) && Follows(cmds, before, log) && MirrorsAll(r.orders, cmds, before)
    ensures var s := Feed(r, log);
            s.Saved? && Valid(s.replica) && MirrorsAll(s.replica.orders, cmds, before + [log])
  {
    hide Feed, Mirrors, Valid, Sent, Follows, UniqueRun, Submitted;
    var changed := FeedOwn(r, cmds, before, log);
    SentIsPlaced(cmds, changed);
    var orders := Feed(r, log).replica.orders;
    forall o | Sent(cmds, o) ensures Mirrors(orders, o, before + [log]) {
      if o.id == changed.id {
        SentOnce(cmds, o, changed);
      } else {
        FeedOther(r.orders, orders, cmds, before, log, o);
      }
    }
  }

  /** For every run with unique ids, whatever its prices, sizes and funds: after any number of its logs,
      even in the middle of a command, the replica has not panicked, its level index agrees with its
      orders, and these are the open orders with what the logs so far leave of each. */
  lemma {:induction false} FeedMirrors(p: Product, cmds: seq<Command>, k: nat)
    requires UniqueRun(cmds) && Run(p, cmds).Next? && k <= |Run(p, cmds).logs|
    ensures var s := FeedAll(NewReplica(), Run(p, cmds).logs[..k]);
            s.Saved? && Valid(s.replica) && MirrorsAll(s.replica.orders, cmds, Run(p, cmds).logs[..k])
  {
    hide Run, UniqueRun, FeedAll, Feed, MirrorsAll, Valid, Follows;
    var logs := Run(p, cmds).logs;
    if k == 0 {
      FeedNothing(NewReplica(), logs[..0]);
      NothingMirrored(cmds, logs[..0]);
    } else {
      FeedMirrors(p, cmds, k - 1);
      FeedLast(NewReplica(), logs, k - 1);
      RunFollows(p, cmds, k - 1);
      FeedNext(FeedAll(NewReplica(), logs[..k - 1]).replica, cmds, logs[..k - 1], logs[k - 1]);
      assert logs[..k - 1] + [logs[k - 1]] == logs[..k];
    }
  }

  lemma NothingMirrored(cmds: seq<Command>, logs: seq<Log>)
    requires logs == []
    ensures Valid(NewReplica()) && MirrorsAll(NewReplica().orders, cmds, logs)
  {
    assert forall side: Side, price: int :: At(NewReplica().orders, side, price) == map[];
  }

  /** The same orders, by id, size, price and side. */
  ghost predicate SameOrders(orders: map<int, Entry>, b: Book) {
    && (forall id :: id in orders ==> RestsIn(b, id))
    && (forall o: Order :: o in b.Queue(o.side) ==> o.id in orders && orders[o.id] == Entry(o.size, o.price, o.side))
  }

  /** After the logs of each command the replica holds exactly the engine's resting orders. */
  lemma ReplicaRefinesBook(p: Product, cmds: seq<Command>, n: nat)
    requires UniqueRun(cmds) && n <= |cmds| && Run(p, cmds[..n]).Next?
    ensures var s := FeedAll(NewReplica(), Run(p, cmds[..n]).logs);
            s.Saved? && Valid(s.replica) && SameOrders(s.replica.orders, Run(p, cmds[..n]).book)
  {
    hide Run, UniqueRun, FeedAll, Valid, MirrorsAll, Account, Inv, SameOrders;
    UniquePrefix(cmds, n);
    var mine := cmds[..n];
    assert mine[..n] == mine;
    RunKeepsInv(p, mine);
    RunAccount(p, mine, n);
    var b, logs := Run(p, mine).book, Run(p, mine).logs;
    FeedMirrors(p, mine, |logs|);
    assert logs[..|logs|] == logs;
    AccountedAndMirrored(mine, b, FeedAll(NewReplica(), logs).replica.orders, logs);
  }

  lemma AccountedAndMirrored(cmds: seq<Command>, b: Book, orders: map<int, Entry>, logs: seq<Log>)
    requires Inv(b) && Account(cmds, b, logs) && MirrorsAll(orders, cmds, logs)
    ensures SameOrders(orders, b)
  {
    hide Inv, Sent, Opened, Done, MatchedSize, RestsIn, Submitted, AllFollow;
    forall id | id in orders ensures RestsIn(b, id) {
      var o := SubmittedIsSent(cmds, id);
      assert Mirrors(orders, o, logs);
    }
    forall r: Order | r in b.Queue(r.side) ensures r.id in orders && orders[r.id] == Entry(r.size, r.price, r.side) {
      var i :| 0 <= i < |b.Queue(r.side)| && b.Queue(r.side)[i] == r;
      LimitAt(b, r.side, i);
      assert Held(cmds, logs, r);
      var o :| Sent(cmds, o) && r == o.(size := Unmatched(o, logs));
      assert Mirrors(orders, o, logs);
    }
  }
}
