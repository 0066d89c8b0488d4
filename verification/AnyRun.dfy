/** What the logs of a run say of its orders, whatever their prices, sizes and funds. */
module AnyRun {
  import opened Market
  import opened Decimals
  import opened Book
  import opened PriceTime
  import opened BookInvariant
  import opened Recovery

  // What some logs say of one order.

  predicate Opened(logs: seq<Log>, id: int) { exists k :: 0 <= k < |logs| && logs[k].OpenLog? && logs[k].orderId == id }

  predicate Done(logs: seq<Log>, id: int) { exists k :: 0 <= k < |logs| && logs[k].DoneLog? && logs[k].orderId == id }

  predicate Alive(logs: seq<Log>, id: int) { Opened(logs, id) && !Done(logs, id) }

  /** The sizes of the trades an order took part in. */
  function MatchedSize(logs: seq<Log>, id: int): int {
    if logs == [] then 0
    else (if logs[0].MatchLog? && logs[0].Names(id) then logs[0].size else 0) + MatchedSize(logs[1..], id)
  }

  /** The values of the trades an order took part in. */
  function MatchedValue(logs: seq<Log>, id: int): int {
    if logs == [] then 0
    else (if logs[0].MatchLog? && logs[0].Names(id) then logs[0].size * logs[0].price else 0)
         + MatchedValue(logs[1..], id)
  }

  /** What its trades left of an order's size. */
  function Unmatched(o: Order, logs: seq<Log>): int { o.size - MatchedSize(logs, o.id) }

  lemma {:induction false} MatchedAppend(a: seq<Log>, b: seq<Log>, id: int)
    ensures MatchedSize(a + b, id) == MatchedSize(a, id) + MatchedSize(b, id)
    ensures MatchedValue(a + b, id) == MatchedValue(a, id) + MatchedValue(b, id)
  {
    if a == [] {
      assert a + b == b;
    } else {
      assert (a + b)[1..] == a[1..] + b;
      MatchedAppend(a[1..], b, id);
    }
  }

  lemma StagesAppend(a: seq<Log>, b: seq<Log>, id: int)
    ensures Opened(a + b, id) <==> Opened(a, id) || Opened(b, id)
    ensures Done(a + b, id) <==> Done(a, id) || Done(b, id)
  {
    assert forall i :: 0 <= i < |a| ==> (a + b)[i] == a[i];
    forall i | 0 <= i < |b| ensures (a + b)[|a| + i] == b[i] {
    }
    if Opened(b, id) {
      var i :| 0 <= i < |b| && b[i].OpenLog? && b[i].orderId == id;
      assert (a + b)[|a| + i].OpenLog?;
    }
    if Done(b, id) {
      var i :| 0 <= i < |b| && b[i].DoneLog? && b[i].orderId == id;
      assert (a + b)[|a| + i].DoneLog?;
    }
  }

  lemma {:induction false} UnnamedUnmatched(logs: seq<Log>, id: int)
    requires !LogsName(logs, id)
    ensures MatchedSize(logs, id) == 0 && MatchedValue(logs, id) == 0
  {
    if logs != [] {
      assert !logs[0].Names(id);
      assert logs == [logs[0]] + logs[1..];
      LogsNameAppend([logs[0]], logs[1..], id);
      UnnamedUnmatched(logs[1..], id);
    }
  }

  lemma UnnamedStages(logs: seq<Log>, id: int)
    ensures Opened(logs, id) || Done(logs, id) ==> LogsName(logs, id)
  {
    if Opened(logs, id) {
      var k :| 0 <= k < |logs| && logs[k].OpenLog? && logs[k].orderId == id;
      assert logs[k].Names(id);
    }
    if Done(logs, id) {
      var k :| 0 <= k < |logs| && logs[k].DoneLog? && logs[k].orderId == id;
      assert logs[k].Names(id);
    }
  }

  /** Logs that do not name an order say nothing of it. */
  lemma SaysNothing(before: seq<Log>, more: seq<Log>, id: int)
    requires !LogsName(more, id)
    ensures MatchedSize(before + more, id) == MatchedSize(before, id)
    ensures Opened(before + more, id) == Opened(before, id) && Done(before + more, id) == Done(before, id)
  {
    MatchedAppend(before, more, id);
    UnnamedUnmatched(more, id);
    UnnamedStages(more, id);
    StagesAppend(before, more, id);
  }

  // Who the orders are.

  predicate Sent(cmds: seq<Command>, o: Order) { exists i :: 0 <= i < |cmds| && cmds[i] == Submit(o) }

  predicate Placed(cmds: seq<Command>, side: Side, id: int) {
    exists i :: 0 <= i < |cmds| && cmds[i].Submit? && cmds[i].order.id == id && cmds[i].order.side == side
  }

  lemma SentIsPlaced(cmds: seq<Command>, o: Order)
    requires Sent(cmds, o)
    ensures Placed(cmds, o.side, o.id) && Submitted(cmds, o.id)
  {
    var i :| 0 <= i < |cmds| && cmds[i] == Submit(o);
    assert cmds[i].order.id == o.id;
  }

  lemma SubmittedIsSent(cmds: seq<Command>, id: int) returns (o: Order)
    requires Submitted(cmds, id)
    ensures Sent(cmds, o) && o.id == id
  {
    var i :| 0 <= i < |cmds| && cmds[i].Submit? && cmds[i].order.id == id;
    o := cmds[i].order;
  }

  lemma SentOnce(cmds: seq<Command>, o1: Order, o2: Order)
    requires UniqueRun(cmds) && Sent(cmds, o1) && Sent(cmds, o2) && o1.id == o2.id
    ensures o1 == o2
  {
    var i :| 0 <= i < |cmds| && cmds[i] == Submit(o1);
    var j :| 0 <= j < |cmds| && cmds[j] == Submit(o2);
  }

  lemma MoreSent(cmds: seq<Command>, n: nat)
    requires n < |cmds|
    ensures forall o :: Sent(cmds[..n], o) ==> Sent(cmds[..n + 1], o)
    ensures forall side, id :: Placed(cmds[..n], side, id) ==> Placed(cmds[..n + 1], side, id)
    ensures cmds[n].Submit? ==> Sent(cmds[..n + 1], cmds[n].order)
  {
    assert cmds[..n + 1][n] == cmds[n];
    forall o | Sent(cmds[..n], o) ensures Sent(cmds[..n + 1], o) {
      var i :| 0 <= i < n && cmds[..n][i] == Submit(o);
      assert cmds[..n + 1][i] == Submit(o);
    }
    forall side, id | Placed(cmds[..n], side, id) ensures Placed(cmds[..n + 1], side, id) {
      var i :| 0 <= i < n && cmds[..n][i].Submit? && cmds[..n][i].order.id == id && cmds[..n][i].order.side == side;
      assert cmds[..n + 1][i] == cmds[i];
    }
  }

  // The account that a run gives of its orders.

  /** After the logs `before`, this one is in order: an order is opened once, at its price, for exactly
      what its trades left; a trade is between two orders on opposite sides, the maker open and not
      ended, at the maker's price and within what is left of it, the taker neither open nor ended; an
      order ends once, and a limit order for exactly what is left of it. */
  ghost predicate Follows(cmds: seq<Command>, before: seq<Log>, log: Log) {
    match log
    case OpenLog(_, id, remaining, price, side) =>
      !Opened(before, id) && !Done(before, id) && exists o :: OpensAs(cmds, before, o, id, remaining, price, side)
    case MatchLog(_, _, takerId, makerId, side, price, size) =>
      && takerId != makerId && Placed(cmds, side.Opposite(), takerId) && !Opened(before, takerId)
      && !Done(before, takerId) && Alive(before, makerId) && size != 0
      && exists o :: TradesAs(cmds, before, o, makerId, side, price, size)
    case DoneLog(_, id, price, remaining, _, side) =>
      !Done(before, id) && exists o :: EndsAs(cmds, before, o, id, price, remaining, side)
  }

  predicate OpensAs(cmds: seq<Command>, before: seq<Log>, o: Order, id: int, remaining: int, price: int, side: Side) {
    Sent(cmds, o) && o.id == id && o.kind.Limit? && o.price == price && o.side == side
    && remaining == Unmatched(o, before) > 0
  }

  predicate TradesAs(cmds: seq<Command>, before: seq<Log>, o: Order, id: int, side: Side, price: int, size: int) {
    Sent(cmds, o) && o.id == id && o.kind.Limit? && o.side == side && o.price == price
    && size <= Unmatched(o, before) && 0 < Unmatched(o, before)
  }

  predicate EndsAs(cmds: seq<Command>, before: seq<Log>, o: Order, id: int, price: int, remaining: int, side: Side) {
    Sent(cmds, o) && o.id == id && o.side == side
        && (o.kind.Limit? ==> o.price == price && remaining == Unmatched(o, before))
    && (Opened(before, id) ==> o.kind.Limit? && remaining >= 0)
  }

  ghost predicate AllFollow(cmds: seq<Command>, before: seq<Log>, logs: seq<Log>) {
    forall k :: 0 <= k < |logs| ==> Follows(cmds, before + logs[..k], logs[k])
  }

  /** A resting order is an order of the run with what its trades left, open and not ended. */
  ghost predicate Held(cmds: seq<Command>, logs: seq<Log>, r: Order) {
    Alive(logs, r.id) && exists o :: Sent(cmds, o) && r == o.(size := Unmatched(o, logs))
  }

  ghost predicate AllHeld(cmds: seq<Command>, logs: seq<Log>, q: seq<Order>) {
    forall i :: 0 <= i < |q| ==> Held(cmds, logs, q[i])
  }

  /** Every log is in order, every resting order is held, and every order open and not ended rests. */
  ghost predicate Account(cmds: seq<Command>, b: Book, logs: seq<Log>) {
    && AllFollow(cmds, [], logs) && AllHeld(cmds, logs, b.asks) && AllHeld(cmds, logs, b.bids)
    && forall id :: Alive(logs, id) ==> RestsIn(b, id)
  }

  lemma FollowAppend(cmds: seq<Command>, before: seq<Log>, a: seq<Log>, b: seq<Log>)
    requires AllFollow(cmds, before, a) && AllFollow(cmds, before + a, b)
    ensures AllFollow(cmds, before, a + b)
  {
    hide Follows;
    forall k | 0 <= k < |a + b| ensures Follows(cmds, before + (a + b)[..k], (a + b)[k]) {
      if k < |a| {
        assert (a + b)[..k] == a[..k];
      } else {
        assert before + (a + b)[..k] == before + a + b[..k - |a|];
      }
    }
  }

  lemma FollowOne(cmds: seq<Command>, before: seq<Log>, log: Log)
    requires Follows(cmds, before, log)
    ensures AllFollow(cmds, before, [log])
  {
    hide Follows;
    assert before + [log][..0] == before;
  }

  lemma StillHeld(cmds: seq<Command>, before: seq<Log>, more: seq<Log>, r: Order)
    requires Held(cmds, before, r) && !LogsName(more, r.id)
    ensures Held(cmds, before + more, r)
  {
    hide MatchedSize, Opened, Done, Sent;
    SaysNothing(before, more, r.id);
  }

  lemma AllStillHeld(cmds: seq<Command>, before: seq<Log>, more: seq<Log>, q: seq<Order>)
    requires AllHeld(cmds, before, q) && forall i :: 0 <= i < |q| ==> !LogsName(more, q[i].id)
    ensures AllHeld(cmds, before + more, q)
  {
    hide Held;
    forall i | 0 <= i < |q| ensures Held(cmds, before + more, q[i]) { StillHeld(cmds, before, more, q[i]); }
  }

  // One trade.

  lemma TradeSays(takerId: int, m: Order, size: int, l: nat, t: nat)
    requires takerId != m.id
    ensures var logs := TradeLogs(takerId, m, size, l, t);
            && (forall id :: LogsName(logs, id) <==> id == takerId || id == m.id)
            && (forall id :: !Opened(logs, id)) && (forall id :: Done(logs, id) <==> size == m.size && id == m.id)
            && MatchedSize(logs, takerId) == MatchedSize(logs, m.id) == size
            && MatchedSize([logs[0]], m.id) == size
  {
    var logs := TradeLogs(takerId, m, size, l, t);
    assert logs[0].Names(takerId) && logs[0].Names(m.id) && [logs[0]][1..] == [];
    if size == m.size {
      assert logs[1].DoneLog? && logs[1].orderId == m.id && logs[1..] == [logs[1]] && [logs[1]][1..] == [];
      assert MatchedSize([logs[1]], takerId) == MatchedSize([logs[1]], m.id) == 0;
    } else {
      assert logs[1..] == [];
    }
  }

  lemma TradeFollows(cmds: seq<Command>, before: seq<Log>, takerId: int, m: Order, size: int, l: nat, t: nat)
    requires Held(cmds, before, m) && m.kind.Limit? && m.size > 0 && size != 0 && size <= m.size
    requires Placed(cmds, m.side.Opposite(), takerId) && takerId != m.id
    requires !Opened(before, takerId) && !Done(before, takerId)
    ensures AllFollow(cmds, before, TradeLogs(takerId, m, size, l, t))
    ensures size < m.size ==> Held(cmds, before + TradeLogs(takerId, m, size, l, t), m.(size := m.size - size))
  {
    hide MatchedSize, Opened, Done, Sent, Placed, LogsName, AllFollow;
    var logs := TradeLogs(takerId, m, size, l, t);
    var o :| Sent(cmds, o) && m == o.(size := Unmatched(o, before));
    TradeSays(takerId, m, size, l, t);
    MatchedAppend(before, [logs[0]], m.id);
    StagesAppend(before, [logs[0]], m.id);
    assert !Done([logs[0]], m.id) && !Opened([logs[0]], m.id) by { OnlyMatch(logs[0], m.id); }
    assert TradesAs(cmds, before, o, m.id, m.side, m.price, size);
    FollowOne(cmds, before, logs[0]);
    if size == m.size {
      assert EndsAs(cmds, before + [logs[0]], o, m.id, m.price, 0, m.side);
      FollowOne(cmds, before + [logs[0]], logs[1]);
      FollowAppend(cmds, before, [logs[0]], [logs[1]]);
      assert logs == [logs[0]] + [logs[1]];
    } else {
      assert logs == [logs[0]];
      assert m.(size := m.size - size) == o.(size := Unmatched(o, before + logs));
    }
  }

  lemma OnlyMatch(log: Log, id: int)
    requires log.MatchLog?
    ensures !Done([log], id) && !Opened([log], id)
  {
  }

  // The matching loop.

  ghost predicate SweepAccounted(cmds: seq<Command>, before: seq<Log>, taker: Order, makers: seq<Order>, r: SweepResult)
    requires r.Swept?
  {
    && AllFollow(cmds, before, r.logs) && AllHeld(cmds, before + r.logs, r.makers)
    && (forall id :: !Opened(r.logs, id))
    && (forall id :: Done(r.logs, id) <==> HasId(makers, id) && !HasId(r.makers, id))
    && (!taker.IsMarketBuy() ==> r.taker.size == taker.size - MatchedSize(r.logs, taker.id))
  }

  lemma {:induction false} SweepAccount(p: Product, cmds: seq<Command>, before: seq<Log>, taker: Order,
                                        makers: seq<Order>, l: nat, t: nat)
    requires QueueInv(taker.side.Opposite(), makers) && AllHeld(cmds, before, makers) && !HasId(makers, taker.id)
    requires Placed(cmds, taker.side, taker.id) && !Opened(before, taker.id) && !Done(before, taker.id)
    ensures var r := Sweep(p, taker, makers, l, t); r.Swept? ==> SweepAccounted(cmds, before, taker, makers, r)
    decreases makers
  {
    hide SweepAccounted, QueueInv, Wants, Held, Placed, Opened, Done, AllHeld;
    var r := Sweep(p, taker, makers, l, t);
    if r.Swept? && r.logs != [] {
      var m, size := makers[0], Min(Wants(p, taker, makers[0]), makers[0].size);
      var charged, l' := Charge(taker, m.price, size), l + if size == m.size then 2 else 1;
      var head, rest := TradeLogs(taker.id, m, size, l, t), Sweep(p, charged, makers[1..], l', t + 1);
      SweepStep(p, taker, makers, l, t, size);
      assert m.size > 0 by { HeadPositive(taker.side.Opposite(), makers); }
      HeadFollows(cmds, before, taker, makers, size, l, t);
      SweepAccount(p, cmds, before + head, charged, makers[1..], l', t + 1);
      forall id | LogsName(rest.logs, id) ensures id == taker.id || HasId(makers[1..], id) {
        SweepNames(p, charged, makers[1..], l', t + 1, id);
      }
      SweepKeepsQueue(p, charged, taker.side.Opposite(), makers[1..], l', t + 1);
      SweepAccountOn(cmds, before, taker, makers, size, l, t, charged, rest);
    } else if r.Swept? {
      NothingSwept(cmds, before, taker, makers);
    }
  }

  lemma HeadPositive(side: Side, q: seq<Order>)
    requires QueueInv(side, q) && q != []
    ensures q[0].size > 0
  {
  }

  lemma NothingSwept(cmds: seq<Command>, before: seq<Log>, taker: Order, makers: seq<Order>)
    requires AllHeld(cmds, before, makers)
    ensures SweepAccounted(cmds, before, taker, makers, Swept(taker, makers, []))
  {
    assert before + [] == before;
  }

  /** The first trade of the loop, and what it leaves for the rest. */
  lemma HeadFollows(cmds: seq<Command>, before: seq<Log>, taker: Order, makers: seq<Order>, size: int, l: nat, t: nat)
    requires makers != [] && QueueInv(taker.side.Opposite(), makers) && AllHeld(cmds, before, makers)
    requires !HasId(makers, taker.id) && size != 0 && size <= makers[0].size
    requires Placed(cmds, taker.side, taker.id) && !Opened(before, taker.id) && !Done(before, taker.id)
    ensures var after := before + TradeLogs(taker.id, makers[0], size, l, t);
            && AllFollow(cmds, before, TradeLogs(taker.id, makers[0], size, l, t))
            && AllHeld(cmds, after, Left(makers[0], size)) && AllHeld(cmds, after, makers[1..])
            && !Opened(after, taker.id) && !Done(after, taker.id)
            && QueueInv(taker.side.Opposite(), makers[1..]) && !HasId(makers[1..], taker.id)
  {
    hide Held, AllFollow, Opened, Done, MatchedSize, LogsName, Placed;
    var head := TradeLogs(taker.id, makers[0], size, l, t);
    assert makers[0].id != taker.id;
    TradeFollows(cmds, before, taker.id, makers[0], size, l, t);
    TradeSays(taker.id, makers[0], size, l, t);
    StagesAppend(before, head, taker.id);
    TailInv(taker.side.Opposite(), makers);
    assert forall i :: 0 <= i < |makers[1..]| ==> makers[1..][i] == makers[i + 1];
    AllStillHeld(cmds, before, head, makers[1..]);
  }

  lemma SweepAccountOn(cmds: seq<Command>, before: seq<Log>, taker: Order, makers: seq<Order>, size: int, l: nat,
                         t: nat, charged: Order, rest: SweepResult)
    requires makers != [] && QueueInv(taker.side.Opposite(), makers) && makers[0].id != taker.id && rest.Swept?
    requires charged == Charge(taker, makers[0].price, size)
    requires AllFollow(cmds, before, TradeLogs(taker.id, makers[0], size, l, t))
    requires AllHeld(cmds, before + TradeLogs(taker.id, makers[0], size, l, t), Left(makers[0], size))
    requires SweepAccounted(cmds, before + TradeLogs(taker.id, makers[0], size, l, t), charged, makers[1..], rest)
    requires Thinned(rest.makers, makers[1..])
    requires forall id :: LogsName(rest.logs, id) ==> id == taker.id || HasId(makers[1..], id)
    ensures SweepAccounted(cmds, before, taker, makers,
                           Prepend(Left(makers[0], size), TradeLogs(taker.id, makers[0], size, l, t), rest))
  {
    hide Held, AllFollow, Opened, Done, MatchedSize, LogsName, Follows;
    var m, head, left := makers[0], TradeLogs(taker.id, makers[0], size, l, t), Left(makers[0], size);
    TradeSays(taker.id, m, size, l, t);
    FollowAppend(cmds, before, head, rest.logs);
    assert before + (head + rest.logs) == before + head + rest.logs;
    TailIds(makers);
    if left != [] { StillHeld(cmds, before + head, rest.logs, left[0]); }
    MatchedAppend(head, rest.logs, taker.id);
    ThinnedIds(makers[1..], rest.makers);
    forall id ensures !Opened(head + rest.logs, id)
      ensures Done(head + rest.logs, id) <==> HasId(makers, id) && !HasId(left + rest.makers, id)
    {
      StagesAppend(head, rest.logs, id);
      IdsAppend(left, rest.makers, id);
    }
  }

  lemma TailIds(q: seq<Order>)
    requires q != [] && UniqueIds(q)
    ensures forall id :: HasId(q, id) <==> id == q[0].id || HasId(q[1..], id)
    ensures !HasId(q[1..], q[0].id)
  {
    assert forall i :: 0 <= i < |q[1..]| ==> q[1..][i] == q[i + 1];
    forall id ensures HasId(q, id) <==> id == q[0].id || HasId(q[1..], id) {
      if HasId(q, id) && id != q[0].id {
        var i :| 0 <= i < |q| && q[i].id == id;
        assert q[1..][i - 1].id == id;
      }
      if HasId(q[1..], id) {
        var i :| 0 <= i < |q[1..]| && q[1..][i].id == id;
        assert q[i + 1].id == id;
      }
    }
  }

  lemma IdsAppend(a: seq<Order>, b: seq<Order>, id: int)
    ensures HasId(a + b, id) <==> HasId(a, id) || HasId(b, id)
  {
    if HasId(a, id) {
      var i :| 0 <= i < |a| && a[i].id == id;
      assert (a + b)[i].id == id;
    }
    if HasId(b, id) {
      var i :| 0 <= i < |b| && b[i].id == id;
      assert (a + b)[|a| + i].id == id;
    }
  }

  // One command.

  lemma FollowMore(cmds: seq<Command>, n: nat, before: seq<Log>, log: Log)
    requires n < |cmds| && Follows(cmds[..n], before, log)
    ensures Follows(cmds[..n + 1], before, log)
  {
    hide Sent, Placed, Opened, Done, MatchedSize;
    MoreSent(cmds, n);
    match log
    case OpenLog(_, id, remaining, price, side) =>
      var o :| OpensAs(cmds[..n], before, o, id, remaining, price, side);
      assert OpensAs(cmds[..n + 1], before, o, id, remaining, price, side);
    case MatchLog(_, _, _, id, side, price, size) =>
      var o :| TradesAs(cmds[..n], before, o, id, side, price, size);
      assert TradesAs(cmds[..n + 1], before, o, id, side, price, size);
    case DoneLog(_, id, price, remaining, _, side) =>
      var o :| EndsAs(cmds[..n], before, o, id, price, remaining, side);
      assert EndsAs(cmds[..n + 1], before, o, id, price, remaining, side);
  }

  lemma HeldMore(cmds: seq<Command>, n: nat, logs: seq<Log>, q: seq<Order>)
    requires n < |cmds| && AllHeld(cmds[..n], logs, q)
    ensures AllHeld(cmds[..n + 1], logs, q)
  {
    hide Sent, Placed, Opened, Done, MatchedSize;
    MoreSent(cmds, n);
    forall i | 0 <= i < |q| ensures Held(cmds[..n + 1], logs, q[i]) {
      assert Held(cmds[..n], logs, q[i]);
    }
  }

  lemma AccountMore(cmds: seq<Command>, n: nat, b: Book, logs: seq<Log>)
    requires n < |cmds| && Account(cmds[..n], b, logs)
    ensures Account(cmds[..n + 1], b, logs)
  {
    hide Follows, Held, Alive;
    HeldMore(cmds, n, logs, b.asks);
    HeldMore(cmds, n, logs, b.bids);
    forall k | 0 <= k < |logs| ensures Follows(cmds[..n + 1], [] + logs[..k], logs[k]) {
      FollowMore(cmds, n, [] + logs[..k], logs[k]);
    }
  }

  /** The log that closes an application is in order. */
  lemma ClosingFollows(cmds: seq<Command>, logs: seq<Log>, o: Order, t: Order, more: seq<Log>, l: nat)
    requires Sent(cmds, o) && !LogsName(logs, o.id) && (forall id :: !Opened(more, id)) && !Done(more, o.id)
    requires t == if o.IsMarketBuy() then t else t.(size := o.size - MatchedSize(more, o.id))
    requires t.id == o.id && t.side == o.side && t.kind == o.kind && (o.kind.Limit? ==> t == o.(size := t.size))
    ensures Follows(cmds, logs + more, ClosingLog(t, l))
    ensures var all := logs + (more + [ClosingLog(t, l)]);
            (Alive(all, o.id) <==> Rests(t)) && (Rests(t) ==> Held(cmds, all, t))
  {
    hide MatchedSize, Opened, Done, Sent;
    var closing := ClosingLog(t, l);
    var all := logs + (more + [closing]);
    UnnamedUnmatched(logs, o.id);
    UnnamedStages(logs, o.id);
    StagesAppend(logs, more, o.id);
    MatchedAppend(logs, more, o.id);
    ClosingSays(closing, o.id);
    assert all == logs + more + [closing];
    StagesAppend(logs + more, [closing], o.id);
    MatchedAppend(logs + more, [closing], o.id);
    if Rests(t) {
      assert OpensAs(cmds, logs + more, o, o.id, t.size, t.price, t.side);
      assert t == o.(size := Unmatched(o, all));
    } else {
      assert EndsAs(cmds, logs + more, o, o.id, closing.price, closing.remaining, t.side);
    }
  }

  lemma ClosingSays(log: Log, id: int)
    requires !log.MatchLog?
    ensures MatchedSize([log], id) == 0
    ensures Opened([log], id) <==> log.OpenLog? && log.orderId == id
    ensures Done([log], id) <==> log.DoneLog? && log.orderId == id
  {
    assert [log][1..] == [] && [log][0] == log;
  }

  /** The queues after an application. */
  lemma AppliedHeld(cmds: seq<Command>, b: Book, logs: seq<Log>, o: Order, t: Order, left: seq<Order>,
                    more: seq<Log>, closing: Log)
    requires Inv(b) && !RestsIn(b, o.id) && Account(cmds, b, logs) && t.id == o.id
    requires AllHeld(cmds, logs + more, left) && Thinned(left, b.Queue(o.side.Opposite()))
    requires forall id :: LogsName(more, id) ==> id == o.id || HasId(b.Queue(o.side.Opposite()), id)
    requires forall id :: closing.Names(id) <==> id == o.id
    requires Rests(t) ==> Held(cmds, logs + (more + [closing]), t)
    ensures var all := logs + (more + [closing]);
            var own := if Rests(t) then Insert(o.side, b.Queue(o.side), t) else b.Queue(o.side);
            AllHeld(cmds, all, left) && AllHeld(cmds, all, own)
  {
    hide Held, Insert, AllFollow, LogsName, Alive, Thinned, QueueInv, HasId;
    var makers, own, all := b.Queue(o.side.Opposite()), b.Queue(o.side), logs + (more + [closing]);
    assert all == logs + more + [closing];
    ThinnedIds(makers, left);
    OwnIds(left);
    OwnIds(own);
    forall id ensures LogsName([closing], id) <==> id == o.id { NamesOne(closing, id); }
    AllStillHeld(cmds, logs + more, [closing], left);
    forall i | 0 <= i < |own| ensures !LogsName(more + [closing], own[i].id) {
      assert !HasId(makers, own[i].id) by { NotAcross(b, o.side, i); }
      LogsNameAppend(more, [closing], own[i].id);
    }
    AllStillHeld(cmds, logs, more + [closing], own);
    if Rests(t) { InsertHeld(cmds, all, o.side, own, t); }
  }

  lemma NamesOne(log: Log, id: int)
    ensures LogsName([log], id) <==> log.Names(id)
  {
    assert [log][0] == log;
  }

  lemma NotAcross(b: Book, side: Side, i: nat)
    requires Inv(b) && i < |b.Queue(side)|
    ensures !HasId(b.Queue(side.Opposite()), b.Queue(side)[i].id)
  {
  }

  lemma OwnIds(q: seq<Order>)
    ensures forall i :: 0 <= i < |q| ==> HasId(q, q[i].id)
  {
  }

  lemma InsertHeld(cmds: seq<Command>, logs: seq<Log>, side: Side, q: seq<Order>, t: Order)
    requires AllHeld(cmds, logs, q) && Held(cmds, logs, t)
    ensures AllHeld(cmds, logs, Insert(side, q, t))
  {
    hide Held;
    var k, r := Slot(side, q, t.price, t.id), Insert(side, q, t);
    InsertedAtSlices(q, k, t);
    forall i | 0 <= i < |r| ensures Held(cmds, logs, r[i]) {
      if i != k { assert r[i] == q[if i < k then i else i - 1]; }
    }
  }

  /** Who rests after an application. */
  lemma AppliedRests(cmds: seq<Command>, b: Book, b': Book, logs: seq<Log>, o: Order, t: Order, more: seq<Log>,
                     closing: Log)
    requires Account(cmds, b, logs) && t.id == o.id && (forall id :: !Opened(more, id))
    requires var side := o.side.Opposite();
             forall id :: Done(more, id) <==> HasId(b.Queue(side), id) && !HasId(b'.Queue(side), id)
    requires !closing.MatchLog? && closing.orderId == o.id
    requires Alive(logs + (more + [closing]), o.id) ==> Rests(t)
    requires b'.Queue(o.side) == if Rests(t) then Insert(o.side, b.Queue(o.side), t) else b.Queue(o.side)
    ensures forall id :: Alive(logs + (more + [closing]), id) ==> RestsIn(b', id)
  {
    hide Insert, AllHeld, AllFollow, Opened, Done, HasId;
    if Rests(t) { InsertIds(o.side, b.Queue(o.side), t); }
    forall id | Alive(logs + (more + [closing]), id) ensures RestsIn(b', id) {
      if id != o.id {
        ClosingSays(closing, id);
        StagesAppend(more, [closing], id);
        StagesAppend(logs, more + [closing], id);
        assert RestsIn(b, id);
      }
    }
  }

  lemma InsertIds(side: Side, q: seq<Order>, t: Order)
    ensures forall id :: HasId(q, id) || id == t.id ==> HasId(Insert(side, q, t), id)
  {
    var k, r := Slot(side, q, t.price, t.id), Insert(side, q, t);
    InsertedAtSlices(q, k, t);
    forall id | HasId(q, id) || id == t.id ensures HasId(r, id) {
      if id == t.id {
        assert r[k].id == id;
      } else {
        var i :| 0 <= i < |q| && q[i].id == id;
        assert r[if i < k then i else i + 1].id == id;
      }
    }
  }

  lemma ApplyAccount(p: Product, cmds: seq<Command>, b: Book, logs: seq<Log>, o: Order)
    requires Inv(b) && !RestsIn(b, o.id) && b.window.Accepts(o.id) && ApplyOrder(p, b, o).Next?
    requires Sent(cmds, o) && Account(cmds, b, logs) && !LogsName(logs, o.id)
    ensures var r := ApplyOrder(p, b, o); Account(cmds, r.book, logs + r.logs)
  {
    hide Sweep, Follows, Held, Insert, LogsName, Opened, Done, Sent, Placed, Alive, Thinned, MatchedSize, QueueInv, Inv,
         AllHeld, HasId, AllFollow, ClosingLog;
    var taker, makers := Priced(p, o), b.Queue(o.side.Opposite());
    var r := Sweep(p, taker, makers, b.logSeq, b.tradeSeq);
    InvQueue(b, o.side.Opposite());
    SentIsPlaced(cmds, o);
    UnnamedStages(logs, o.id);
    SweepAccount(p, cmds, logs, taker, makers, b.logSeq, b.tradeSeq);
    SweepKeepsQueue(p, taker, o.side.Opposite(), makers, b.logSeq, b.tradeSeq);
    SweepKeepsTaker(p, taker, makers, b.logSeq, b.tradeSeq);
    forall id | LogsName(r.logs, id) ensures id == o.id || HasId(makers, id) {
      SweepNames(p, taker, makers, b.logSeq, b.tradeSeq, id);
    }
    var closing := ClosingLog(r.taker, b.logSeq + |r.logs|);
    ClosingIs(r.taker, b.logSeq + |r.logs|);
    ClosingFollows(cmds, logs, o, r.taker, r.logs, b.logSeq + |r.logs|);
    AppliedHeld(cmds, b, logs, o, r.taker, r.makers, r.logs, closing);
    FollowOne(cmds, logs + r.logs, closing);
    FollowAppend(cmds, logs, r.logs, [closing]);
    FollowFromStart(cmds, logs, r.logs + [closing]);
    AppliedRests(cmds, b, ApplyOrder(p, b, o).book, logs, o, r.taker, r.logs, closing);
  }

  lemma InvQueue(b: Book, side: Side)
    requires Inv(b)
    ensures QueueInv(side, b.Queue(side)) && (forall id :: HasId(b.Queue(side), id) ==> RestsIn(b, id))
  {
  }

  lemma ClosingIs(t: Order, l: nat)
    ensures var log := ClosingLog(t, l);
            !log.MatchLog? && log.orderId == t.id && forall id :: log.Names(id) <==> id == t.id
  {
  }

  lemma FollowFromStart(cmds: seq<Command>, a: seq<Log>, b: seq<Log>)
    requires AllFollow(cmds, [], a) && AllFollow(cmds, a, b)
    ensures AllFollow(cmds, [], a + b)
  {
    hide AllFollow;
    assert [] + a == a;
    FollowAppend(cmds, [], a, b);
  }

  lemma CancelAccount(cmds: seq<Command>, b: Book, logs: seq<Log>, x: Order)
    requires Inv(b) && Account(cmds, b, logs)
    ensures var r := CancelOrder(b, x); Account(cmds, r.book, logs + r.logs)
  {
    hide Held, AllFollow, Opened, Done, MatchedSize, Follows, Sent, QueueInv, HasId, Without;
    var q, r := b.Queue(x.side), CancelOrder(b, x);
    var k := Find(q, x.id);
    if k == |q| {
      assert logs + [] == logs;
    } else {
      LimitAt(b, x.side, k);
      CancelFollows(cmds, logs, q[k], b.logSeq + 1);
      FollowOne(cmds, logs, r.logs[0]);
      FollowFromStart(cmds, logs, r.logs);
      CancelHeld(cmds, b, logs, x.side, k, r.logs[0]);
      CancelRests(b, logs, x.side, k, r.logs[0], r.book);
    }
  }

  lemma LimitAt(b: Book, side: Side, k: nat)
    requires Inv(b) && k < |b.Queue(side)|
    ensures b.Queue(side)[k].kind.Limit? && b.Queue(side)[k].size > 0 && b.Queue(side)[k].side == side
  {
  }

  lemma CancelFollows(cmds: seq<Command>, logs: seq<Log>, m: Order, l: nat)
    requires Held(cmds, logs, m) && m.size > 0 && m.kind.Limit?
    ensures Follows(cmds, logs, DoneLog(l, m.id, m.price, m.size, Cancelled, m.side))
  {
    hide MatchedSize, Opened, Done, Sent;
    var o :| Sent(cmds, o) && m == o.(size := Unmatched(o, logs));
    assert EndsAs(cmds, logs, o, m.id, m.price, m.size, m.side);
  }

  lemma CancelHeld(cmds: seq<Command>, b: Book, logs: seq<Log>, side: Side, k: nat, log: Log)
    requires Inv(b) && k < |b.Queue(side)| && AllHeld(cmds, logs, b.asks) && AllHeld(cmds, logs, b.bids)
    requires log.DoneLog? && log.orderId == b.Queue(side)[k].id
    ensures AllHeld(cmds, logs + [log], Without(b.Queue(side), k))
    ensures AllHeld(cmds, logs + [log], b.Queue(side.Opposite()))
  {
    hide Held, LogsName;
    var q := b.Queue(side);
    RemovedAtSlices(q, k);
    var r := Without(q, k);
    forall i | 0 <= i < |r| ensures Held(cmds, logs, r[i]) && !LogsName([log], r[i].id) {
      assert r[i] == q[if i < k then i else i + 1];
      NamesOne(log, r[i].id);
    }
    AllStillHeld(cmds, logs, [log], r);
    forall i | 0 <= i < |b.Queue(side.Opposite())| ensures !LogsName([log], b.Queue(side.Opposite())[i].id) {
      NamesOne(log, b.Queue(side.Opposite())[i].id);
    }
    AllStillHeld(cmds, logs, [log], b.Queue(side.Opposite()));
  }

  lemma CancelRests(b: Book, logs: seq<Log>, side: Side, k: nat, log: Log, b': Book)
    requires k < |b.Queue(side)| && (forall id :: Alive(logs, id) ==> RestsIn(b, id))
    requires log.DoneLog? && log.orderId == b.Queue(side)[k].id
    requires b'.Queue(side) == Without(b.Queue(side), k) && b'.Queue(side.Opposite()) == b.Queue(side.Opposite())
    ensures forall id :: Alive(logs + [log], id) ==> RestsIn(b', id)
  {
    hide Opened, Done;
    var q := b.Queue(side);
    RemovedAtSlices(q, k);
    forall id | Alive(logs + [log], id) ensures RestsIn(b', id) {
      ClosingSays(log, id);
      StagesAppend(logs, [log], id);
      assert Alive(logs, id) && RestsIn(b, id);
      assert HasId(q, id) || HasId(b.Queue(side.Opposite()), id);
      if HasId(q, id) {
        var i :| 0 <= i < |q| && q[i].id == id;
        assert Without(q, k)[if i < k then i else i - 1].id == id;
        assert HasId(b'.Queue(side), id);
      } else {
        assert HasId(b'.Queue(side.Opposite()), id);
      }
    }
  }

  // Runs.

  /** For every run with unique ids that does not panic: every log is in order, what rests is exactly
      what was opened and not ended, each with what its trades left of it. */
  lemma {:induction false} RunAccount(p: Product, cmds: seq<Command>, n: nat)
    requires UniqueRun(cmds) && n <= |cmds| && Run(p, cmds[..n]).Next?
    ensures Account(cmds[..n], Run(p, cmds[..n]).book, Run(p, cmds[..n]).logs)
  {
    hide Run, Replay, Account, UniqueRun, ApplyOrder, CancelOrder, Inv, Sent, LogsName, RestsIn, Submitted;
    if n == 0 {
      RunNothing(p, cmds[..n]);
      NothingToAccount(cmds[..n]);
    } else {
      RunLast(p, cmds, n - 1);
      RunAccount(p, cmds, n - 1);
      NextAdmissible(p, cmds, n - 1);
      var before, c := Run(p, cmds[..n - 1]), cmds[n - 1];
      AccountMore(cmds, n - 1, before.book, before.logs);
      if c.Cancel? {
        CancelAccount(cmds[..n], before.book, before.logs, c.order);
      } else if before.book.window.Accepts(c.order.id) {
        MoreSent(cmds, n - 1);
        UniquePrefix(cmds, n - 1);
        NotNamedBefore(p, cmds, n - 1, c.order.id);
        ApplyAccount(p, cmds[..n], before.book, before.logs, c.order);
      } else {
        Screened(p, before.book, c.order);
        assert before.logs + [] == before.logs;
      }
    }
  }

  lemma Screened(p: Product, b: Book, o: Order)
    requires b.window.Valid() && !b.window.Accepts(o.id)
    ensures ApplyOrder(p, b, o) == Next(b, [])
  {
  }

  lemma NothingToAccount(cmds: seq<Command>)
    ensures Account(cmds, NewBook(), [])
  {
  }

  /** One log of a run. */
  lemma RunFollows(p: Product, cmds: seq<Command>, k: nat)
    requires UniqueRun(cmds) && Run(p, cmds).Next? && k < |Run(p, cmds).logs|
    ensures Follows(cmds, Run(p, cmds).logs[..k], Run(p, cmds).logs[k])
  {
    hide Run, UniqueRun, Follows;
    assert cmds[..|cmds|] == cmds;
    RunAccount(p, cmds, |cmds|);
    assert [] + Run(p, cmds).logs[..k] == Run(p, cmds).logs[..k];
  }

  predicate KnownLog(cmds: seq<Command>, log: Log) {
    if log.MatchLog? then
      Placed(cmds, log.side.Opposite(), log.takerId) && Placed(cmds, log.side, log.makerId)
          && log.takerId != log.makerId
    else Submitted(cmds, log.orderId)
  }

  predicate AllKnown(cmds: seq<Command>, logs: seq<Log>) { forall k :: 0 <= k < |logs| ==> KnownLog(cmds, logs[k]) }

  predicate NothingAfterDone(logs: seq<Log>) {
    forall j, k :: 0 <= j < k < |logs| && logs[j].DoneLog? ==> !logs[k].Names(logs[j].orderId)
  }

  lemma FollowsIsKnown(cmds: seq<Command>, before: seq<Log>, log: Log)
    requires Follows(cmds, before, log)
    ensures KnownLog(cmds, log) && forall id :: Done(before, id) ==> !log.Names(id)
  {
    hide Sent, Placed, Opened, Done, Submitted;
    forall o: Order | Sent(cmds, o) ensures Placed(cmds, o.side, o.id) && Submitted(cmds, o.id) {
      SentIsPlaced(cmds, o);
    }
  }

  /** In particular: both parties of a trade are orders of the run on opposite sides, every other log is
      about an order of the run, and no log mentions an order after the one that ends it. */
  lemma RunKnown(p: Product, cmds: seq<Command>)
    requires UniqueRun(cmds) && Run(p, cmds).Next?
    ensures AllKnown(cmds, Run(p, cmds).logs) && NothingAfterDone(Run(p, cmds).logs)
  {
    hide Run, UniqueRun, Follows, KnownLog;
    var logs := Run(p, cmds).logs;
    forall k | 0 <= k < |logs|
      ensures KnownLog(cmds, logs[k]) && forall id :: Done(logs[..k], id) ==> !logs[k].Names(id)
    {
      RunFollows(p, cmds, k);
      FollowsIsKnown(cmds, logs[..k], logs[k]);
    }
    forall j, k | 0 <= j < k < |logs| && logs[j].DoneLog? ensures !logs[k].Names(logs[j].orderId) {
      assert logs[..k][j] == logs[j] && Done(logs[..k], logs[j].orderId);
    }
  }
}
