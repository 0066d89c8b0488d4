/** An order is closed in the tables only after every one of its trades has been booked to it. */
module FinalSettlement {
  import opened Market
  import opened Sums
  import opened Book
  import opened AnyRun
  import opened Settlement
  import opened FillMaking
  import opened Ledger
  import opened Exchange

  /** An order's fills are settled oldest first. */
  predicate OldestFirst(fills: seq<Fill>) {
    forall a, b :: 0 <= a < b < |fills| && fills[a].orderId == fills[b].orderId && fills[b].settled ==> fills[a].settled
  }

  /** A closed order has had its last fill settled. */
  predicate ClosedByEnd(rows: seq<Row>, fills: seq<Fill>) {
    forall i :: 0 <= i < |rows| && !rows[i].Live() ==> EndSettled(fills, i + 1)
  }

  predicate EndSettled(fills: seq<Fill>, id: int) {
    exists k :: 0 <= k < |fills| && fills[k].orderId == id && fills[k].done && fills[k].settled
  }

  predicate Orderly(db: Db) { OldestFirst(db.fills) && ClosedByEnd(db.orders, db.fills) }

  /** The list holds the oldest unsettled fills of the order. */
  predicate Oldest(fills: seq<Fill>, ks: seq<nat>, id: int) {
    && (forall i :: 0 <= i < |ks| ==> ks[i] < |fills| && fills[ks[i]].orderId == id && !fills[ks[i]].settled)
    && (forall i, a :: 0 <= i < |ks| && 0 <= a < ks[i] && fills[a].orderId == id && !fills[a].settled ==> a in ks[..i])
    && Ascending(ks)
  }

  lemma {:induction false} UnsettledAreAll(fills: seq<Fill>, id: int)
    ensures forall a :: 0 <= a < |fills| && fills[a].orderId == id && !fills[a].settled ==>
            a in UnsettledFills(fills, id)
  {
    if fills != [] {
      var n := |fills| - 1;
      UnsettledAreAll(fills[..n], id);
      forall a | 0 <= a < |fills| && fills[a].orderId == id && !fills[a].settled
        ensures a in UnsettledFills(fills, id)
      {
        if a < n { assert fills[..n][a] == fills[a]; }
      }
    }
  }

  lemma FetchedAreOldest(fills: seq<Fill>, id: int)
    ensures Oldest(fills, First(UnsettledFills(fills, id), 100), id)
  {
    hide UnsettledFills;
    UnsettledAreAll(fills, id);
    UnsettledFillsAscend(fills, id);
    PrefixIsOldest(fills, UnsettledFills(fills, id),
                   if |UnsettledFills(fills, id)| <= 100 then |UnsettledFills(fills, id)| else 100, id);
    assert UnsettledFills(fills, id)[..|UnsettledFills(fills, id)|] == UnsettledFills(fills, id);
  }

  lemma PrefixIsOldest(fills: seq<Fill>, all: seq<nat>, n: nat, id: int)
    requires Ascending(all) && n <= |all|
    requires forall i :: 0 <= i < |all| ==> all[i] < |fills| && fills[all[i]].orderId == id && !fills[all[i]].settled
    requires forall a :: 0 <= a < |fills| && fills[a].orderId == id && !fills[a].settled ==> a in all
    ensures Oldest(fills, all[..n], id)
  {
    var ks := all[..n];
    forall i, a | 0 <= i < |ks| && 0 <= a < ks[i] && fills[a].orderId == id && !fills[a].settled ensures a in ks[..i] {
      var j :| 0 <= j < |all| && all[j] == a;
      assert ks[..i][j] == a;
    }
  }

  lemma SettleOldest(db: Db, ks: seq<nat>, id: int)
    requires Orderly(db) && Oldest(db.fills, ks, id) && ks != [] && db.HasOrder(id)
    ensures Orderly(SettleFill(db, ks[0])) && Oldest(SettleFill(db, ks[0]).fills, ks[1..], id)
  {
    hide BillsFor, UnsettledFills;
    var k, db' := ks[0], SettleFill(db, ks[0]);
    assert ks[..0] == [];
    assert OldestFirst(db'.fills);
    forall i | 0 <= i < |db'.orders| && !db'.orders[i].Live() ensures EndSettled(db'.fills, i + 1) {
      if i == id - 1 && db.fills[k].done {
        assert db'.fills[k].orderId == i + 1 && db'.fills[k].settled;
      } else {
        assert EndSettled(db.fills, i + 1);
        var e :| 0 <= e < |db.fills| && db.fills[e].orderId == i + 1 && db.fills[e].done && db.fills[e].settled;
        assert db'.fills[e].orderId == i + 1 && db'.fills[e].done && db'.fills[e].settled;
      }
    }
    TailOldest(db.fills, db'.fills, ks, id);
  }

  lemma TailOldest(fills: seq<Fill>, fills': seq<Fill>, ks: seq<nat>, id: int)
    requires ks != [] && Oldest(fills, ks, id) && fills' == fills[ks[0] := fills[ks[0]].(settled := true)]
    ensures Oldest(fills', ks[1..], id)
  {
    var rest := ks[1..];
    forall i, a | 0 <= i < |rest| && 0 <= a < rest[i] && fills'[a].orderId == id && !fills'[a].settled
      ensures a in rest[..i]
    {
      assert a in ks[..i + 1];
      var j :| 0 <= j < |ks[..i + 1]| && ks[..i + 1][j] == a;
      assert j > 0 && rest[..i][j - 1] == a;
    }
  }

  lemma {:induction false} SettleFillsOrderly(db: Db, ks: seq<nat>, id: int)
    requires Orderly(db) && Oldest(db.fills, ks, id) && db.HasOrder(id) && AllFills(db, ks)
    ensures Orderly(SettleFills(db, ks))
    decreases |ks|
  {
    hide Orderly, Oldest;
    if ks != [] {
      SettleOldest(db, ks, id);
      if !db.fills[ks[0]].done {
        var db1 := SettleFill(db, ks[0]);
        assert AllFills(db1, ks[1..]);
        SettleFillsOrderly(db1, ks[1..], id);
      }
    }
  }

  /** What else happens to the tables leaves settled fills and closed orders alone. */
  lemma AddedOrderly(db: Db, db': Db)
    requires Orderly(db) && |db.fills| <= |db'.fills| && db'.fills[..|db.fills|] == db.fills
             && |db.orders| <= |db'.orders|
    requires forall k :: |db.fills| <= k < |db'.fills| ==> !db'.fills[k].settled
    requires forall i :: 0 <= i < |db.orders| ==> db'.orders[i].Live() == db.orders[i].Live()
    requires forall i :: |db.orders| <= i < |db'.orders| ==> db'.orders[i].Live()
    ensures Orderly(db')
  {
    assert forall k :: 0 <= k < |db.fills| ==> db'.fills[k] == db.fills[k];
    forall i | 0 <= i < |db'.orders| && !db'.orders[i].Live() ensures EndSettled(db'.fills, i + 1) {
      assert EndSettled(db.fills, i + 1);
      var e :| 0 <= e < |db.fills| && db.fills[e].orderId == i + 1 && db.fills[e].done && db.fills[e].settled;
      assert db'.fills[e].done;
    }
  }

  lemma StepOrderly(l: Listing, x: Exchange, e: Event)
    requires Consistent(l.product, x) && Orderly(x.db)
    ensures Orderly(Step(l, x, e).db)
  {
    hide Run, Consistent, Sound, Orderly, Logs, FillsOf, StreamGood, FillsFit, RowsNumbered, Oldest, SettleFills,
         UnsettledFills;
    ConsistentParts(l.product, x);
    NoneMarked(l.product, x);
    match e
    case Place(seen, user, kind, side, size, price, funds) =>
      hide PlaceOrder;
      if PlaceOrder(l, x.db, seen, user, kind, side, size, price, funds).Some? {
        PlacedRow(l, x.db, seen, user, kind, side, size, price, funds);
        AddedOrderly(x.db, Step(l, x, e).db);
      }
    case SendOrder(_) => {}
    case SendCancel(_) => {}
    case Match => {}
    case ReadLog => AddedOrderly(x.db, Step(l, x, e).db);
    case Write(n) => AddedOrderly(x.db, Step(l, x, e).db);
    case Settle(id) =>
      if ExecuteFill(x.db, id).Some? {
        FetchedAreOldest(x.db.fills, id);
        SettleFillsOrderly(x.db, First(UnsettledFills(x.db.fills, id), 100), id);
      }
    case Pay(owner) =>
      hide ExecuteBill;
      ExecuteBillKeeps(x.db, owner);
      AddedOrderly(x.db, Step(l, x, e).db);
  }

  lemma {:induction false} HistoryOrderly(l: Listing, xs: seq<Exchange>, events: seq<Event>, n: nat)
    requires History(l, xs, events) && n <= |events|
    ensures Orderly(xs[n].db)
  {
    hide Consistent, Step, AllMoney;
    if n > 0 {
      HistoryOrderly(l, xs, events, n - 1);
      MoneyIsConserved(l, xs, events, n - 1);
      StepOrderly(l, xs[n - 1], events[n - 1]);
    }
  }

  // No fill follows the end of its order.

  lemma {:induction false} DoneFillHasLog(logs: seq<Log>, k: nat) returns (j: nat)
    requires k < |AllFillsOf(logs)| && AllFillsOf(logs)[k].done
    ensures j < |logs| && logs[j].DoneLog? && logs[j].orderId == AllFillsOf(logs)[k].orderId
    decreases |logs|
  {
    var n := |logs| - 1;
    if k < |AllFillsOf(logs[..n])| {
      j := DoneFillHasLog(logs[..n], k);
    } else {
      j := n;
    }
  }

  lemma {:induction false} EndIsLastFill(logs: seq<Log>, a: nat, b: nat)
    requires NothingAfterDone(logs) && a < b < |AllFillsOf(logs)| && AllFillsOf(logs)[a].done
    ensures AllFillsOf(logs)[a].orderId != AllFillsOf(logs)[b].orderId
    decreases |logs|
  {
    var n := |logs| - 1;
    var head := AllFillsOf(logs[..n]);
    if b < |head| {
      EndIsLastFill(logs[..n], a, b);
    } else if a < |head| {
      var j := DoneFillHasLog(logs[..n], a);
      assert logs[j] == logs[..n][j] && !logs[n].Names(logs[j].orderId);
      assert AllFillsOf(logs)[b] == FillsOf(logs[n])[b - |head|];
    }
  }

  /** A closed order has booked exactly the trades the engine ever logged for it, so what was
      released to its owner is exactly what those trades left. */
  lemma ClosedOrdersAreComplete(l: Listing, xs: seq<Exchange>, events: seq<Event>, n: nat, i: nat)
    requires History(l, xs, events) && n <= |events| && i < |xs[n].db.orders| && !xs[n].db.orders[i].Live()
    requires xs[n].matched <= |xs[n].cmds|
    ensures var row, logs := xs[n].db.orders[i], Logs(l.product, xs[n]);
            row.filledSize == MatchedSize(logs, i + 1) && row.executedValue == MatchedValue(logs, i + 1)
  {
    hide Consistent, Step, AllMoney, Opening, Logs, Orderly;
    MoneyIsConserved(l, xs, events, n);
    HistoryOrderly(l, xs, events, n);
    ClosedIsComplete(l.product, xs[n], i);
  }

  lemma ClosedIsComplete(p: Product, x: Exchange, i: nat)
    requires Consistent(p, x) && Orderly(x.db) && i < |x.db.orders| && !x.db.orders[i].Live()
    ensures var row, logs := x.db.orders[i], Logs(p, x);
            row.filledSize == MatchedSize(logs, i + 1) && row.executedValue == MatchedValue(logs, i + 1)
  {
    hide Run, Consistent, Sound, Logs, MatchedSize, MatchedValue, NothingAfterDone, OldestFirst, AllFillsOf, Sum,
         RowsNumbered, FillsFit, StreamGood;
    ConsistentParts(p, x);
    LogsOfRun(p, x);
    var logs := Logs(p, x);
    assert EndSettled(x.db.fills, i + 1);
    var e :| 0 <= e < |x.db.fills| && x.db.fills[e].orderId == i + 1 && x.db.fills[e].done && x.db.fills[e].settled;
    assert AllFillsOf(logs[..x.read])[e] == x.db.fills[e].(settled := false);
    NothingLater(logs, x.read, e, i + 1);
    FillsAddUp(logs[..x.read], i + 1);
    BookedAll(x.db.fills, x.making, logs[..x.read], e, i + 1);
    RowIsBooked(x.db, i);
  }

  lemma LogsOfRun(p: Product, x: Exchange)
    requires Consistent(p, x) && x.read <= |Logs(p, x)| && x.matched <= |x.cmds|
    ensures NothingAfterDone(Logs(p, x)) && NothingAfterDone(Logs(p, x)[..x.read])
    ensures forall k :: 0 <= k < x.read && Logs(p, x)[..x.read][k].MatchLog? ==>
      Logs(p, x)[..x.read][k].takerId != Logs(p, x)[..x.read][k].makerId
  {
    hide Consistent, Run, Placed;
    LogsKnown(p, x);
    assert forall k :: 0 <= k < x.read ==> KnownLog(x.cmds[..x.matched], Logs(p, x)[k]);
  }

  lemma RowIsBooked(db: Db, i: nat)
    requires Sound(db) && i < |db.orders|
    ensures db.orders[i].filledSize == Sum(db.fills, SettledSize(i + 1))
    ensures db.orders[i].executedValue == Sum(db.fills, SettledValue(i + 1))
  {
  }

  lemma BookedAll(fills: seq<Fill>, making: seq<Fill>, logs: seq<Log>, e: nat, id: int)
    requires OldestFirst(fills) && NothingAfterDone(logs) && Plain(fills) + making == AllFillsOf(logs)
    requires e < |fills| && fills[e].orderId == id && fills[e].done && fills[e].settled
    ensures Sum(fills, SettledSize(id)) == Sum(AllFillsOf(logs), SizeFor(id))
    ensures Sum(fills, SettledValue(id)) == Sum(AllFillsOf(logs), ValueFor(id))
  {
    hide NothingAfterDone, AllFillsOf;
    var all := AllFillsOf(logs);
    forall b | e < b < |all| ensures all[b].orderId != id { EndIsLastFill(logs, e, b); }
    forall k | 0 <= k < |fills| && fills[k].orderId == id ensures fills[k].settled {
      assert all[k] == fills[k].(settled := false);
    }
    forall k | 0 <= k < |making| ensures making[k].orderId != id { assert making[k] == all[|fills| + k]; }
    SumAppend(Plain(fills), making, SizeFor(id));
    SumAppend(Plain(fills), making, ValueFor(id));
    AllZero(making, SizeFor(id));
    AllZero(making, ValueFor(id));
    PlainSum(fills, SizeFor(id));
    PlainSum(fills, ValueFor(id));
    AllSettled(fills, id);
  }

  lemma AllSettled(fills: seq<Fill>, id: int)
    requires forall k :: 0 <= k < |fills| && fills[k].orderId == id ==> fills[k].settled
    ensures Sum(fills, SettledSize(id)) == Sum(fills, SizeFor(id))
    ensures Sum(fills, SettledValue(id)) == Sum(fills, ValueFor(id))
  {
    SumAtMost(fills, SettledSize(id), SizeFor(id));
    SumAtMost(fills, SizeFor(id), SettledSize(id));
    SumAtMost(fills, SettledValue(id), ValueFor(id));
    SumAtMost(fills, ValueFor(id), SettledValue(id));
  }

  lemma NothingLater(logs: seq<Log>, read: nat, e: nat, id: int)
    requires NothingAfterDone(logs) && read <= |logs|
    requires e < |AllFillsOf(logs[..read])| && AllFillsOf(logs[..read])[e].done
             && AllFillsOf(logs[..read])[e].orderId == id
    ensures MatchedSize(logs, id) == MatchedSize(logs[..read], id)
            && MatchedValue(logs, id) == MatchedValue(logs[..read], id)
  {
    hide MatchedSize, MatchedValue;
    var j := DoneFillHasLog(logs[..read], e);
    assert logs[..read][j] == logs[j];
    forall k | 0 <= k < |logs[read..]| ensures !logs[read..][k].Names(id) { assert logs[read..][k] == logs[read + k]; }
    assert logs == logs[..read] + logs[read..];
    MatchedAppend(logs[..read], logs[read..], id);
    UnnamedUnmatched(logs[read..], id);
  }
}
