/** From matching logs to fills: every match makes one fill for each party, every end makes one. */
module FillMaking {
  import opened Market
  import opened Decimals
  import opened Sums
  import opened Book
  import opened BookInvariant
  import opened Recovery
  import opened AnyRun
  import opened Lifecycle
  import opened TradeSizes
  import opened Settlement

  /** The side recorded with a fill is the maker's for the taker and the taker's for the maker. The
      fill of an end records none; Buy stands for that. */
  function FillsOf(log: Log): seq<Fill> {
    match log
    case MatchLog(_, _, takerId, makerId, side, price, size) =>
      [Fill(takerId, size, price, side, false, DoneReason.Filled, false),
       Fill(makerId, size, price, side.Opposite(), false, DoneReason.Filled, false)]
    case DoneLog(_, id, _, remaining, reason, _) =>
      [Fill(id, remaining, 0, Buy, true, reason, false)]
    case OpenLog(_, _, _, _, _) => []
  }

  function AllFillsOf(logs: seq<Log>): seq<Fill> {
    if logs == [] then [] else AllFillsOf(logs[..|logs| - 1]) + FillsOf(logs[|logs| - 1])
  }

  /** The observer's channel, the flusher's batch, and the fill table it writes. */
  class FillMaker {
    var fillCh: seq<Fill>
    var fills: seq<Fill>
    var table: seq<Fill>

    constructor ()
      ensures fillCh == fills == table == []
    {
      fillCh, fills, table := [], [], [];
    }

    method OnMatchLog(log: Log)
      requires log.MatchLog?
      modifies this`fillCh
      ensures fillCh == old(fillCh) + FillsOf(log)
    {
      fillCh := fillCh + [Fill(log.takerId, log.size, log.price, log.side, false, DoneReason.Filled, false)];
      fillCh := fillCh + [Fill(log.makerId, log.size, log.price, log.side.Opposite(), false, DoneReason.Filled, false)];
    }

    method OnDoneLog(log: Log)
      requires log.DoneLog?
      modifies this`fillCh
      ensures fillCh == old(fillCh) + FillsOf(log)
    {
      fillCh := fillCh + [Fill(log.orderId, log.remaining, 0, Buy, true, log.reason, false)];
    }

    /** The flusher takes one fill and writes its batch when the channel is empty or the batch full. */
    method Flush()
      requires fillCh != []
      modifies this
      ensures table + fills + fillCh == old(table + fills + fillCh)
      ensures |fillCh| == old(|fillCh|) - 1
      ensures fills == [] || (|fills| < 1000 && fillCh != [])
    {
      fills, fillCh := fills + [fillCh[0]], fillCh[1..];
      if |fillCh| > 0 && |fills| < 1000 {
        return;
      }
      table := table + fills;
      fills := [];
    }
  }

  /** Both parties of a logged trade are orders of the run, on opposite sides, and the trade is at the
      maker's price and of a positive size. */
  lemma MatchParties(p: Product, cmds: seq<Command>, k: nat) returns (i: nat, j: nat)
    requires PlainRun(p, cmds) && Run(p, cmds).Next? && k < |Run(p, cmds).logs| && Run(p, cmds).logs[k].MatchLog?
    ensures i < |cmds| && j < |cmds| && cmds[i].Submit? && cmds[j].Submit?
    ensures var log := Run(p, cmds).logs[k];
            && cmds[i].order.id == log.takerId && cmds[j].order.id == log.makerId && log.takerId != log.makerId
            && cmds[i].order.side == log.side.Opposite() && cmds[j].order.side == log.side
            && log.size > 0 && log.price == cmds[j].order.price >= 0
  {
    hide Run, UniqueRun, PlainOrder, Opened, Done, MatchedSize;
    var logs := Run(p, cmds).logs;
    var log := logs[k];
    RunFollows(p, cmds, k);
    assert cmds[..|cmds|] == cmds;
    RunPositive(p, cmds, |cmds|);
    i :| 0 <= i < |cmds| && cmds[i].Submit? && cmds[i].order.id == log.takerId
         && cmds[i].order.side == log.side.Opposite();
    var o :| TradesAs(cmds, logs[..k], o, log.makerId, log.side, log.price, log.size);
    j :| 0 <= j < |cmds| && cmds[j] == Submit(o);
  }

  // What an order's fills add up to, settled or not.

  function SizeFor(id: int): Fill -> int { (f: Fill) => if f.orderId == id && !f.done then f.size else 0 }

  function ValueFor(id: int): Fill -> int { (f: Fill) => if f.orderId == id && !f.done then f.size * f.price else 0 }

  /** The fills made of some logs add up to the trades in them. */
  lemma {:induction false} FillsAddUp(logs: seq<Log>, id: int)
    requires forall k :: 0 <= k < |logs| && logs[k].MatchLog? ==> logs[k].takerId != logs[k].makerId
    ensures Sum(AllFillsOf(logs), SizeFor(id)) == MatchedSize(logs, id)
    ensures Sum(AllFillsOf(logs), ValueFor(id)) == MatchedValue(logs, id)
  {
    if logs != [] {
      var n := |logs| - 1;
      var head, last := logs[..n], logs[n];
      FillsAddUp(head, id);
      assert logs == head + [last];
      MatchedAppend(head, [last], id);
      SumAppend(AllFillsOf(head), FillsOf(last), SizeFor(id));
      SumAppend(AllFillsOf(head), FillsOf(last), ValueFor(id));
      FillsOfOne(last, id);
    }
  }

  lemma FillsOfOne(log: Log, id: int)
    requires log.MatchLog? ==> log.takerId != log.makerId
    ensures Sum(FillsOf(log), SizeFor(id)) == MatchedSize([log], id)
    ensures Sum(FillsOf(log), ValueFor(id)) == MatchedValue([log], id)
  {
    var fs := FillsOf(log);
    assert [log][1..] == [];
    if |fs| == 2 {
      assert fs == [fs[0]] + [fs[1]];
      SumPair(fs[0], fs[1], SizeFor(id));
      SumPair(fs[0], fs[1], ValueFor(id));
    } else if |fs| == 1 {
      SumOne(fs[0], SizeFor(id));
      SumOne(fs[0], ValueFor(id));
    }
  }

  lemma {:induction false} MatchedNonNegative(logs: seq<Log>, id: int)
    requires forall k :: 0 <= k < |logs| && logs[k].MatchLog? ==> logs[k].size > 0 && logs[k].price >= 0
    ensures MatchedSize(logs, id) >= 0 && MatchedValue(logs, id) >= 0
  {
    if logs != [] {
      MatchedNonNegative(logs[1..], id);
      if logs[0].MatchLog? { MulNonNegative(logs[0].size, logs[0].price); }
    }
  }

  /** Whatever part of a run's trades is booked to an order, it stays within what the order ties up. */
  lemma TradesWithinOrder(p: Product, cmds: seq<Command>, o: Order, read: nat)
    requires GoodRun(p, cmds) && Run(p, cmds).Next? && read <= |Run(p, cmds).logs| && GoodOrder(p, o)
    requires o.kind.Limit? ==> o.funds == o.size * o.price
    requires forall i :: 0 <= i < |cmds| && cmds[i].Submit? && cmds[i].order.id == o.id ==> cmds[i].order == o
    ensures var logs := Run(p, cmds).logs[..read];
            if o.side.Buy? then MatchedValue(logs, o.id) <= o.funds else MatchedSize(logs, o.id) <= o.size
  {
    hide Run, UniqueRun, GoodCommand, MatchedSize, MatchedValue;
    var logs := Run(p, cmds).logs;
    assert cmds[..|cmds|] == cmds;
    assert PlainRun(p, cmds) by { GoodIsPlain(p, cmds); }
    RunPositive(p, cmds, |cmds|);
    assert logs == logs[..read] + logs[read..];
    MatchedAppend(logs[..read], logs[read..], o.id);
    MatchedNonNegative(logs[read..], o.id);
    if Submitted(cmds, o.id) {
      var i :| 0 <= i < |cmds| && cmds[i].Submit? && cmds[i].order.id == o.id;
      OrderAccount(p, cmds, i);
      if o.kind.Limit? { MulMonotone(o.price, MatchedSize(logs, o.id), o.size); }
    } else {
      NotNamedBefore(p, cmds, |cmds|, o.id);
      UnnamedUnmatched(logs, o.id);
      if o.kind.Limit? { MulNonNegative(o.size, o.price); }
    }
  }

  lemma GoodIsPlain(p: Product, cmds: seq<Command>)
    requires GoodRun(p, cmds)
    ensures PlainRun(p, cmds)
  {
    hide UniqueRun;
    forall i | 0 <= i < |cmds| && cmds[i].Submit? ensures PlainOrder(p, cmds[i].order) {
      assert GoodCommand(p, cmds[i]);
    }
  }
}
