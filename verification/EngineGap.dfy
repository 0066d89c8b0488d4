/** A history of the engine in which a snapshot is approved before its logs are stored, and a crash
    then leaves a gap in the log topic. */
module EngineGap {
  import opened Market
  import opened DedupWindow
  import opened Book
  import opened BookInvariant
  import opened Recovery
  import opened LogReader
  import opened Engine

  /** A stream of n bids that all come to rest. */
  function Bids(n: nat): seq<Command> { seq(n, i => Submit(Order(20000 + i, 1, 0, 1, Buy, Limit))) }

  lemma BidsPrefix(n: nat, k: nat)
    requires k <= n
    ensures |Bids(n)| == n && Bids(n)[..k] == Bids(k)
  {
  }

  /** Each of them emits one log. */
  lemma {:induction false} OneLogEach(p: Product, n: nat)
    ensures var r := Run(p, Bids(n));
            r.Next? && r.book.asks == [] && |r.logs| == n && r.book.window.max == ORDER_ID_WINDOW_CAP
  {
    hide Run, Replay, Execute, Bids;
    if n == 0 {
      BidsPrefix(0, 0);
      RunNothing(p, Bids(0));
    } else {
      OneLogEach(p, n - 1);
      BidsPrefix(n, n - 1);
      BidsPrefix(n, n);
      RunLast(p, Bids(n), n - 1);
      BidRests(p, Run(p, Bids(n - 1)).book, n);
    }
  }

  lemma BidRests(p: Product, b: Book, n: nat)
    requires n > 0 && b.window.Valid() && b.asks == [] && b.window.max == ORDER_ID_WINDOW_CAP
    ensures Bids(n) == Bids(n)[..n - 1] + [Bids(n)[n - 1]]
    ensures var r := Execute(p, b, Bids(n)[n - 1]);
            r.Next? && r.book.asks == [] && |r.logs| == 1 && r.book.window.max == ORDER_ID_WINDOW_CAP
  {
    hide Insert;
    assert b.Queue(Sell) == [];
  }

  lemma BidsGood(p: Product, n: nat, k: nat)
    requires k <= n
    ensures GoodRun(p, Bids(n)) && UniqueRun(Bids(n)) && Run(p, Bids(n)[..k]).Next?
    ensures LogsOf(p, Bids(n), k) == k && |AllLogs(p, Bids(n))| == n
  {
    hide Run;
    OneLogEach(p, n);
    OneLogEach(p, k);
    BidsPrefix(n, k);
  }

  lemma Extend(p: Product, cmds: seq<Command>, ws: seq<World>, events: seq<Event>, e: Event) returns (w: World)
    requires UniqueRun(cmds) && History(p, cmds, ws, events) && Possible(ws[|events|], e)
    ensures ws[|events|].book.window.Valid() && w == NextWorld(p, cmds, ws[|events|], e)
    ensures History(p, cmds, ws + [w], events + [e]) && InOrder(p, cmds, w)
  {
    hide NextWorld, InOrder, UniqueRun, Possible;
    HistoryInOrder(p, cmds, ws, events, |events|);
    NextInOrder(p, cmds, ws[|events|], e);
    w := NextWorld(p, cmds, ws[|events|], e);
  }

  /** The engine has applied, received and stored the first k of n bids, and nothing is on its way. */
  predicate AtRest(p: Product, n: nat, w: World, k: nat) {
    && k <= n && w.applied == k && w.sending == [] && w.approveCh == [] && w.snapshotCh == [] && w.saved.None?
    && w.committer == Committer(k, [], None) && |AllLogs(p, Bids(n))| == n && w.topic == AllLogs(p, Bids(n))[..k]
  }

  /** Applying orders and storing their logs one by one. */
  lemma {:induction false} Drive(p: Product, n: nat, k: nat) returns (ws: seq<World>, events: seq<Event>)
    requires k <= n
    ensures |ws| == |events| + 1 && History(p, Bids(n), ws, events) && AtRest(p, n, ws[|events|], k)
  {
    hide NextWorld, UniqueRun, LogsOf, AllLogs, Run, Bids, History, InOrder;
    if k == 0 {
      ws, events := [Boot([], None)], [];
      FirstHistory(p, n);
    } else {
      ws, events := Drive(p, n, k - 1);
      BidsPrefix(n, n);
      BidsGood(p, n, k - 1);
      var w := Extend(p, Bids(n), ws, events, Apply);
      HistoryInOrder(p, Bids(n), ws, events, |events|);
      AppliedOne(p, n, ws[|events|], k);
      var w' := Extend(p, Bids(n), ws + [w], events + [Apply], Send);
      SentOne(p, n, w, k);
      var w'' := Extend(p, Bids(n), ws + [w] + [w'], events + [Apply] + [Send], Receive);
      StoredOne(p, n, w', k);
      ws, events := ws + [w] + [w'] + [w''], events + [Apply] + [Send] + [Receive];
    }
  }

  lemma FirstHistory(p: Product, n: nat)
    ensures History(p, Bids(n), [Boot([], None)], []) && AtRest(p, n, Boot([], None), 0)
  {
    BidsGood(p, n, 0);
  }

  lemma AppliedOne(p: Product, n: nat, w: World, k: nat)
    requires 0 < k <= n && w.book.window.Valid() && AtRest(p, n, w, k - 1) && InOrder(p, Bids(n), w)
    ensures var w' := NextWorld(p, Bids(n), w, Apply);
            w' == w.(applied := k, book := w'.book, orderOffset := k - 1, sending := [AllLogs(p, Bids(n))[k - 1]])
            && w'.logCh == []
  {
    hide AllLogs, Execute, Run;
    var all := AllLogs(p, Bids(n));
    BidsGood(p, n, k - 1);
    BidsGood(p, n, k);
    LogsSoFar(p, Bids(n), k);
    RunLast(p, Bids(n), k - 1);
    ApplyInOrder(p, Bids(n), w);
    assert all[k - 1..k] == [all[k - 1]] && all[k - 1..k - 1] == [];
    assert w.logCh == [];
  }

  lemma SentOne(p: Product, n: nat, w: World, k: nat)
    requires 0 < k <= |AllLogs(p, Bids(n))| && w.book.window.Valid()
    requires w.sending == [AllLogs(p, Bids(n))[k - 1]] && w.logCh == []
    ensures NextWorld(p, Bids(n), w, Send) == w.(sending := [], logCh := [AllLogs(p, Bids(n))[k - 1]])
  {
    hide AllLogs;
    assert [] + [w.sending[0]] == [AllLogs(p, Bids(n))[k - 1]] && w.sending[1..] == [];
  }

  lemma StoredOne(p: Product, n: nat, w: World, k: nat)
    requires 0 < k <= n && w.book.window.Valid() && |AllLogs(p, Bids(n))| == n
             && w.logCh == [AllLogs(p, Bids(n))[k - 1]]
    requires AtRest(p, n, w.(applied := k - 1), k - 1) && w.applied == k
    ensures AtRest(p, n, NextWorld(p, Bids(n), w, Receive), k)
  {
    hide AllLogs, Run;
    BidsGood(p, n, k);
    BidsGood(p, n, n);
    LogsSoFar(p, Bids(n), n);
    var all := AllLogs(p, Bids(n));
    IdealFrom(all, k - 1);
    assert all[..k] == all[..k - 1] + [all[k - 1]];
  }

  /** The rest of the history: the 1002nd order is applied and a snapshot taken; the next order keeps
      the log channel busy while the committer takes the 1002nd log into its batch; the snapshot is
      approved and stored; the process dies before the batch is. */
  lemma LostBatch(p: Product, cmds: seq<Command>, ws0: seq<World>, events0: seq<Event>)
    returns (ws: seq<World>, events: seq<Event>)
    requires cmds == Bids(1003) && |ws0| == |events0| + 1 && History(p, cmds, ws0, events0)
    requires AtRest(p, 1003, ws0[|events0|], 1001)
    ensures |ws| == |events| + 1 && History(p, cmds, ws, events)
    ensures var all := AllLogs(p, cmds); |all| == 1003 && ws[|events|].topic == all[..1001] + [all[1002]]
  {
    hide Bids, NextWorld, UniqueRun, LogsOf, AllLogs, Run, History, InOrder, Lists;
    var all := AllLogs(p, cmds);
    ws, events := ws0, events0;
    BidsGood(p, 1003, 1002);
    HistoryInOrder(p, cmds, ws, events, |events|);
    var v1 := Extend(p, cmds, ws, events, Apply);
    AppliedOne(p, 1003, ws[|events|], 1002);
    ws, events := ws + [v1], events + [Apply];
    var w1 := Extend(p, cmds, ws, events, Send);
    SentOne(p, 1003, v1, 1002);
    ws, events := ws + [w1], events + [Send];
    var list := ListOf(p, cmds, w1);
    var request := Request(0, list);
    var w2 := Extend(p, cmds, ws, events, request);
    ws, events := ws + [w2], events + [request];
    var v3 := Extend(p, cmds, ws, events, Apply);
    ws, events := ws + [v3], events + [Apply];
    var w3 := Extend(p, cmds, ws, events, Send);
    ws, events := ws + [w3], events + [Send];
    var w4 := Extend(p, cmds, ws, events, Receive);
    ws, events := ws + [w4], events + [Receive];
    var w5 := Extend(p, cmds, ws, events, Approve);
    ws, events := ws + [w5], events + [Approve];
    var w6 := Extend(p, cmds, ws, events, Save);
    ws, events := ws + [w6], events + [Save];
    var w7 := Extend(p, cmds, ws, events, Crash);
    ws, events := ws + [w7], events + [Crash];
    var v8 := Extend(p, cmds, ws, events, Apply);
    ws, events := ws + [v8], events + [Apply];
    var w8 := Extend(p, cmds, ws, events, Send);
    ws, events := ws + [w8], events + [Send];
    var w9 := Extend(p, cmds, ws, events, Receive);
    ws, events := ws + [w9], events + [Receive];
    Batched(p, cmds, w1, w2, v3, w3, w4, list);
    SavedEarly(p, cmds, w4, w5, w6);
    StoredLate(p, cmds, w6, w7, v8, w8, w9);
  }

  /** How the tables might list the orders of a book. */
  lemma ListOf(p: Product, cmds: seq<Command>, w: World) returns (list: seq<Order>)
    requires UniqueRun(cmds) && InOrder(p, cmds, w)
    ensures Lists(list, w.book)
  {
    hide Run, UniqueRun;
    LogsSoFar(p, cmds, w.applied);
    list := w.book.asks + w.book.bids;
  }

  /** Up to the moment the 1002nd log waits in the batch, with the snapshot that counts it. */
  lemma Batched(p: Product, cmds: seq<Command>, w1: World, w2: World, v3: World, w3: World, w4: World, list: seq<Order>)
    requires cmds == Bids(1003) && |AllLogs(p, cmds)| == 1003
    requires w1.applied == 1002 && w1.orderOffset == 1001 && w1.logCh == [AllLogs(p, cmds)[1001]]
    requires w1.sending == [] && w1.approveCh == w1.snapshotCh == []
    requires w1.committer == Committer(1001, [], None) && InOrder(p, cmds, w1)
    requires w1.book.window.Valid() && w2 == NextWorld(p, cmds, w1, Request(0, list)) && InOrder(p, cmds, w2)
    requires w2.book.window.Valid() && v3 == NextWorld(p, cmds, w2, Apply) && InOrder(p, cmds, v3)
    requires v3.book.window.Valid() && w3 == NextWorld(p, cmds, v3, Send)
    requires w3.book.window.Valid() && w4 == NextWorld(p, cmds, w3, Receive)
    ensures w4.committer == Committer(1002, [AllLogs(p, cmds)[1001]], None) && w4.topic == w1.topic
            && w4.snapshotCh == []
    ensures |w4.approveCh| == 1 && w4.approveCh[0].orderOffset == 1001 && w4.approveCh[0].book.logSeq == 1002
  {
    hide Bids, LogsOf, AllLogs, Run, Execute, NextWorld;
    var all := AllLogs(p, cmds);
    BidsGood(p, 1003, 1003);
    LogsSoFar(p, cmds, 1002);
    IdealFrom(all, 1001);
    Requested(p, cmds, w1, w2, list);
    ThirdIsNext(p, cmds, w2, v3);
    assert [all[1001]] + v3.sending == all[1001..1003] == [all[1001], all[1002]];
    assert v3.sending == [all[1002]];
    ReceivedWaiting(p, cmds, v3, w3, w4, all[1001], all[1002]);
  }

  lemma Requested(p: Product, cmds: seq<Command>, w1: World, w2: World, list: seq<Order>)
    requires cmds == Bids(1003) && w1.applied == 1002 && w1.orderOffset == 1001 && w1.sending == []
             && w1.approveCh == []
    requires InOrder(p, cmds, w1) && w1.book.window.Valid() && w2 == NextWorld(p, cmds, w1, Request(0, list))
    ensures |w2.approveCh| == 1 && w2.approveCh[0].orderOffset == 1001 && w2.approveCh[0].book.logSeq == 1002
    ensures w2 == w1.(approveCh := w2.approveCh)
  {
    hide Bids, LogsOf, AllLogs, Run, Execute;
    BidsGood(p, 1003, 1002);
    LogsSoFar(p, cmds, 1002);
  }

  /** A log received while the next one waits goes into the batch. */
  lemma ReceivedWaiting(p: Product, cmds: seq<Command>, v: World, w: World, w': World, x: Log, y: Log)
    requires v.book.window.Valid() && v.logCh == [x] && v.sending == [y] && w == NextWorld(p, cmds, v, Send)
    requires w.book.window.Valid() && w' == NextWorld(p, cmds, w, Receive)
    requires v.committer.logs == [] && x.seqNo == v.committer.seqNo + 1
    ensures w'.committer == v.committer.(seqNo := x.seqNo, logs := [x]) && w'.topic == v.topic
    ensures w'.snapshotCh == v.snapshotCh && w'.approveCh == v.approveCh
  {
    assert w.logCh == [x, y] && [] + [x] == [x];
  }

  /** The snapshot is approved and stored although one of its logs is not. */
  lemma SavedEarly(p: Product, cmds: seq<Command>, w4: World, w5: World, w6: World)
    requires |w4.committer.logs| == 1 && w4.committer.seqNo == 1002 && w4.snapshotCh == []
    requires |w4.approveCh| == 1 && w4.approveCh[0].orderOffset == 1001 && w4.approveCh[0].book.logSeq == 1002
    requires w4.book.window.Valid() && w5 == NextWorld(p, cmds, w4, Approve)
    requires w5.book.window.Valid() && w6 == NextWorld(p, cmds, w5, Save)
    ensures w6.saved == Some(w4.approveCh[0]) && w6.topic == w4.topic && !Backed(w4, Approve)
  {
  }

  lemma ThirdIsNext(p: Product, cmds: seq<Command>, w2: World, w3: World)
    requires cmds == Bids(1003) && UniqueRun(cmds) && w2.applied == 1002 && w2.sending == [] && InOrder(p, cmds, w2)
    requires w2.book.window.Valid() && w3 == NextWorld(p, cmds, w2, Apply)
    ensures w3 == w2.(applied := 1003, book := w3.book, orderOffset := 1002, sending := w3.sending)
  {
    hide Bids, Run, Execute;
    BidsPrefix(1003, 1003);
    BidsGood(p, 1003, 1003);
    RunLast(p, cmds, 1002);
    LogsSoFar(p, cmds, 1003);
  }

  /** After the crash the next order's log is stored behind the gap. */
  lemma StoredLate(p: Product, cmds: seq<Command>, w6: World, w7: World, v8: World, w8: World, w9: World)
    requires cmds == Bids(1003) && |AllLogs(p, cmds)| == 1003 && UniqueRun(cmds)
    requires w6.saved.Some? && w6.saved.value.orderOffset == 1001 && w6.saved.value.book.logSeq == 1002
    requires w6.topic == AllLogs(p, cmds)[..1001]
    requires w6.book.window.Valid() && w7 == NextWorld(p, cmds, w6, Crash) && InOrder(p, cmds, w7)
    requires w7.book.window.Valid() && v8 == NextWorld(p, cmds, w7, Apply) && InOrder(p, cmds, v8)
    requires v8.book.window.Valid() && w8 == NextWorld(p, cmds, v8, Send)
    requires w8.book.window.Valid() && w9 == NextWorld(p, cmds, w8, Receive)
    ensures w9.topic == AllLogs(p, cmds)[..1001] + [AllLogs(p, cmds)[1002]]
  {
    hide Bids, LogsOf, AllLogs, Run, Execute, Restore;
    var all := AllLogs(p, cmds);
    BidsGood(p, 1003, 1002);
    BidsGood(p, 1003, 1003);
    BidsPrefix(1003, 1003);
    LogsSoFar(p, cmds, 1003);
    IdealFrom(all, 1002);
    ThirdIsNext(p, cmds, w7, v8);
    assert v8.sending == all[1002..1003] by { assert [] + v8.sending == v8.sending; }
    assert w8.logCh == [all[1002]];
    assert all[1002..1003] == [all[1002]] && [] + [all[1002]] == [all[1002]];
  }

  /** A history of good orders after which every reader of the topic dies. */
  lemma GapHistory(p: Product) returns (cmds: seq<Command>, ws: seq<World>, events: seq<Event>)
    ensures GoodRun(p, cmds) && |ws| == |events| + 1 && History(p, cmds, ws, events)
    ensures Read(Reading(0, []), ws[|events|].topic).Fatal?
  {
    hide Bids, NextWorld, GoodRun, UniqueRun, LogsOf, AllLogs, Run, History, InOrder, Read;
    cmds := Bids(1003);
    BidsGood(p, 1003, 1003);
    ws, events := Drive(p, 1003, 1001);
    ws, events := LostBatch(p, cmds, ws, events);
    var all := AllLogs(p, cmds);
    BidsPrefix(1003, 1003);
    LogsSoFar(p, cmds, 1003);
    assert all[..0] == [] && all[0..1001] == all[..1001] && all[1002..1003] == [all[1002]];
    ReadRun(all, 0, 0, 1001);
    ReadGap(all, 1001, 1002, 1003);
    ReadAppend(Reading(0, []), all[..1001], [all[1002]]);
  }
}
