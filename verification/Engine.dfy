/** The engine's pipeline around the book, with crashes: logs, batches, snapshots, restarts. */
module Engine {
  import opened Market
  import opened Decimals
  import opened Book
  import opened BookInvariant
  import opened Recovery
  import opened LogReader

  /** A snapshot of the book with the offset of the last order applied to it. */
  datatype EngineSnapshot = EngineSnapshot(book: Snapshot, orderOffset: nat)

  /** The committer's variables: the number of the last log received, the batch not yet stored, and
      the snapshot waiting for its logs. */
  datatype Committer = Committer(seqNo: nat, logs: seq<Log>, pending: Option<EngineSnapshot>)

  datatype Committed = Committed(committer: Committer, stored: seq<Log>, approved: seq<EngineSnapshot>)

  /** One log received, with whether more wait in the channel. */
  function ReceiveLog(c: Committer, log: Log, waiting: bool): Committed {
    if log.seqNo <= c.seqNo then Committed(c, [], [])
    else
      var logs := c.logs + [log];
      if waiting && |logs| < 100 then Committed(c.(seqNo := log.seqNo, logs := logs), [], [])
      else if c.pending.Some? && log.seqNo >= c.pending.value.book.logSeq then
        Committed(Committer(log.seqNo, [], None), logs, [c.pending.value])
      else
        Committed(c.(seqNo := log.seqNo, logs := []), logs, [])
  }

  function ReceiveSnapshot(c: Committer, s: EngineSnapshot): Committed {
    if c.seqNo >= s.book.logSeq then Committed(c.(pending := None), [], [s])
    else Committed(c.(pending := Some(s)), [], [])
  }

  class CommitterLoop {
    var seqNo: nat
    var pending: Option<EngineSnapshot>
    var logs: seq<Log>

    function View(): Committer
      reads this
    {
      Committer(seqNo, logs, pending)
    }

    constructor (logSeq: nat)
      ensures View() == Committer(logSeq, [], None)
    {
      seqNo, pending, logs := logSeq, None, [];
    }

    method OnLog(log: Log, waiting: bool) returns (stored: seq<Log>, approved: seq<EngineSnapshot>)
      modifies this
      ensures Committed(View(), stored, approved) == ReceiveLog(old(View()), log, waiting)
    {
      stored, approved := [], [];
      if log.seqNo <= seqNo {
        return;
      }
      seqNo := log.seqNo;
      logs := logs + [log];
      if waiting && |logs| < 100 {
        return;
      }
      stored, logs := logs, [];
      if pending.Some? && seqNo >= pending.value.book.logSeq {
        approved, pending := [pending.value], None;
      }
    }

    method OnSnapshot(snapshot: EngineSnapshot) returns (approved: seq<EngineSnapshot>)
      modifies this
      ensures Committed(View(), [], approved) == ReceiveSnapshot(old(View()), snapshot)
    {
      approved := [];
      if seqNo >= snapshot.book.logSeq {
        approved, pending := [snapshot], None;
        return;
      }
      pending := Some(snapshot);
    }
  }

  /** The engine, its channels, and what survives it: the log topic and the last stored snapshot. */
  datatype World = World(
    applied: nat,                       // orders applied, counted from the start of the stream
    book: Book,
    orderOffset: nat,                   // the applier's own record of the last offset
    sending: seq<Log>,                  // logs of the last order that the applier has still to send
    logCh: seq<Log>,
    approveCh: seq<EngineSnapshot>,
    committer: Committer,
    snapshotCh: seq<EngineSnapshot>,
    topic: seq<Log>,
    saved: Option<EngineSnapshot>)

  datatype Event =
    | Apply                                            // the applier takes the next order
    | Send                                             // and sends one of its logs to the committer
    | Request(since: nat, orders: seq<Order>)          // a snapshot request, and how the tables list the orders
    | Receive                                          // the committer takes a log
    | Approve                                          // the committer takes a snapshot
    | Save                                             // an approved snapshot is stored
    | Crash                                            // the process dies and starts again

  function Boot(topic: seq<Log>, saved: Option<EngineSnapshot>): World {
    if saved.None? then World(0, NewBook(), 0, [], [], [], Committer(0, [], None), [], topic, saved)
    else
      var s := saved.value;
      // the fetcher reads on from the offset after the snapshot's, if that is not 0
      World(if s.orderOffset > 0 then s.orderOffset + 1 else 0, Restore(s.book), 0, [], [], [],
            Committer(s.book.logSeq, [], None), [], topic, saved)
  }

  /** One step; a step that is not possible changes nothing. */
  function NextWorld(p: Product, cmds: seq<Command>, w: World, e: Event): World
    requires w.book.window.Valid()
  {
    match e
    case Apply =>
      if w.applied >= |cmds| || w.sending != [] then w
      else
        var r := Execute(p, w.book, cmds[w.applied]);
        if r.Panicked? then Boot(w.topic, w.saved)
        else w.(applied := w.applied + 1, book := r.book, orderOffset := w.applied, sending := r.logs)
    case Send =>
      if w.sending == [] then w else w.(sending := w.sending[1..], logCh := w.logCh + [w.sending[0]])
    case Request(since, orders) =>
      if w.sending != [] || w.orderOffset - since <= 1000 then w
      else
        var s := Snapshot(orders, w.book.logSeq, w.book.tradeSeq, w.book.window);
        w.(approveCh := w.approveCh + [EngineSnapshot(s, w.orderOffset)])
    case Receive =>
      if w.logCh == [] then w
      else
        var c := ReceiveLog(w.committer, w.logCh[0], |w.logCh| > 1);
        w.(logCh := w.logCh[1..], committer := c.committer, topic := w.topic + c.stored,
           snapshotCh := w.snapshotCh + c.approved)
    case Approve =>
      if w.approveCh == [] then w
      else
        var c := ReceiveSnapshot(w.committer, w.approveCh[0]);
        w.(approveCh := w.approveCh[1..], committer := c.committer, snapshotCh := w.snapshotCh + c.approved)
    case Save =>
      if w.snapshotCh == [] then w
      else w.(snapshotCh := w.snapshotCh[1..], saved := Some(w.snapshotCh[0]))
    case Crash =>
      Boot(w.topic, w.saved)
  }

  /** The step ends the process: it is killed, or panics on the next order. */
  predicate Falls(p: Product, cmds: seq<Command>, w: World, e: Event)
    requires w.book.window.Valid()
  {
    e.Crash? || (e.Apply? && w.applied < |cmds| && w.sending == [] && Execute(p, w.book, cmds[w.applied]).Panicked?)
  }

  /** The logs of the stream, up to the first order that panics if there is one. */
  function AllLogs(p: Product, cmds: seq<Command>): seq<Log>
    decreases |cmds|
  {
    var r := Run(p, cmds);
    if r.Next? then r.logs else AllLogs(p, cmds[..|cmds| - 1])
  }

  /** How many logs the first k orders emit. */
  function LogsOf(p: Product, cmds: seq<Command>, k: nat): nat
    requires k <= |cmds|
  {
    var r := Run(p, cmds[..k]);
    if r.Next? then |r.logs| else 0
  }

  lemma {:induction false} LogsGrow(p: Product, cmds: seq<Command>, j: nat, k: nat)
    requires j <= k <= |cmds| && Run(p, cmds[..k]).Next?
    ensures Run(p, cmds[..j]).Next? && Run(p, cmds[..j]).logs <= Run(p, cmds[..k]).logs
    ensures LogsOf(p, cmds, j) <= LogsOf(p, cmds, k)
  {
    hide Run, Replay, Execute;
    if j < k {
      RunLast(p, cmds, k - 1);
      LogsGrow(p, cmds, j, k - 1);
    }
  }

  /** How far the stream gets without a panic. */
  lemma {:induction false} Survived(p: Product, cmds: seq<Command>) returns (m: nat)
    ensures m <= |cmds| && Run(p, cmds[..m]).Next? && AllLogs(p, cmds) == Run(p, cmds[..m]).logs
    ensures forall k :: 0 <= k <= |cmds| && Run(p, cmds[..k]).Next? ==> k <= m
    decreases |cmds|
  {
    hide Run, Replay;
    assert cmds[..|cmds|] == cmds;
    if cmds == [] { RunNothing(p, cmds); }
    if Run(p, cmds).Next? {
      m := |cmds|;
    } else {
      var n := |cmds| - 1;
      m := Survived(p, cmds[..n]);
      assert cmds[..n][..m] == cmds[..m];
      forall k | 0 <= k <= |cmds| && Run(p, cmds[..k]).Next? ensures k <= m {
        if k <= n { assert cmds[..n][..k] == cmds[..k]; }
      }
    }
  }

  /** What a run has logged after k orders is a prefix of what it will log. */
  lemma LogsSoFar(p: Product, cmds: seq<Command>, k: nat)
    requires UniqueRun(cmds) && k <= |cmds| && Run(p, cmds[..k]).Next?
    ensures Inv(Run(p, cmds[..k]).book) && LogsOf(p, cmds, k) <= |AllLogs(p, cmds)|
    ensures Run(p, cmds[..k]).logs == AllLogs(p, cmds)[..LogsOf(p, cmds, k)]
    ensures Run(p, cmds[..k]).book.logSeq == LogsOf(p, cmds, k)
    ensures Ideal(AllLogs(p, cmds))
  {
    hide Run, Replay, Inv, UniqueRun, Numbered, AllLogs;
    UniquePrefix(cmds, k);
    RunKeepsInv(p, cmds[..k]);
    var m := Survived(p, cmds);
    LogsGrow(p, cmds, k, m);
    RunNumbered(p, cmds[..k]);
    RunNumbered(p, cmds[..m]);
    NumberedIsIdeal(AllLogs(p, cmds));
  }

  lemma FirstLogs(p: Product, cmds: seq<Command>)
    requires UniqueRun(cmds)
    ensures Run(p, cmds[..0]) == Next(NewBook(), []) && Ideal(AllLogs(p, cmds)) && LogsOf(p, cmds, 0) == 0
  {
    hide Run, Replay, UniqueRun, AllLogs;
    RunNothing(p, cmds[..0]);
    LogsSoFar(p, cmds, 0);
  }

  lemma NumberedIsIdeal(logs: seq<Log>)
    requires Numbered(logs, 0, 0)
    ensures Ideal(logs)
  {
  }

  /** A snapshot of the run, owning its bits, taken after the order at its offset. */
  ghost predicate GoodSnapshot(p: Product, cmds: seq<Command>, s: EngineSnapshot) {
    && 0 < s.orderOffset < |cmds|
    && var r := Run(p, cmds[..s.orderOffset + 1]);
       r.Next? && Lists(s.book.orders, r.book) && s.book.logSeq == r.book.logSeq
       && s.book.tradeSeq == r.book.tradeSeq && s.book.window == r.book.window
  }

  ghost predicate GoodSnapshots(p: Product, cmds: seq<Command>, ss: seq<EngineSnapshot>) {
    forall i :: 0 <= i < |ss| ==> GoodSnapshot(p, cmds, ss[i])
  }

  /** Number of the last log the committer has stored, or started from. */
  function StoredTo(c: Committer): int { c.seqNo - |c.logs| }

  /** In every interleaving: the book is that of the run so far, the logs not yet received and the
      batch not yet stored follow each other without gap or repeat, and every snapshot on its way is
      one of the run. */
  ghost predicate InOrder(p: Product, cmds: seq<Command>, w: World) {
    && w.applied <= |cmds| && Run(p, cmds[..w.applied]).Next? && w.book == Run(p, cmds[..w.applied]).book
    && (w.orderOffset > 0 ==> w.orderOffset == w.applied - 1)
    && 0 <= StoredTo(w.committer) && w.committer.seqNo <= LogsOf(p, cmds, w.applied) <= |AllLogs(p, cmds)|
    && w.committer.logs == AllLogs(p, cmds)[StoredTo(w.committer)..w.committer.seqNo]
    && w.logCh + w.sending == AllLogs(p, cmds)[w.committer.seqNo..LogsOf(p, cmds, w.applied)]
    && GoodSnapshots(p, cmds, w.approveCh) && GoodSnapshots(p, cmds, w.snapshotCh)
    && (w.committer.pending.Some? ==> GoodSnapshot(p, cmds, w.committer.pending.value))
    && (w.saved.Some? ==> GoodSnapshot(p, cmds, w.saved.value))
  }

  lemma StartedInOrder(p: Product, cmds: seq<Command>, topic: seq<Log>, saved: Option<EngineSnapshot>)
    requires UniqueRun(cmds) && (saved.Some? ==> GoodSnapshot(p, cmds, saved.value))
    ensures InOrder(p, cmds, Boot(topic, saved))
    ensures StoredTo(Boot(topic, saved).committer) == if saved.Some? then saved.value.book.logSeq else 0
  {
    hide Run, Replay, UniqueRun, Inv, Lists;
    if saved.Some? {
      var s := saved.value;
      LogsSoFar(p, cmds, s.orderOffset + 1);
      RestoreIsIdentity(Run(p, cmds[..s.orderOffset + 1]).book, s.book);
    } else {
      FirstLogs(p, cmds);
    }
  }

  /** The listing of a snapshot request is one of the book's tables. */
  ghost predicate Possible(w: World, e: Event) { e.Request? ==> Lists(e.orders, w.book) }

  /** Every step keeps the order, crashes included. */
  lemma NextInOrder(p: Product, cmds: seq<Command>, w: World, e: Event)
    requires UniqueRun(cmds) && InOrder(p, cmds, w) && Possible(w, e)
    ensures w.book.window.Valid() && InOrder(p, cmds, NextWorld(p, cmds, w, e))
  {
    hide Run, Replay, UniqueRun, Inv, Lists, AllLogs, GoodSnapshot, Ideal;
    LogsSoFar(p, cmds, w.applied);
    if Falls(p, cmds, w, e) {
      StartedInOrder(p, cmds, w.topic, w.saved);
    } else if e.Apply? && w.applied < |cmds| && w.sending == [] {
      ApplyInOrder(p, cmds, w);
    } else if e.Receive? && w.logCh != [] {
      ReceiveInOrder(p, cmds, w);
    } else if e.Send? && w.sending != [] {
      assert w.logCh + [w.sending[0]] + w.sending[1..] == w.logCh + w.sending;
    } else if e.Request? && w.sending == [] && w.orderOffset - e.since > 1000 {
      RequestInOrder(p, cmds, w, e);
    }
  }

  lemma ApplyInOrder(p: Product, cmds: seq<Command>, w: World)
    requires UniqueRun(cmds) && InOrder(p, cmds, w) && w.applied < |cmds| && w.sending == [] && w.book.window.Valid()
    requires !Falls(p, cmds, w, Apply)
    ensures InOrder(p, cmds, NextWorld(p, cmds, w, Apply))
  {
    hide Run, Replay, UniqueRun, Inv, GoodSnapshots, GoodSnapshot, Execute, Ideal;
    RunLast(p, cmds, w.applied);
    LogsSoFar(p, cmds, w.applied);
    LogsSoFar(p, cmds, w.applied + 1);
    var all, n, m := AllLogs(p, cmds), LogsOf(p, cmds, w.applied), LogsOf(p, cmds, w.applied + 1);
    assert all[..m] == all[..n] + Execute(p, w.book, cmds[w.applied]).logs;
    assert all[w.committer.seqNo..m] == all[w.committer.seqNo..n] + all[n..m];
    assert Execute(p, w.book, cmds[w.applied]).logs == all[n..m];
    assert w.logCh == all[w.committer.seqNo..n];
  }

  lemma RequestInOrder(p: Product, cmds: seq<Command>, w: World, e: Event)
    requires InOrder(p, cmds, w) && Possible(w, e) && w.book.window.Valid()
    requires e.Request? && w.sending == [] && w.orderOffset - e.since > 1000
    ensures InOrder(p, cmds, NextWorld(p, cmds, w, e))
  {
    hide Run, Replay, Lists, AllLogs, Execute;
  }

  lemma ReceiveInOrder(p: Product, cmds: seq<Command>, w: World)
    requires UniqueRun(cmds) && InOrder(p, cmds, w) && w.logCh != [] && w.book.window.Valid()
    ensures InOrder(p, cmds, NextWorld(p, cmds, w, Receive))
    ensures var to := StoredTo(NextWorld(p, cmds, w, Receive).committer);
            0 <= StoredTo(w.committer) <= to <= |AllLogs(p, cmds)|
            && NextWorld(p, cmds, w, Receive).topic == w.topic + AllLogs(p, cmds)[StoredTo(w.committer)..to]
  {
    hide Run, Replay, UniqueRun, Inv, GoodSnapshot, Execute, AllLogs, Ideal, LogsOf;
    LogsSoFar(p, cmds, w.applied);
    var all, c := AllLogs(p, cmds), w.committer;
    IdealFrom(all, c.seqNo);
    var rest := w.logCh + w.sending;
    assert w.logCh[0] == rest[0] == all[c.seqNo];
    assert w.logCh[1..] + w.sending == rest[1..] == all[c.seqNo + 1..LogsOf(p, cmds, w.applied)];
    ReceivedBatch(all, c, |w.logCh| > 1);
  }

  lemma IdealFrom(all: seq<Log>, k: nat)
    requires Ideal(all)
    ensures k < |all| ==> all[k].seqNo == k + 1
  {
  }

  lemma ReceivedBatch(all: seq<Log>, c: Committer, waiting: bool)
    requires 0 <= StoredTo(c) && c.seqNo < |all| && c.logs == all[StoredTo(c)..c.seqNo]
             && all[c.seqNo].seqNo == c.seqNo + 1
    ensures var r := ReceiveLog(c, all[c.seqNo], waiting);
            && r.committer.seqNo == c.seqNo + 1 && StoredTo(c) <= StoredTo(r.committer)
            && r.committer.logs == all[StoredTo(r.committer)..c.seqNo + 1]
            && r.stored == all[StoredTo(c)..StoredTo(r.committer)]
            && (r.approved != [] ==> r.committer.logs == [])
  {
    assert c.logs + [all[c.seqNo]] == all[StoredTo(c)..c.seqNo + 1];
  }

  /** A history of the process: a first start, then any steps. */
  ghost predicate History(p: Product, cmds: seq<Command>, ws: seq<World>, events: seq<Event>) {
    && |ws| == |events| + 1 && ws[0] == Boot([], None)
    && forall i :: 0 <= i < |events| ==>
         ws[i].book.window.Valid() && Possible(ws[i], events[i]) && ws[i + 1] == NextWorld(p, cmds, ws[i], events[i])
  }

  /** In every history, however the steps interleave and wherever it crashes, book, channels and batch
      are consecutive stretches of the run and every snapshot is one of it. */
  lemma {:induction false} HistoryInOrder(p: Product, cmds: seq<Command>, ws: seq<World>, events: seq<Event>, n: nat)
    requires UniqueRun(cmds) && History(p, cmds, ws, events) && n <= |events|
    ensures InOrder(p, cmds, ws[n])
  {
    hide NextWorld, InOrder, UniqueRun, Possible;
    if n == 0 {
      StartedInOrder(p, cmds, [], None);
    } else {
      HistoryInOrder(p, cmds, ws, events, n - 1);
      NextInOrder(p, cmds, ws[n - 1], events[n - 1]);
    }
  }

  /** Between crashes the topic grows by exactly what the committer stores, one stretch of the run
      after the other: a gap-free, duplicate-free extension of what the incarnation started from. */
  lemma {:induction false} IncarnationStores(p: Product, cmds: seq<Command>, ws: seq<World>, events: seq<Event>,
                                             m: nat, n: nat)
    requires UniqueRun(cmds) && History(p, cmds, ws, events) && m <= n <= |events|
    requires forall i :: m <= i < n ==> !Falls(p, cmds, ws[i], events[i])
    ensures var all, from, to := AllLogs(p, cmds), StoredTo(ws[m].committer), StoredTo(ws[n].committer);
            0 <= from <= to <= |all| && ws[n].topic == ws[m].topic + all[from..to]
  {
    hide NextWorld, UniqueRun, Possible, AllLogs, Run, LogsOf, GoodSnapshots, GoodSnapshot;
    var all := AllLogs(p, cmds);
    HistoryInOrder(p, cmds, ws, events, m);
    if m < n {
      IncarnationStores(p, cmds, ws, events, m, n - 1);
      HistoryInOrder(p, cmds, ws, events, n - 1);
      StepStores(p, cmds, ws[n - 1], events[n - 1]);
      var a, b, c := StoredTo(ws[m].committer), StoredTo(ws[n - 1].committer), StoredTo(ws[n].committer);
      assert all[a..b] + all[b..c] == all[a..c];
    } else {
      assert all[StoredTo(ws[m].committer)..StoredTo(ws[m].committer)] == [];
    }
  }

  lemma StepStores(p: Product, cmds: seq<Command>, w: World, e: Event)
    requires UniqueRun(cmds) && InOrder(p, cmds, w) && w.book.window.Valid() && !Falls(p, cmds, w, e)
    ensures var all, from, to := AllLogs(p, cmds), StoredTo(w.committer), StoredTo(NextWorld(p, cmds, w, e).committer);
            0 <= from <= to <= |all| && NextWorld(p, cmds, w, e).topic == w.topic + all[from..to]
  {
    hide UniqueRun, AllLogs, Run, Replay, Execute, GoodSnapshots, GoodSnapshot, Inv, Ideal;
    var all, from := AllLogs(p, cmds), StoredTo(w.committer);
    assert all[from..from] == [];
    if e.Receive? && w.logCh != [] {
      ReceiveInOrder(p, cmds, w);
    } else if e.Apply? && w.applied < |cmds| && w.sending == [] {
      RunLast(p, cmds, w.applied);
      LogsSoFar(p, cmds, w.applied + 1);
    }
  }

  // What readers of the topic get.

  /** The highest log number in the topic. */
  function TopSeq(topic: seq<Log>): nat {
    if topic == [] then 0 else Max(TopSeq(topic[..|topic| - 1]), topic[|topic| - 1].seqNo)
  }

  /** The topic gives its readers every log up to its highest number once and in order, and none dies. */
  predicate Delivers(all: seq<Log>, topic: seq<Log>) {
    TopSeq(topic) <= |all| && Read(Reading(0, []), topic) == Reading(TopSeq(topic), all[..TopSeq(topic)])
  }

  lemma {:induction false} TopAppend(all: seq<Log>, topic: seq<Log>, from: nat, to: nat)
    requires Ideal(all) && from <= to <= |all|
    ensures TopSeq(topic + all[from..to]) == if from < to then Max(TopSeq(topic), to) else TopSeq(topic)
  {
    if from == to {
      assert topic + all[from..to] == topic;
    } else {
      assert (topic + all[from..to])[..|topic| + to - from - 1] == topic + all[from..to - 1];
      TopAppend(all, topic, from, to - 1);
    }
  }

  /** One more stretch of the run keeps a delivering topic delivering if and only if it starts at most
      one past the highest number. */
  lemma GrowthIff(all: seq<Log>, topic: seq<Log>, from: nat, to: nat)
    requires Ideal(all) && Delivers(all, topic) && from <= to <= |all|
    ensures Delivers(all, topic + all[from..to]) <==> (from < to ==> from <= TopSeq(topic))
  {
    hide Ideal, Read, TopSeq;
    var h := TopSeq(topic);
    TopAppend(all, topic, from, to);
    ReadAppend(Reading(0, []), topic, all[from..to]);
    if from <= h {
      ReadRun(all, h, from, to);
    } else if from < to {
      ReadGap(all, h, from, to);
    } else {
      assert topic + all[from..to] == topic;
    }
  }

  /** A step adds nothing to the topic, or what it adds starts at most one past the highest number. */
  predicate NoGapIn(w: World, w': World) {
    |w'.topic| > |w.topic| ==> StoredTo(w.committer) <= TopSeq(w.topic)
  }

  lemma StepDeliversIff(p: Product, cmds: seq<Command>, w: World, e: Event)
    requires UniqueRun(cmds) && InOrder(p, cmds, w) && w.book.window.Valid() && Delivers(AllLogs(p, cmds), w.topic)
    ensures Delivers(AllLogs(p, cmds), NextWorld(p, cmds, w, e).topic) <==> NoGapIn(w, NextWorld(p, cmds, w, e))
  {
    hide UniqueRun, AllLogs, Ideal, Delivers, NextWorld, InOrder, TopSeq, Run;
    if Falls(p, cmds, w, e) {
      FallKeepsTopic(p, cmds, w, e);
    } else {
      FirstLogs(p, cmds);
      StepStores(p, cmds, w, e);
      GrowthIff(AllLogs(p, cmds), w.topic, StoredTo(w.committer), StoredTo(NextWorld(p, cmds, w, e).committer));
    }
  }

  lemma FallKeepsTopic(p: Product, cmds: seq<Command>, w: World, e: Event)
    requires w.book.window.Valid() && Falls(p, cmds, w, e)
    ensures NextWorld(p, cmds, w, e) == Boot(w.topic, w.saved) && NextWorld(p, cmds, w, e).topic == w.topic
  {
    hide Restore, Execute;
  }

  /** For every history, however it interleaves and crashes and whatever it approves: readers are given
      exactly the run's logs, in order and once, at every point up to step n, if and only if no step up
      to there stores a batch that starts past the one after the highest number in the topic. */
  lemma {:induction false} HistoryDeliversIff(p: Product, cmds: seq<Command>, ws: seq<World>, events: seq<Event>,
                                              n: nat)
    requires UniqueRun(cmds) && History(p, cmds, ws, events) && n <= |events|
    ensures (forall i :: 0 <= i <= n ==> Delivers(AllLogs(p, cmds), ws[i].topic))
            <==> (forall i :: 0 <= i < n ==> NoGapIn(ws[i], ws[i + 1]))
  {
    hide NextWorld, InOrder, UniqueRun, Possible, AllLogs, Delivers, NoGapIn;
    var all := AllLogs(p, cmds);
    if n == 0 {
      EmptyTopicDelivers(all, ws[0].topic);
    } else {
      HistoryDeliversIff(p, cmds, ws, events, n - 1);
      if forall i :: 0 <= i <= n - 1 ==> Delivers(all, ws[i].topic) {
        HistoryInOrder(p, cmds, ws, events, n - 1);
        StepDeliversIff(p, cmds, ws[n - 1], events[n - 1]);
        assert ws[n - 1 + 1] == ws[n];
      }
    }
  }

  lemma EmptyTopicDelivers(all: seq<Log>, topic: seq<Log>)
    requires topic == []
    ensures Delivers(all, topic)
  {
    assert all[..0] == [];
  }

  /** The snapshot a crash falls back on, if any, has all its logs in the topic. */
  predicate FallsBackSafely(w: World) { w.saved.Some? ==> w.saved.value.book.logSeq <= TopSeq(w.topic) }

  /** For every history of crashes and restarts from snapshots whose logs are in the topic by then,
      however early they were approved: at every point readers are given exactly the run's logs up to
      the highest number stored, in order and once, and none dies. */
  lemma {:induction false} HistorySafe(p: Product, cmds: seq<Command>, ws: seq<World>, events: seq<Event>, n: nat)
    requires UniqueRun(cmds) && History(p, cmds, ws, events) && n <= |events|
    requires forall i :: 0 <= i < n && Falls(p, cmds, ws[i], events[i]) ==> FallsBackSafely(ws[i])
    ensures Delivers(AllLogs(p, cmds), ws[n].topic) && StoredTo(ws[n].committer) <= TopSeq(ws[n].topic)
  {
    hide NextWorld, InOrder, UniqueRun, Possible, AllLogs, Delivers, TopSeq, FallsBackSafely;
    if n == 0 {
      EmptyTopicDelivers(AllLogs(p, cmds), ws[0].topic);
    } else {
      HistorySafe(p, cmds, ws, events, n - 1);
      HistoryInOrder(p, cmds, ws, events, n - 1);
      StepDeliversIff(p, cmds, ws[n - 1], events[n - 1]);
      StepStaysBehind(p, cmds, ws[n - 1], events[n - 1]);
    }
  }

  /** The committer stays behind the topic, which never shrinks. */
  lemma StepStaysBehind(p: Product, cmds: seq<Command>, w: World, e: Event)
    requires UniqueRun(cmds) && InOrder(p, cmds, w) && w.book.window.Valid()
    requires StoredTo(w.committer) <= TopSeq(w.topic) && (Falls(p, cmds, w, e) ==> FallsBackSafely(w))
    ensures var w' := NextWorld(p, cmds, w, e);
            StoredTo(w'.committer) <= TopSeq(w'.topic) && TopSeq(w.topic) <= TopSeq(w'.topic)
  {
    hide UniqueRun, AllLogs, Ideal, InOrder, TopSeq, Run, Execute, Restore;
    if Falls(p, cmds, w, e) {
      FallKeepsTopic(p, cmds, w, e);
    } else {
      hide NextWorld;
      FirstLogs(p, cmds);
      StepStores(p, cmds, w, e);
      TopAppend(AllLogs(p, cmds), w.topic, StoredTo(w.committer), StoredTo(NextWorld(p, cmds, w, e).committer));
    }
  }

  /** A snapshot approved on the spot has all its logs stored by this incarnation, not merely received. */
  predicate Backed(w: World, e: Event) {
    e.Approve? && w.approveCh != [] && w.committer.seqNo >= w.approveCh[0].book.logSeq ==>
      w.approveCh[0].book.logSeq <= StoredTo(w.committer)
  }

  /** With an empty batch every approval is backed. */
  lemma EmptyBatchBacked(w: World, e: Event)
    requires w.committer.logs == []
    ensures Backed(w, e)
  {
  }

  /** Every snapshot approved or stored has its logs in the topic. */
  ghost predicate ApprovedBehind(w: World) {
    FallsBackSafely(w) && forall i :: 0 <= i < |w.snapshotCh| ==> w.snapshotCh[i].book.logSeq <= TopSeq(w.topic)
  }

  lemma StepApprovedBehind(p: Product, cmds: seq<Command>, w: World, e: Event)
    requires UniqueRun(cmds) && InOrder(p, cmds, w) && w.book.window.Valid() && Backed(w, e)
    requires StoredTo(w.committer) <= TopSeq(w.topic) && ApprovedBehind(w)
    ensures ApprovedBehind(NextWorld(p, cmds, w, e))
  {
    hide UniqueRun, AllLogs, Ideal, InOrder, TopSeq, Run, Execute, Restore;
    StepStaysBehind(p, cmds, w, e);
    if e.Receive? && w.logCh != [] { PendingIsBacked(w.committer, w.logCh[0], |w.logCh| > 1); }
  }

  /** In particular nothing stored is ever ahead of the topic, and readers get exactly the run, when
      every approval on the spot is backed. */
  lemma {:induction false} BackedHistorySafe(p: Product, cmds: seq<Command>, ws: seq<World>, events: seq<Event>, n: nat)
    requires UniqueRun(cmds) && History(p, cmds, ws, events) && n <= |events|
    requires forall i :: 0 <= i < n ==> Backed(ws[i], events[i])
    ensures forall i :: 0 <= i <= n ==> ApprovedBehind(ws[i])
    ensures Delivers(AllLogs(p, cmds), ws[n].topic)
  {
    hide NextWorld, InOrder, UniqueRun, Possible, AllLogs, Delivers, TopSeq, Backed;
    if n > 0 {
      BackedHistorySafe(p, cmds, ws, events, n - 1);
      assert ApprovedBehind(ws[n - 1]);
      HistorySafe(p, cmds, ws, events, n - 1);
      HistoryInOrder(p, cmds, ws, events, n - 1);
      StepApprovedBehind(p, cmds, ws[n - 1], events[n - 1]);
    }
    HistorySafe(p, cmds, ws, events, n);
  }

  /** The pending path never needs that assumption: when a snapshot is released by a store, the
      whole batch up to the last log received is in the topic. */
  lemma PendingIsBacked(c: Committer, log: Log, waiting: bool)
    ensures var r := ReceiveLog(c, log, waiting);
            r.approved != [] ==>
              r.approved == [c.pending.value] && r.stored == c.logs + [log] && r.committer.logs == []
              && c.pending.value.book.logSeq <= log.seqNo == StoredTo(r.committer)
  {
  }

  /** A snapshot stored ahead of the topic is fatal: after a crash the next batch leaves a gap, and
      readers die on it or miss the logs before it; if it is not ahead they go on. */
  lemma RestartDeliversIff(p: Product, cmds: seq<Command>, topic: seq<Log>, s: EngineSnapshot, to: nat)
    requires UniqueRun(cmds) && GoodSnapshot(p, cmds, s) && Delivers(AllLogs(p, cmds), topic)
    requires s.book.logSeq < to <= |AllLogs(p, cmds)|
    ensures StoredTo(Boot(topic, Some(s)).committer) == s.book.logSeq
    ensures Delivers(AllLogs(p, cmds), topic + AllLogs(p, cmds)[s.book.logSeq..to]) <==> s.book.logSeq <= TopSeq(topic)
  {
    hide Run, Replay, UniqueRun, Inv, Lists, AllLogs, Ideal, Restore, Delivers;
    FirstLogs(p, cmds);
    GrowthIff(AllLogs(p, cmds), topic, s.book.logSeq, to);
  }
}
