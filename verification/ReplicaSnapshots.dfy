/** What clients and restarted streams get of a replica: level changes, level-2 snapshots and full
    snapshots. */
module ReplicaSnapshots {
  import opened Market
  import opened Sums
  import opened Book
  import opened BookInvariant
  import opened Replica
  import opened ReplicaRefinement

  /** The sizes of the levels of a side, by price. */
  function SizesOf(levels: map<int, PriceLevel>): map<int, int> {
    map price | price in levels :: levels[price].size
  }

  /** Both sides of a level-2 book. */
  datatype Depths = Depths(asks: map<int, int>, bids: map<int, int>) {
    function Patch(c: Change): Depths {
      if c.side.Sell? then this.(asks := PatchSide(asks, c)) else this.(bids := PatchSide(bids, c))
    }
  }

  function PatchSide(sizes: map<int, int>, c: Change): map<int, int> {
    if c.size == 0 then sizes - {c.price} else sizes[c.price := c.size]
  }

  function PatchAll(d: Depths, changes: seq<Change>): Depths {
    if changes == [] then d else PatchAll(d, changes[..|changes| - 1]).Patch(changes[|changes| - 1])
  }

  function DepthsOf(r: Replica): Depths { Depths(SizesOf(r.asks), SizesOf(r.bids)) }

  /** Changes numbered one after the other, starting past `seqNo`. */
  predicate Consecutive(changes: seq<Change>, seqNo: nat) {
    forall i :: 0 <= i < |changes| ==> changes[i].seqNo == seqNo + 1 + i
  }

  lemma {:induction false} PatchAppend(d: Depths, a: seq<Change>, b: seq<Change>)
    ensures PatchAll(d, a + b) == PatchAll(PatchAll(d, a), b)
    decreases |b|
  {
    if b == [] {
      assert a + b == a;
    } else {
      assert (a + b)[..|a + b| - 1] == a + b[..|b| - 1];
      PatchAppend(d, a, b[..|b| - 1]);
    }
  }

  /** A save publishes nothing and changes nothing, or publishes the one change that turns the old
      levels into the new. */
  lemma SaveIsItsChange(r: Replica, logSeq: nat, id: int, newSize: int, price: int, side: Side)
    requires Valid(r) && Save(r, logSeq, id, newSize, price, side).Saved?
    ensures var s := Save(r, logSeq, id, newSize, price, side);
            if s.changes == [] then s.replica == r
            else |s.changes| == 1 && s.replica.seqNo == s.changes[0].seqNo == r.seqNo + 1 && s.replica.logSeq == logSeq
                 && DepthsOf(s.replica) == DepthsOf(r).Patch(s.changes[0])
  {
    hide Total, At;
    var s := Save(r, logSeq, id, newSize, price, side);
    if id !in r.orders && newSize > 0 {
      assert LevelIs(r.orders, side, r.Levels(side), price);
      LevelPositive(r.orders, side, price);
    }
    if s.changes != [] { NotedSizes(r, s.replica, s.changes[0]); }
  }

  lemma NotedSizes(r: Replica, r': Replica, c: Change)
    requires r'.Levels(c.side.Opposite()) == r.Levels(c.side.Opposite())
    requires if c.size == 0 then r'.Levels(c.side) == r.Levels(c.side) - {c.price}
             else c.price in r'.Levels(c.side) && r'.Levels(c.side)[c.price].size == c.size
                  && r'.Levels(c.side) == r.Levels(c.side)[c.price := r'.Levels(c.side)[c.price]]
    ensures DepthsOf(r') == DepthsOf(r).Patch(c)
  {
    assert SizesOf(r'.Levels(c.side)) == PatchSide(SizesOf(r.Levels(c.side)), c);
  }

  /** A log that is fed changes nothing, or is summed up by the one change published for it. */
  lemma FeedIsItsChange(r: Replica, log: Log)
    requires Valid(r) && Feed(r, log).Saved?
    ensures var s := Feed(r, log);
            if s.changes == [] then s.replica == r
            else |s.changes| == 1 && s.replica.seqNo == s.changes[0].seqNo == r.seqNo + 1
                 && s.replica.logSeq == log.seqNo
                 && DepthsOf(s.replica) == DepthsOf(r).Patch(s.changes[0])
  {
    hide Save, Valid;
    match log
    case MatchLog(seqNo, _, _, id, side, price, size) =>
      SaveIsItsChange(r, seqNo, id, r.orders[id].size - size, price, side);
    case OpenLog(seqNo, id, remaining, price, side) =>
      SaveIsItsChange(r, seqNo, id, remaining, price, side);
    case DoneLog(seqNo, id, price, remaining, _, side) =>
      if id in r.orders { SaveIsItsChange(r, seqNo, id, r.orders[id].size - remaining, price, side); }
  }

  /** For every run: what is published up to any log is numbered without gaps, and is the whole
      difference between the empty book and the replica's levels. */
  lemma {:induction false} ChangesTellAll(p: Product, cmds: seq<Command>, j: nat, k: nat)
    requires UniqueRun(cmds) && Run(p, cmds).Next? && j <= k <= |Run(p, cmds).logs|
    ensures var logs := Run(p, cmds).logs;
            var s, s' := FeedAll(NewReplica(), logs[..j]), FeedAll(NewReplica(), logs[..k]);
            && s.Saved? && s'.Saved? && s.changes <= s'.changes && Consecutive(s'.changes, 0)
            && s.replica.seqNo == |s.changes| && s'.replica.seqNo == |s'.changes|
            && DepthsOf(s'.replica) == PatchAll(DepthsOf(s.replica), s'.changes[|s.changes|..])
  {
    hide Run, UniqueRun, FeedAll, Feed, Valid, PatchAll, DepthsOf, MirrorsAll;
    var logs := Run(p, cmds).logs;
    FeedMirrors(p, cmds, k);
    if k == 0 {
      FeedNothing(NewReplica(), logs[..0]);
      NothingPatched(DepthsOf(NewReplica()), []);
    } else if j == k {
      ChangesTellAll(p, cmds, j - 1, k - 1);
      FeedMirrors(p, cmds, k - 1);
      FeedLast(NewReplica(), logs, k - 1);
      var s := FeedAll(NewReplica(), logs[..k - 1]);
      FeedIsItsChange(s.replica, logs[k - 1]);
      var s' := FeedAll(NewReplica(), logs[..k]);
      NothingPatched(DepthsOf(s'.replica), s'.changes[|s'.changes|..]);
    } else {
      ChangesTellAll(p, cmds, j, k - 1);
      FeedMirrors(p, cmds, k - 1);
      FeedLast(NewReplica(), logs, k - 1);
      var s, t := FeedAll(NewReplica(), logs[..j]), FeedAll(NewReplica(), logs[..k - 1]);
      var last := Feed(t.replica, logs[k - 1]);
      FeedIsItsChange(t.replica, logs[k - 1]);
      assert (t.changes + last.changes)[|s.changes|..] == t.changes[|s.changes|..] + last.changes;
      if last.changes == [] {
        assert t.changes[|s.changes|..] + last.changes == t.changes[|s.changes|..];
      } else {
        PatchOne(DepthsOf(s.replica), t.changes[|s.changes|..], last.changes);
      }
    }
  }

  lemma NothingPatched(d: Depths, changes: seq<Change>)
    requires changes == []
    ensures PatchAll(d, changes) == d
  {
  }

  lemma PatchOne(d: Depths, a: seq<Change>, b: seq<Change>)
    requires |b| == 1
    ensures PatchAll(d, a + b) == PatchAll(d, a).Patch(b[0])
  {
    PatchAppend(d, a, b);
    assert b[..0] == [];
  }

  // Full snapshots.

  datatype BookOrder = BookOrder(id: int, entry: Entry)

  datatype FullSnapshot = FullSnapshot(orders: seq<BookOrder>, seqNo: nat, logSeq: nat)

  /** A listing of the table, in any order. */
  ghost predicate ListsTable(list: seq<BookOrder>, orders: map<int, Entry>) {
    && (forall i, j :: 0 <= i < j < |list| ==> list[i].id != list[j].id)
    && (forall i :: 0 <= i < |list| ==> list[i].id in orders && orders[list[i].id] == list[i].entry)
    && (forall id :: id in orders ==> exists i :: 0 <= i < |list| && list[i].id == id)
  }

  function SaveAll(r: Replica, list: seq<BookOrder>): Saved {
    if list == [] then Saved(r, [])
    else
      var before := SaveAll(r, list[..|list| - 1]);
      var o := list[|list| - 1];
      if before.Panicked? then Saved.Panicked
      else
        var after := Save(before.replica, 0, o.id, o.entry.size, o.entry.price, o.entry.side);
        if after.Panicked? then Saved.Panicked else Saved(after.replica, before.changes + after.changes)
  }

  /** A new replica after `Restore`. */
  function RestoreFull(s: FullSnapshot): Saved {
    var r := SaveAll(NewReplica(), s.orders);
    if r.Panicked? then Saved.Panicked else r.(replica := r.replica.(seqNo := s.seqNo, logSeq := s.logSeq))
  }

  lemma {:induction false} SaveAllOrders(list: seq<BookOrder>)
    requires forall i, j :: 0 <= i < j < |list| ==> list[i].id != list[j].id
    requires forall i :: 0 <= i < |list| ==> list[i].entry.size > 0
    ensures var s := SaveAll(NewReplica(), list);
            s.Saved? && Valid(s.replica) && ListsTable(list, s.replica.orders)
  {
    hide Save, Valid;
    if list == [] {
      NewReplicaValid();
    } else {
      var n := |list| - 1;
      var o, head := list[n], list[..n];
      SaveAllOrders(head);
      var r := SaveAll(NewReplica(), head).replica;
      assert forall i :: 0 <= i < n ==> head[i].id != o.id;
      assert o.id !in r.orders;
      SaveKeepsValid(r, 0, o.id, o.entry.size, o.entry.price, o.entry.side);
      ListsOneMore(list, r.orders);
    }
  }

  lemma ListsOneMore(list: seq<BookOrder>, orders: map<int, Entry>)
    requires list != [] && ListsTable(list[..|list| - 1], orders) && list[|list| - 1].id !in orders
    ensures ListsTable(list, orders[list[|list| - 1].id := list[|list| - 1].entry])
  {
    var n := |list| - 1;
    var o, head := list[n], list[..n];
    var orders' := orders[o.id := o.entry];
    assert forall i :: 0 <= i < n ==> list[i] == head[i];
    forall id | id in orders' ensures exists i :: 0 <= i < |list| && list[i].id == id {
      if id == o.id {
        assert list[n].id == id;
      } else {
        var i :| 0 <= i < |head| && head[i].id == id;
        assert list[i].id == id;
      }
    }
  }

  lemma NewReplicaValid()
    ensures Valid(NewReplica())
  {
    assert forall side: Side, price: int :: At(NewReplica().orders, side, price) == map[];
  }

  /** A table is determined by any listing of it, and the level index by the table. */
  lemma SameListed(list: seq<BookOrder>, orders1: map<int, Entry>, orders2: map<int, Entry>)
    requires ListsTable(list, orders1) && ListsTable(list, orders2)
    ensures orders1 == orders2
  {
    assert forall id :: id in orders1 <==> id in orders2;
    forall id | id in orders1 ensures orders1[id] == orders2[id] {
      var i :| 0 <= i < |list| && list[i].id == id;
    }
  }

  lemma SameLevels(orders: map<int, Entry>, side: Side, levels1: map<int, PriceLevel>, levels2: map<int, PriceLevel>)
    requires LevelsAgree(orders, side, levels1) && LevelsAgree(orders, side, levels2)
    ensures levels1 == levels2
  {
    hide At, Total;
    forall price
      ensures (price in levels1 <==> price in levels2) && (price in levels1 ==> levels1[price] == levels2[price])
    {
      assert LevelIs(orders, side, levels1, price) && LevelIs(orders, side, levels2, price);
    }
  }

  /** Restoring a full snapshot gives back the very replica it was taken of, however the snapshot
      lists the orders. */
  lemma RestoreFullIsIdentity(r: Replica, s: FullSnapshot)
    requires Valid(r) && ListsTable(s.orders, r.orders) && s.seqNo == r.seqNo && s.logSeq == r.logSeq
    ensures RestoreFull(s).Saved? && RestoreFull(s).replica == r
  {
    hide LevelsAgree;
    SaveAllOrders(s.orders);
    var r' := RestoreFull(s).replica;
    SameListed(s.orders, r.orders, r'.orders);
    SameLevels(r.orders, Sell, r.asks, r'.asks);
    SameLevels(r.orders, Buy, r.bids, r'.bids);
  }

  /** The logs after the last one that changed the replica left it as it is: reading on from
      `logSeq` meets only those again. */
  lemma {:induction false} NothingSinceLogSeq(p: Product, cmds: seq<Command>, k: nat)
    requires UniqueRun(cmds) && Run(p, cmds).Next? && k <= |Run(p, cmds).logs|
    ensures var logs := Run(p, cmds).logs;
            var s := FeedAll(NewReplica(), logs[..k]);
            && s.Saved? && s.replica.logSeq <= k
            && FeedAll(NewReplica(), logs[..s.replica.logSeq]).Saved?
            && FeedAll(NewReplica(), logs[..s.replica.logSeq]).replica == s.replica
  {
    hide Run, UniqueRun, FeedAll, Feed, Valid, MirrorsAll, Numbered;
    var logs := Run(p, cmds).logs;
    FeedMirrors(p, cmds, k);
    if k == 0 {
      FeedNothing(NewReplica(), logs[..0]);
    } else {
      NothingSinceLogSeq(p, cmds, k - 1);
      FeedMirrors(p, cmds, k - 1);
      FeedLast(NewReplica(), logs, k - 1);
      var t := FeedAll(NewReplica(), logs[..k - 1]);
      FeedIsItsChange(t.replica, logs[k - 1]);
      RunNumbered(p, cmds);
      NumberedAt(logs, k - 1);
    }
  }

  lemma NumberedAt(logs: seq<Log>, i: nat)
    requires Numbered(logs, 0, 0) && i < |logs|
    ensures logs[i].seqNo == i + 1
  {
  }

  /** A stream restarted from a full snapshot taken anywhere in a run, and reading on from the
      snapshot's log number, ends in the same replica as one that never stopped. */
  lemma RestartedStream(p: Product, cmds: seq<Command>, k: nat, s: FullSnapshot)
    requires UniqueRun(cmds) && Run(p, cmds).Next? && k <= |Run(p, cmds).logs|
    requires var t := FeedAll(NewReplica(), Run(p, cmds).logs[..k]);
             t.Saved? && ListsTable(s.orders, t.replica.orders) && s.seqNo == t.replica.seqNo
                 && s.logSeq == t.replica.logSeq
    ensures s.logSeq <= k && RestoreFull(s).Saved?
    ensures var logs := Run(p, cmds).logs;
            var whole, resumed := FeedAll(NewReplica(), logs), FeedAll(RestoreFull(s).replica, logs[s.logSeq..]);
            && whole.Saved? && resumed.Saved? && resumed.replica == whole.replica && Valid(whole.replica)
            && exists sent :: sent <= whole.changes && sent + resumed.changes == whole.changes
  {
    hide Run, UniqueRun, FeedAll, RestoreFull, Valid, MirrorsAll;
    var logs := Run(p, cmds).logs;
    FeedMirrors(p, cmds, k);
    FeedMirrors(p, cmds, |logs|);
    assert logs[..|logs|] == logs;
    NothingSinceLogSeq(p, cmds, k);
    RestoreFullIsIdentity(FeedAll(NewReplica(), logs[..k]).replica, s);
    FeedSplit(NewReplica(), logs, s.logSeq);
  }
}
