/** From the engine to a client: the level-2 book a client keeps is the price-level index of the
    orders that rested in the engine at some point of the run. */
module ClientView {
  import opened Market
  import opened Book
  import opened BookInvariant
  import opened Replica
  import opened ReplicaRefinement
  import opened ReplicaSnapshots
  import opened Level2
  import ReplicaBook

  /** The replica has published every number of changes at some point of the run. */
  lemma {:induction false} EveryChangeHasItsLog(p: Product, cmds: seq<Command>, n: nat, f: nat) returns (k: nat)
    requires UniqueRun(cmds) && Run(p, cmds).Next? && n <= |Run(p, cmds).logs|
    requires FeedAll(NewReplica(), Run(p, cmds).logs[..n]).Saved?
             && f <= |FeedAll(NewReplica(), Run(p, cmds).logs[..n]).changes|
    ensures k <= n && FeedAll(NewReplica(), Run(p, cmds).logs[..k]).Saved?
    ensures |FeedAll(NewReplica(), Run(p, cmds).logs[..k]).changes| == f
  {
    hide Run, UniqueRun, FeedAll, Feed, Valid, MirrorsAll;
    var logs := Run(p, cmds).logs;
    if n == 0 {
      FeedNothing(NewReplica(), logs[..0]);
      k := 0;
    } else {
      FeedMirrors(p, cmds, n - 1);
      FeedLast(NewReplica(), logs, n - 1);
      var t := FeedAll(NewReplica(), logs[..n - 1]);
      FeedIsItsChange(t.replica, logs[n - 1]);
      if f <= |t.changes| {
        k := EveryChangeHasItsLog(p, cmds, n - 1, f);
      } else {
        k := n;
      }
    }
  }

  /** For every run of the engine and every session of a client in which requests meet an empty
      buffer, the client's book is the level index of the replica at some point of the run, and the
      increments since its last snapshot are the changes published since that snapshot. */
  lemma ClientSeesReplica(p: Product, cmds: seq<Command>, w: Writer, inputs: seq<Input>)
    returns (s: nat, f: nat, k: nat)
    requires UniqueRun(cmds) && Run(p, cmds).Next? && FeedAll(NewReplica(), Run(p, cmds).logs).Saved? && IsNewWriter(w)
    requires var hist := FeedAll(NewReplica(), Run(p, cmds).logs).changes;
             forall i :: 0 <= i < |inputs| ==> Legit(DepthsOf(NewReplica()), hist, false, inputs[i])
    requires forall i :: 0 <= i < |inputs| ==> MeetsEmptyBuffer(Session(w, inputs[..i]).writer, inputs[i])
    ensures var logs, sent := Run(p, cmds).logs, Session(w, inputs).sent;
            var hist := FeedAll(NewReplica(), logs).changes;
            k <= |logs| && FeedAll(NewReplica(), logs[..k]).Saved? && Valid(FeedAll(NewReplica(), logs[..k]).replica)
            && (Started(sent) ==>
                  && Mirror(DepthsOf(NewReplica()), sent) == DepthsOf(FeedAll(NewReplica(), logs[..k]).replica)
                  && s <= f <= |hist| && Increments(sent) == RowsOf(hist[s..f])
                  && f == |FeedAll(NewReplica(), logs[..k]).changes|)
  {
    hide Run, UniqueRun, FeedAll, Valid, MirrorsAll, DepthsOf, Legit, Session, Mirror, Increments, RowsOf, Started,
         PatchAll;
    var logs := Run(p, cmds).logs;
    var hist := FeedAll(NewReplica(), logs).changes;
    assert logs[..|logs|] == logs;
    ChangesTellAll(p, cmds, 0, |logs|);
    FeedNothing(NewReplica(), logs[..0]);
    s, f := SessionInStep(DepthsOf(NewReplica()), hist, false, w, inputs);
    k := EveryChangeHasItsLog(p, cmds, |logs|, if Started(Session(w, inputs).sent) then f else 0);
    FeedMirrors(p, cmds, k);
    ChangesTellAll(p, cmds, k, |logs|);
    ChangesTellAll(p, cmds, 0, k);
    assert hist[..|FeedAll(NewReplica(), logs[..k]).changes|] == FeedAll(NewReplica(), logs[..k]).changes;
    var c := FeedAll(NewReplica(), logs[..k]).changes;
    assert c[0..] == c;
  }

  /** What the stream stores for clients is what a session may be shown: nothing wrong, and every
      level when a side has no more than a thousand. */
  lemma ShownIsLegit(p: Product, cmds: seq<Command>, k: nat, s: ReplicaBook.Level2Snapshot, i: Input)
    requires UniqueRun(cmds) && Run(p, cmds).Next? && k <= |Run(p, cmds).logs|
    requires FeedAll(NewReplica(), Run(p, cmds).logs[..k]).Saved?
    requires ReplicaBook.Shows(s, FeedAll(NewReplica(), Run(p, cmds).logs[..k]).replica)
    requires FeedAll(NewReplica(), Run(p, cmds).logs).Saved? && i.change.seqNo == 0
    requires i.stored
             == Some(L2Snapshot(s.seqNo, Depths(ReplicaBook.SizesOfRows(s.asks), ReplicaBook.SizesOfRows(s.bids))))
    ensures var hist := FeedAll(NewReplica(), Run(p, cmds).logs).changes;
            var r := FeedAll(NewReplica(), Run(p, cmds).logs[..k]).replica;
            Legit(DepthsOf(NewReplica()), hist, true, i)
            && (|r.asks| <= 1000 && |r.bids| <= 1000 ==> Legit(DepthsOf(NewReplica()), hist, false, i))
  {
    hide Run, UniqueRun, FeedAll, PatchAll, ReplicaBook.IsTop;
    var logs := Run(p, cmds).logs;
    assert logs[..|logs|] == logs;
    ChangesTellAll(p, cmds, k, |logs|);
    ChangesTellAll(p, cmds, 0, k);
    FeedNothing(NewReplica(), logs[..0]);
    var t, hist := FeedAll(NewReplica(), logs[..k]), FeedAll(NewReplica(), logs).changes;
    assert hist[..t.replica.seqNo] == t.changes == t.changes[0..];
    ReplicaBook.TopShows(Sell, t.replica.asks, 1000, s.asks);
    ReplicaBook.TopShows(Buy, t.replica.bids, 1000, s.bids);
  }
}
