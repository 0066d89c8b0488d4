/** One client's level-2 feed of one product: snapshots followed by increments, out of a channel that
    may lose, delay or repeat changes. */
module Level2 {
  import opened Market
  import opened Replica
  import opened ReplicaSnapshots

  /** What a client receives; increments carry no number. */
  datatype Message = SnapshotMsg(depths: Depths) | UpdateMsg(rows: seq<Row>)

  datatype Row = Row(side: Side, price: int, size: int)

  /** The level-2 snapshot last stored for the product. */
  datatype L2Snapshot = L2Snapshot(seqNo: nat, depths: Depths)

  datatype Writer = Writer(resendSnapshot: bool, changes: seq<Change>, lastSeq: nat)

  predicate IsNewWriter(w: Writer) { w.resendSnapshot && w.changes == [] && w.lastSeq == 0 }

  /** One message out of the channel, with the stored snapshot and whether more messages wait. A
      change numbered 0 asks for a snapshot. */
  datatype Input = Input(change: Change, stored: Option<L2Snapshot>, waiting: bool)

  datatype Stepped = Stepped(writer: Writer, sent: seq<Message>)

  function RowsOf(changes: seq<Change>): (rows: seq<Row>)
    ensures |rows| == |changes|
  {
    if changes == [] then []
    else
      var c := changes[|changes| - 1];
      RowsOf(changes[..|changes| - 1]) + [Row(c.side, c.price, c.size)]
  }

  function Step(w: Writer, i: Input): Stepped {
    if w.resendSnapshot || i.change.seqNo == 0 then
      if i.stored.None? || w.lastSeq > i.stored.value.seqNo then Stepped(w, [])
      else Stepped(w.(lastSeq := i.stored.value.seqNo, resendSnapshot := false), [SnapshotMsg(i.stored.value.depths)])
    else if i.change.seqNo <= w.lastSeq then
      Stepped(w, [])
    else if i.change.seqNo != w.lastSeq + 1 then
      Stepped(Writer(true, [], i.change.seqNo), [])
    else
      var changes := w.changes + [i.change];
      if i.waiting && |changes| < 10 then Stepped(Writer(false, changes, i.change.seqNo), [])
      else Stepped(Writer(false, [], i.change.seqNo), [UpdateMsg(RowsOf(changes))])
  }

  /** The writer's variables for one product. */
  class ChangeWriter {
    var resendSnapshot: bool
    var changes: seq<Change>
    var lastSeq: nat

    function View(): Writer
      reads this
    {
      Writer(resendSnapshot, changes, lastSeq)
    }

    constructor ()
      ensures IsNewWriter(View())
    {
      resendSnapshot, changes, lastSeq := true, [], 0;
    }

    method OnChange(change: Change, stored: Option<L2Snapshot>, waiting: bool) returns (sent: seq<Message>)
      modifies this
      ensures Stepped(View(), sent) == Step(old(View()), Input(change, stored, waiting))
    {
      sent := [];
      if resendSnapshot || change.seqNo == 0 {
        if stored.None? {
          return;
        }
        if lastSeq > stored.value.seqNo {
          return;
        }
        lastSeq, resendSnapshot := stored.value.seqNo, false;
        return [SnapshotMsg(stored.value.depths)];
      }
      if change.seqNo <= lastSeq {
        return;
      }
      if change.seqNo != lastSeq + 1 {
        resendSnapshot, changes, lastSeq := true, [], change.seqNo;
        return;
      }
      lastSeq := change.seqNo;
      changes := changes + [change];
      if waiting && |changes| < 10 {
        return;
      }
      var rows := [];
      for k := 0 to |changes|
        invariant rows == RowsOf(changes[..k])
      {
        assert changes[..k + 1][..k] == changes[..k];
        rows := rows + [Row(changes[k].side, changes[k].price, changes[k].size)];
      }
      assert changes[..|changes|] == changes;
      sent := [UpdateMsg(rows)];
      changes := [];
    }
  }

  function PatchRows(d: Depths, rows: seq<Row>): Depths {
    if rows == [] then d
    else
      var r := rows[|rows| - 1];
      PatchRows(d, rows[..|rows| - 1]).Patch(Change(0, r.side, r.price, r.size))
  }

  /** The book the client keeps, and the increments it got since the last snapshot. */
  function Mirror(d: Depths, sent: seq<Message>): Depths {
    if sent == [] then d
    else
      match sent[|sent| - 1]
      case SnapshotMsg(depths) => depths
      case UpdateMsg(rows) => PatchRows(Mirror(d, sent[..|sent| - 1]), rows)
  }

  function Increments(sent: seq<Message>): seq<Row> {
    if sent == [] then []
    else
      match sent[|sent| - 1]
      case SnapshotMsg(_) => []
      case UpdateMsg(rows) => Increments(sent[..|sent| - 1]) + rows
  }

  predicate Started(sent: seq<Message>) { exists i :: 0 <= i < |sent| && sent[i].SnapshotMsg? }

  lemma {:induction false} RowsAppend(a: seq<Change>, b: seq<Change>)
    ensures RowsOf(a + b) == RowsOf(a) + RowsOf(b)
    decreases |b|
  {
    if b == [] {
      assert a + b == a;
    } else {
      assert (a + b)[..|a + b| - 1] == a + b[..|b| - 1];
      RowsAppend(a, b[..|b| - 1]);
    }
  }

  lemma {:induction false} PatchRowsIsPatchAll(d: Depths, changes: seq<Change>)
    ensures PatchRows(d, RowsOf(changes)) == PatchAll(d, changes)
    decreases |changes|
  {
    if changes != [] { PatchRowsIsPatchAll(d, changes[..|changes| - 1]); }
  }

  lemma MirrorOne(d: Depths, sent: seq<Message>, m: Message)
    ensures Mirror(d, sent + [m]) == if m.SnapshotMsg? then m.depths else PatchRows(Mirror(d, sent), m.rows)
    ensures Increments(sent + [m]) == if m.SnapshotMsg? then [] else Increments(sent) + m.rows
    ensures Started(sent + [m]) <==> Started(sent) || m.SnapshotMsg?
  {
    hide PatchRows;
    assert (sent + [m])[..|sent|] == sent;
    if Started(sent) {
      var i :| 0 <= i < |sent| && sent[i].SnapshotMsg?;
      assert (sent + [m])[i].SnapshotMsg?;
    }
    assert (sent + [m])[|sent|] == m;
  }

  /** The levels after the first n changes of a history. */
  function DepthsAt(d: Depths, hist: seq<Change>, n: nat): Depths
    requires n <= |hist|
  {
    PatchAll(d, hist[..n])
  }

  predicate SubMap(m: map<int, int>, n: map<int, int>) {
    forall k :: k in m ==> k in n && n[k] == m[k]
  }

  /** What a snapshot cut to the best levels shows is right, if not all. */
  predicate Within(d: Depths, e: Depths) { SubMap(d.asks, e.asks) && SubMap(d.bids, e.bids) }

  /** A message that may come out of the channel: a request, or any change of the history, however
      late and however often; the stored snapshot shows the levels at some point of the history,
      all of them unless `cut`. */
  predicate Legit(d: Depths, hist: seq<Change>, cut: bool, i: Input) {
    && (i.change.seqNo > 0 ==> i.change.seqNo <= |hist| && i.change == hist[i.change.seqNo - 1])
    && (i.stored.Some? ==>
          i.stored.value.seqNo <= |hist|
          && if cut then Within(i.stored.value.depths, DepthsAt(d, hist, i.stored.value.seqNo))
             else i.stored.value.depths == DepthsAt(d, hist, i.stored.value.seqNo))
  }

  /** A request that is answered: a snapshot is stored that is no older than anything accounted for. */
  predicate Answered(w: Writer, i: Input) {
    i.change.seqNo == 0 && i.stored.Some? && w.lastSeq <= i.stored.value.seqNo
  }

  /** A request that is answered meets no unsent changes. */
  predicate MeetsEmptyBuffer(w: Writer, i: Input) { Answered(w, i) ==> w.changes == [] }

  /** Between messages: since the snapshot numbered s the client was sent exactly the changes s + 1
      to f in order, its book is that of the history after f changes, and the buffer holds the
      changes after f. */
  ghost predicate InStep(d: Depths, hist: seq<Change>, cut: bool, w: Writer, sent: seq<Message>, s: nat, f: nat) {
    if !Started(sent) then sent == [] && IsNewWriter(w) && s == f == 0
    else
      && s <= f <= w.lastSeq <= |hist|
      && Increments(sent) == RowsOf(hist[s..f])
      && (if cut then Within(Mirror(d, sent), DepthsAt(d, hist, f)) else Mirror(d, sent) == DepthsAt(d, hist, f))
      && w.changes == if w.resendSnapshot then [] else hist[f..w.lastSeq]
  }

  /** Every message keeps that, never steps back, and answers with a snapshot no older than anything
      accounted for. */
  lemma StepInStep(d: Depths, hist: seq<Change>, cut: bool, w: Writer, sent: seq<Message>, s: nat, f: nat, i: Input)
    returns (s': nat, f': nat)
    requires Consecutive(hist, 0) && InStep(d, hist, cut, w, sent, s, f) && Legit(d, hist, cut, i)
             && MeetsEmptyBuffer(w, i)
    ensures InStep(d, hist, cut, Step(w, i).writer, sent + Step(w, i).sent, s', f')
    ensures f <= f' && w.lastSeq <= Step(w, i).writer.lastSeq
    ensures Step(w, i).sent != [] && Step(w, i).sent[0].SnapshotMsg? ==> s' == f' == i.stored.value.seqNo >= w.lastSeq
  {
    hide Mirror, Increments, PatchAll, RowsOf, Started, Within, DepthsAt;
    s', f' := s, f;
    var r := Step(w, i);
    if r.sent == [] {
      assert sent + [] == sent;
    } else {
      MirrorOne(d, sent, r.sent[0]);
      if r.sent[0].SnapshotMsg? {
        s', f' := i.stored.value.seqNo, i.stored.value.seqNo;
        assert hist[s'..f'] == [] && RowsOf([]) == [];
      } else {
        f' := i.change.seqNo;
        FlushInStep(d, hist, cut, w, sent, s, f, i);
      }
    }
  }

  lemma FlushInStep(d: Depths, hist: seq<Change>, cut: bool, w: Writer, sent: seq<Message>, s: nat, f: nat, i: Input)
    requires Consecutive(hist, 0) && InStep(d, hist, cut, w, sent, s, f) && Legit(d, hist, cut, i) && Started(sent)
    requires !w.resendSnapshot && i.change.seqNo == w.lastSeq + 1
    ensures var c := i.change.seqNo;
            var rows := RowsOf(w.changes + [i.change]);
            && w.changes + [i.change] == hist[f..c]
            && Increments(sent) + rows == RowsOf(hist[s..c])
            && if cut then Within(PatchRows(Mirror(d, sent), rows), DepthsAt(d, hist, c))
               else PatchRows(Mirror(d, sent), rows) == DepthsAt(d, hist, c)
  {
    hide Mirror, Increments, PatchAll, PatchRows, RowsOf, Started;
    var c := i.change.seqNo;
    assert w.changes + [i.change] == hist[f..c];
    assert hist[s..c] == hist[s..f] + hist[f..c];
    assert hist[..c] == hist[..f] + hist[f..c];
    RowsAppend(hist[s..f], hist[f..c]);
    PatchAppend(d, hist[..f], hist[f..c]);
    PatchRowsIsPatchAll(Mirror(d, sent), hist[f..c]);
    if cut { PatchWithin(Mirror(d, sent), DepthsAt(d, hist, f), hist[f..c]); }
  }

  lemma {:induction false} PatchWithin(d: Depths, e: Depths, changes: seq<Change>)
    requires Within(d, e)
    ensures Within(PatchAll(d, changes), PatchAll(e, changes))
    decreases |changes|
  {
    if changes != [] { PatchWithin(d, e, changes[..|changes| - 1]); }
  }

  /** A whole session: the writer and everything it sent. */
  function Session(w: Writer, inputs: seq<Input>): Stepped {
    if inputs == [] then Stepped(w, [])
    else
      var before := Session(w, inputs[..|inputs| - 1]);
      var after := Step(before.writer, inputs[|inputs| - 1]);
      Stepped(after.writer, before.sent + after.sent)
  }

  /** For every interleaving of lost, late and repeated changes in which answered requests meet an
      empty buffer, the client's book is the level map at the last change it was sent, and since its last
      snapshot it was sent every change after that snapshot once and in order. */
  lemma {:induction false} SessionInStep(d: Depths, hist: seq<Change>, cut: bool, w: Writer, inputs: seq<Input>)
    returns (s: nat, f: nat)
    requires Consecutive(hist, 0) && IsNewWriter(w)
    requires forall k :: 0 <= k < |inputs| ==> Legit(d, hist, cut, inputs[k])
    requires forall k :: 0 <= k < |inputs| ==> MeetsEmptyBuffer(Session(w, inputs[..k]).writer, inputs[k])
    ensures InStep(d, hist, cut, Session(w, inputs).writer, Session(w, inputs).sent, s, f)
    decreases |inputs|
  {
    hide Step, Legit, InStep;
    if inputs == [] {
      s, f := 0, 0;
      NothingSent(d, hist, cut, w, []);
    } else {
      var n := |inputs| - 1;
      forall k | 0 <= k < n ensures MeetsEmptyBuffer(Session(w, inputs[..n][..k]).writer, inputs[..n][k]) {
        assert inputs[..n][..k] == inputs[..k];
      }
      s, f := SessionInStep(d, hist, cut, w, inputs[..n]);
      var before := Session(w, inputs[..n]);
      s, f := StepInStep(d, hist, cut, before.writer, before.sent, s, f, inputs[n]);
    }
  }

  lemma NothingSent(d: Depths, hist: seq<Change>, cut: bool, w: Writer, sent: seq<Message>)
    requires IsNewWriter(w) && sent == []
    ensures InStep(d, hist, cut, w, sent, 0, 0)
  {
  }

  // What an answered request does to unsent changes.

  /** The inputs bring the changes after t one by one, and only the last of them makes the writer send. */
  ghost predicate FlushedAtLast(hist: seq<Change>, t: nat, w: Writer, nexts: seq<Input>) {
    && nexts != [] && t + |nexts| <= |hist| && w.lastSeq == t
    && (forall k :: 0 <= k < |nexts| ==> nexts[k].change == hist[t + k])
    && (forall k :: 0 <= k < |nexts| ==> Session(w, nexts[..k]).sent == [])
    && Session(w, nexts).sent != []
  }

  /** Until then they gather behind what the buffer held already. */
  lemma {:induction false} Gathering(hist: seq<Change>, t: nat, w: Writer, nexts: seq<Input>, k: nat)
    requires Consecutive(hist, 0) && FlushedAtLast(hist, t, w, nexts) && k < |nexts| && !w.resendSnapshot
    ensures Session(w, nexts[..k]).writer == Writer(false, w.changes + hist[t..t + k], t + k)
  {
    hide Session;
    if k == 0 {
      NoInputs(w, nexts[..0]);
      assert hist[t..t] == [] && w.changes + [] == w.changes;
    } else {
      Gathering(hist, t, w, nexts, k - 1);
      SessionLast(w, nexts, k - 1);
      assert Session(w, nexts[..k]).sent == [];
      Gathered(Session(w, nexts[..k - 1]).writer, nexts[k - 1]);
      OneMore(w.changes, hist, t, t + k - 1);
    }
  }

  lemma NoInputs(w: Writer, inputs: seq<Input>)
    requires inputs == []
    ensures Session(w, inputs) == Stepped(w, [])
  {
  }

  lemma SessionLast(w: Writer, inputs: seq<Input>, n: nat)
    requires n < |inputs|
    ensures var before := Session(w, inputs[..n]);
            var after := Step(before.writer, inputs[n]);
            Session(w, inputs[..n + 1]) == Stepped(after.writer, before.sent + after.sent)
  {
    hide Step;
    assert inputs[..n + 1][..n] == inputs[..n];
  }

  /** A change that is not sent on joins the buffer. */
  lemma Gathered(w: Writer, i: Input)
    requires !w.resendSnapshot && i.change.seqNo == w.lastSeq + 1 && Step(w, i).sent == []
    ensures Step(w, i).writer == Writer(false, w.changes + [i.change], i.change.seqNo)
  {
  }

  lemma FlushSends(hist: seq<Change>, t: nat, w: Writer, nexts: seq<Input>)
    requires Consecutive(hist, 0) && FlushedAtLast(hist, t, w, nexts) && !w.resendSnapshot
    ensures t + |nexts| <= |hist|
    ensures Session(w, nexts).sent == [UpdateMsg(RowsOf(w.changes + hist[t..t + |nexts|]))]
  {
    hide *;
    var n := |nexts| - 1;
    LastFlush(hist, t, w, nexts);
    Gathering(hist, t, w, nexts, n);
    SessionEnd(w, nexts);
    OneMore(w.changes, hist, t, t + n);
    FlushIs(Session(w, nexts[..n]).writer, nexts[n]);
  }

  lemma OneMore<T>(before: seq<T>, s: seq<T>, from: nat, to: nat)
    requires from <= to < |s|
    ensures before + s[from..to] + [s[to]] == before + s[from..to + 1]
  {
  }

  lemma SessionEnd(w: Writer, nexts: seq<Input>)
    requires nexts != []
    ensures var before, last := Session(w, nexts[..|nexts| - 1]), nexts[|nexts| - 1];
            Session(w, nexts).sent == before.sent + Step(before.writer, last).sent
    ensures Session(w, nexts[..|nexts| - 1]).sent == [] ==>
      Session(w, nexts).sent == Step(Session(w, nexts[..|nexts| - 1]).writer, nexts[|nexts| - 1]).sent
  {
    hide Step;
  }

  lemma LastFlush(hist: seq<Change>, t: nat, w: Writer, nexts: seq<Input>)
    requires Consecutive(hist, 0) && FlushedAtLast(hist, t, w, nexts)
    ensures var n := |nexts| - 1;
            && 0 <= n && t + n < |hist| && nexts[n].change == hist[t + n] && hist[t + n].seqNo == t + n + 1
            && Session(w, nexts[..n]).sent == [] && Session(w, nexts).sent != []
  {
    hide Session;
  }

  lemma FlushIs(w: Writer, i: Input)
    requires !w.resendSnapshot && i.change.seqNo == w.lastSeq + 1
    ensures Step(w, i).sent == [] || Step(w, i).sent == [UpdateMsg(RowsOf(w.changes + [i.change]))]
  {
    hide RowsOf;
  }

  /** The last size some changes give a level, if they touch it. */
  function Last(changes: seq<Change>, side: Side, price: int): Option<int> {
    if changes == [] then None
    else
      var c := changes[|changes| - 1];
      if c.side == side && c.price == price then Some(c.size) else Last(changes[..|changes| - 1], side, price)
  }

  function SideOf(d: Depths, side: Side): map<int, int> { if side.Sell? then d.asks else d.bids }

  /** What a book shows at a price. */
  function Shown(d: Depths, side: Side, price: int): Option<int> {
    if price in SideOf(d, side) then Some(SideOf(d, side)[price]) else None
  }

  /** What a book shows once told a size; zero takes the level away. */
  function Told(size: int): Option<int> { if size == 0 then None else Some(size) }

  /** Unsent changes do no harm: every level they touch, and the changes after the snapshot do not,
      is in the snapshot as they leave it. */
  ghost predicate Harmless(stale: seq<Change>, snapshot: Depths, after: seq<Change>) {
    forall side: Side, price: int :: Last(stale, side, price).Some? && Last(after, side, price).None? ==>
      Shown(snapshot, side, price) == Told(Last(stale, side, price).value)
  }

  lemma {:induction false} PatchedShows(d: Depths, changes: seq<Change>, side: Side, price: int)
    ensures Shown(PatchAll(d, changes), side, price)
            == if Last(changes, side, price).Some? then Told(Last(changes, side, price).value)
               else Shown(d, side, price)
    decreases |changes|
  {
    if changes != [] { PatchedShows(d, changes[..|changes| - 1], side, price); }
  }

  lemma {:induction false} LastOf(a: seq<Change>, b: seq<Change>, side: Side, price: int)
    ensures Last(a + b, side, price) == if Last(b, side, price).Some? then Last(b, side, price)
            else Last(a, side, price)
    decreases |b|
  {
    if b == [] {
      assert a + b == a;
    } else {
      assert (a + b)[..|a + b| - 1] == a + b[..|b| - 1];
      LastOf(a, b[..|b| - 1], side, price);
    }
  }

  lemma SameShown(d: Depths, e: Depths)
    requires forall side: Side, price: int :: Shown(d, side, price) == Shown(e, side, price)
    ensures d == e
  {
    forall price
      ensures (price in d.asks <==> price in e.asks) && (price in d.asks ==> d.asks[price] == e.asks[price])
    {
      assert Shown(d, Sell, price) == Shown(e, Sell, price);
    }
    forall price
      ensures (price in d.bids <==> price in e.bids) && (price in d.bids ==> d.bids[price] == e.bids[price])
    {
      assert Shown(d, Buy, price) == Shown(e, Buy, price);
    }
  }

  /** Stale changes before the right ones leave the right book exactly when they are harmless. */
  lemma StaleIff(snapshot: Depths, stale: seq<Change>, after: seq<Change>)
    ensures PatchAll(snapshot, stale + after) == PatchAll(snapshot, after) <==> Harmless(stale, snapshot, after)
  {
    hide PatchAll, Last;
    var d, e := PatchAll(snapshot, stale + after), PatchAll(snapshot, after);
    forall side: Side, price: int
      ensures Shown(d, side, price) == Shown(e, side, price)
              <==> (Last(stale, side, price).Some? && Last(after, side, price).None? ==>
                      Shown(snapshot, side, price) == Told(Last(stale, side, price).value))
    {
      PatchedShows(snapshot, stale + after, side, price);
      PatchedShows(snapshot, after, side, price);
      LastOf(stale, after, side, price);
    }
    if Harmless(stale, snapshot, after) { SameShown(d, e); }
  }

  /** After an answered request, and however many changes go into the next message: what was sent
      since the snapshot is exactly the changes after it if and only if the request met an empty
      buffer. */
  lemma RequestWithBufferIff(d: Depths, hist: seq<Change>, w: Writer, sent: seq<Message>, request: Input,
                             nexts: seq<Input>)
    requires Consecutive(hist, 0)
    requires Legit(d, hist, false, request) && Answered(w, request)
    requires FlushedAtLast(hist, request.stored.value.seqNo, Step(w, request).writer, nexts)
    ensures var t := request.stored.value.seqNo;
            var sent' := sent + Step(w, request).sent + Session(Step(w, request).writer, nexts).sent;
            t + |nexts| <= |hist|
            && (Increments(sent') == RowsOf(hist[t..t + |nexts|]) <==> MeetsEmptyBuffer(w, request))
  {
    hide RowsOf, Increments, Mirror, PatchAll, PatchRows, Session, DepthsAt, Consecutive, Step, Legit,
      FlushedAtLast, MeetsEmptyBuffer;
    SentOnFlush(d, hist, w, sent, request, nexts);
    AnswerIs(d, hist, w, request);
  }

  /** And the client's book is then the level map if and only if the unsent changes did no harm. */
  lemma BookAfterRequestIff(d: Depths, hist: seq<Change>, w: Writer, sent: seq<Message>, request: Input,
                            nexts: seq<Input>)
    requires Consecutive(hist, 0)
    requires Legit(d, hist, false, request) && Answered(w, request)
    requires FlushedAtLast(hist, request.stored.value.seqNo, Step(w, request).writer, nexts)
    ensures var t := request.stored.value.seqNo;
            var sent' := sent + Step(w, request).sent + Session(Step(w, request).writer, nexts).sent;
            t + |nexts| <= |hist|
            && (Mirror(d, sent') == DepthsAt(d, hist, t + |nexts|)
                <==> Harmless(w.changes, DepthsAt(d, hist, t), hist[t..t + |nexts|]))
  {
    hide RowsOf, Increments, Mirror, PatchAll, PatchRows, Session, DepthsAt, Consecutive, Step, Legit,
      FlushedAtLast, Harmless;
    var t := request.stored.value.seqNo;
    SentOnFlush(d, hist, w, sent, request, nexts);
    BookIff(d, hist, t, t + |nexts|, w.changes);
  }

  /** What reaches the client: the snapshot, then the unsent changes and the new ones in one message. */
  lemma SentOnFlush(d: Depths, hist: seq<Change>, w: Writer, sent: seq<Message>, request: Input, nexts: seq<Input>)
    requires Consecutive(hist, 0) && Legit(d, hist, false, request) && Answered(w, request)
    requires FlushedAtLast(hist, request.stored.value.seqNo, Step(w, request).writer, nexts)
    ensures var t := request.stored.value.seqNo;
            var sent' := sent + Step(w, request).sent + Session(Step(w, request).writer, nexts).sent;
            && t + |nexts| <= |hist|
            && (Increments(sent') == RowsOf(hist[t..t + |nexts|]) <==> w.changes == [])
            && Mirror(d, sent') == PatchRows(DepthsAt(d, hist, t), RowsOf(w.changes + hist[t..t + |nexts|]))
  {
    hide RowsOf, Increments, Mirror, PatchAll, PatchRows, Session, DepthsAt, Consecutive, Step, Legit, FlushedAtLast,
         MeetsEmptyBuffer;
    var t, r1 := request.stored.value.seqNo, Step(w, request);
    AnswerIs(d, hist, w, request);
    FlushSends(hist, t, r1.writer, nexts);
    SentAfterAnswer(d, sent, r1.sent, Session(r1.writer, nexts).sent, DepthsAt(d, hist, t),
                    RowsOf(w.changes + hist[t..t + |nexts|]));
    IncrementsIff(Increments(sent + r1.sent + Session(r1.writer, nexts).sent), w.changes, hist[t..t + |nexts|]);
  }

  lemma SentAfterAnswer(d: Depths, sent: seq<Message>, answer: seq<Message>, flush: seq<Message>, snapshot: Depths,
                        rows: seq<Row>)
    requires answer == [SnapshotMsg(snapshot)] && flush == [UpdateMsg(rows)]
    ensures Increments(sent + answer + flush) == rows
    ensures Mirror(d, sent + answer + flush) == PatchRows(snapshot, rows)
  {
    hide Mirror, Increments, PatchRows, Started;
    MirrorOne(d, sent, SnapshotMsg(snapshot));
    MirrorOne(d, sent + [SnapshotMsg(snapshot)], UpdateMsg(rows));
    assert [] + rows == rows;
  }

  lemma AnswerIs(d: Depths, hist: seq<Change>, w: Writer, request: Input)
    requires Legit(d, hist, false, request) && Answered(w, request)
    ensures var t := request.stored.value.seqNo;
            && t <= |hist| && (MeetsEmptyBuffer(w, request) <==> w.changes == [])
            && Step(w, request).writer == Writer(false, w.changes, t)
            && Step(w, request).sent == [SnapshotMsg(DepthsAt(d, hist, t))]
  {
    hide DepthsAt;
  }

  lemma IncrementsIff(sent: seq<Row>, stale: seq<Change>, news: seq<Change>)
    requires sent == RowsOf(stale + news)
    ensures sent == RowsOf(news) <==> stale == []
  {
    if stale == [] { assert stale + news == news; }
  }

  lemma BookIff(d: Depths, hist: seq<Change>, t: nat, u: nat, stale: seq<Change>)
    requires t <= u <= |hist|
    ensures PatchRows(DepthsAt(d, hist, t), RowsOf(stale + hist[t..u])) == DepthsAt(d, hist, u)
            <==> Harmless(stale, DepthsAt(d, hist, t), hist[t..u])
  {
    hide PatchAll, PatchRows, RowsOf, Harmless;
    PatchRowsIsPatchAll(DepthsAt(d, hist, t), stale + hist[t..u]);
    StaleIff(DepthsAt(d, hist, t), stale, hist[t..u]);
    assert hist[..u] == hist[..t] + hist[t..u];
    PatchAppend(d, hist[..t], hist[t..u]);
  }

  /** What the stale changes do: a level that was bought out while its change lay in the buffer comes
      back to the client's book after the snapshot, and stays. */
  lemma StaleChangeRevived(d: Depths, w: Writer, price: int)
    requires IsNewWriter(w) && d == Depths(map[], map[]) && price > 0
    ensures var hist := [Change(1, Sell, price, 5), Change(2, Sell, price, 0), Change(3, Sell, price + 1, 7)];
            var ask := Change(0, Sell, 0, 0);
            var inputs := [Input(ask, Some(L2Snapshot(0, DepthsAt(d, hist, 0))), true), Input(hist[0], None, true),
                           Input(ask, Some(L2Snapshot(2, DepthsAt(d, hist, 2))), true), Input(hist[2], None, false)];
            var r := Session(w, inputs);
            && Consecutive(hist, 0) && (forall k :: 0 <= k < 4 ==> Legit(d, hist, false, inputs[k]))
            && r.writer == Writer(false, [], 3)
            && price in Mirror(d, r.sent).asks && price !in DepthsAt(d, hist, 3).asks
  {
    var c1, c2, c3 := Change(1, Sell, price, 5), Change(2, Sell, price, 0), Change(3, Sell, price + 1, 7);
    var hist, ask := [c1, c2, c3], Change(0, Sell, 0, 0);
    assert hist[..0] == [] && hist[..1] == [c1] && hist[..2] == hist[..1] + [c2]
        && hist[..3] == hist[..2] + [c3] == hist;
    ReplicaSnapshots.PatchOne(d, [], [c1]);
    ReplicaSnapshots.PatchOne(d, hist[..1], [c2]);
    ReplicaSnapshots.PatchOne(d, hist[..2], [c3]);
    var i1, i2 := Input(ask, Some(L2Snapshot(0, DepthsAt(d, hist, 0))), true), Input(c1, None, true);
    var i3, i4 := Input(ask, Some(L2Snapshot(2, DepthsAt(d, hist, 2))), true), Input(c3, None, false);
    StaleSession(d, w, i1, i2, i3, i4);
    StaleBook(d, DepthsAt(d, hist, 0), DepthsAt(d, hist, 2), c1, c3);
  }

  lemma StaleSession(d: Depths, w: Writer, i1: Input, i2: Input, i3: Input, i4: Input)
    requires IsNewWriter(w) && i1.change.seqNo == 0 && i3.change.seqNo == 0 && i2.change.seqNo == 1
             && i4.change.seqNo == 3
    requires i1.stored.Some? && i1.stored.value.seqNo == 0 && i3.stored.Some? && i3.stored.value.seqNo == 2
    requires i2.waiting && !i4.waiting
    ensures Session(w, [i1, i2, i3, i4])
            == Stepped(Writer(false, [], 3),
                       [SnapshotMsg(i1.stored.value.depths), SnapshotMsg(i3.stored.value.depths),
                        UpdateMsg(RowsOf([i2.change, i4.change]))])
  {
    hide RowsOf, Session;
    var s1, s3 := SnapshotMsg(i1.stored.value.depths), SnapshotMsg(i3.stored.value.depths);
    assert [] + [i1] == [i1] && [i1] + [i2] == [i1, i2] && [i1, i2] + [i3] == [i1, i2, i3];
    assert [i1, i2, i3] + [i4] == [i1, i2, i3, i4];
    SessionOne(w, [], i1);
    assert Session(w, [i1]) == Stepped(Writer(false, [], 0), [s1]);
    SessionOne(w, [i1], i2);
    assert Session(w, [i1, i2]) == Stepped(Writer(false, [i2.change], 1), [s1]);
    SessionOne(w, [i1, i2], i3);
    assert Session(w, [i1, i2, i3]) == Stepped(Writer(false, [i2.change], 2), [s1, s3]);
    SessionOne(w, [i1, i2, i3], i4);
    assert [i2.change] + [i4.change] == [i2.change, i4.change];
  }

  lemma SessionOne(w: Writer, inputs: seq<Input>, i: Input)
    ensures var before := Session(w, inputs);
            Session(w, inputs + [i])
                == Stepped(Step(before.writer, i).writer, before.sent + Step(before.writer, i).sent)
    ensures inputs == [] ==> Session(w, inputs) == Stepped(w, [])
  {
    hide Step;
    assert (inputs + [i])[..|inputs|] == inputs;
  }

  lemma StaleBook(d: Depths, d0: Depths, d2: Depths, c1: Change, c3: Change)
    requires c1.side == c3.side == Sell && c1.size != 0 && c1.price != c3.price
    ensures c1.price in Mirror(d, [SnapshotMsg(d0), SnapshotMsg(d2), UpdateMsg(RowsOf([c1, c3]))]).asks
  {
    var sent := [SnapshotMsg(d0), SnapshotMsg(d2)];
    MirrorOne(d, [SnapshotMsg(d0)], SnapshotMsg(d2));
    assert [SnapshotMsg(d0)] + [SnapshotMsg(d2)] == sent;
    MirrorOne(d, sent, UpdateMsg(RowsOf([c1, c3])));
    assert sent + [UpdateMsg(RowsOf([c1, c3]))] == [SnapshotMsg(d0), SnapshotMsg(d2), UpdateMsg(RowsOf([c1, c3]))];
    PatchRowsIsPatchAll(d2, [c1, c3]);
    assert [c1, c3] == [c1] + [c3];
    ReplicaSnapshots.PatchOne(d2, [c1], [c3]);
    ReplicaSnapshots.PatchOne(d2, [], [c1]);
    assert [] + [c1] == [c1];
  }
}
