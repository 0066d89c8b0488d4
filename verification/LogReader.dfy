/** The filter between the log topic and its observers: repeats are dropped, and a gap is fatal. */
module LogReader {
  import opened Market
  import opened Decimals

  /** What a reader has passed on. `lastSeq` is the number of the last log it took. */
  datatype Reading = Fatal | Reading(lastSeq: nat, delivered: seq<Log>)

  function Take(r: Reading, log: Log): Reading {
    if r.Fatal? || log.seqNo <= r.lastSeq then r
    else if r.lastSeq > 0 && log.seqNo != r.lastSeq + 1 then Fatal
    else Reading(log.seqNo, r.delivered + [log])
  }

  function Read(r: Reading, topic: seq<Log>): Reading {
    if topic == [] then r else Take(Read(r, topic[..|topic| - 1]), topic[|topic| - 1])
  }

  /** Reads what the topic holds past `offset`. */
  method ReadTopic(seqNo: nat, offset: nat, topic: seq<Log>) returns (fatal: bool, delivered: seq<Log>)
    requires offset <= |topic|
    ensures var r := Read(Reading(seqNo, []), topic[offset..]);
            if r.Fatal? then fatal else !fatal && delivered == r.delivered
  {
    var lastSeq := seqNo;
    fatal, delivered := false, [];
    var messages := topic[offset..];
    assert messages[..0] == [];
    for k := 0 to |messages|
      invariant Read(Reading(seqNo, []), messages[..k]) == Reading(lastSeq, delivered)
    {
      assert messages[..k + 1][..k] == messages[..k];
      if messages[k].seqNo <= lastSeq {
        continue;
      } else if lastSeq > 0 && messages[k].seqNo != lastSeq + 1 {
        FatalStays(Reading(seqNo, []), messages, k + 1);
        fatal := true;
        return;
      }
      lastSeq := messages[k].seqNo;
      delivered := delivered + [messages[k]];
    }
    assert messages[..|messages|] == messages;
  }

  lemma {:induction false} FatalStays(r: Reading, topic: seq<Log>, k: nat)
    requires k <= |topic| && Read(r, topic[..k]).Fatal?
    ensures Read(r, topic).Fatal?
    decreases |topic|
  {
    if k < |topic| {
      assert topic[..|topic| - 1][..k] == topic[..k];
      FatalStays(r, topic[..|topic| - 1], k);
    } else {
      assert topic[..k] == topic;
    }
  }

  /** Reading on after a pause is the same as reading in one go. */
  lemma {:induction false} ReadAppend(r: Reading, a: seq<Log>, b: seq<Log>)
    ensures Read(r, a + b) == Read(Read(r, a), b)
    decreases |b|
  {
    if b == [] {
      assert a + b == a;
    } else {
      assert (a + b)[..|a + b| - 1] == a + b[..|b| - 1];
      ReadAppend(r, a, b[..|b| - 1]);
    }
  }

  /** An ideal log: numbered from 1 without gaps. */
  predicate Ideal(all: seq<Log>) { forall i :: 0 <= i < |all| ==> all[i].seqNo == i + 1 }

  lemma ReadNothing(r: Reading, topic: seq<Log>)
    requires topic == []
    ensures Read(r, topic) == r
  {
  }

  /** The last log of a stretch. */
  lemma ReadLast(r: Reading, all: seq<Log>, from: nat, to: nat)
    requires from < to <= |all|
    ensures Read(r, all[from..to]) == Take(Read(r, all[from..to - 1]), all[to - 1])
  {
    assert all[from..to][..to - from - 1] == all[from..to - 1];
  }

  /** A reader that has passed on exactly the first h logs passes on a run of the ideal log that
      starts no later without a gap. */
  lemma {:induction false} ReadRun(all: seq<Log>, h: nat, from: nat, to: nat)
    requires Ideal(all) && from <= to <= |all| && from <= h <= |all|
    ensures Read(Reading(h, all[..h]), all[from..to]) == Reading(Max(h, to), all[..Max(h, to)])
  {
    hide Read;
    if from < to {
      ReadLast(Reading(h, all[..h]), all, from, to);
      ReadRun(all, h, from, to - 1);
      if h < to { assert all[..to] == all[..to - 1] + [all[to - 1]]; }
    } else {
      ReadNothing(Reading(h, all[..h]), all[from..to]);
    }
  }

  /** A later run breaks the delivery: the reader dies, or misses the first logs altogether. */
  lemma {:induction false} ReadGap(all: seq<Log>, h: nat, from: nat, to: nat)
    requires Ideal(all) && h < from < to <= |all|
    ensures var r := Read(Reading(h, all[..h]), all[from..to]);
            if h > 0 then r.Fatal? else r == Reading(to, all[from..to])
  {
    hide Read;
    ReadLast(Reading(h, all[..h]), all, from, to);
    if from + 1 < to {
      ReadGap(all, h, from, to - 1);
      assert all[from..to] == all[from..to - 1] + [all[to - 1]];
    } else {
      ReadNothing(Reading(h, all[..h]), all[from..from]);
      assert h == 0 ==> all[..h] + [all[from]] == all[from..to];
    }
  }

  /** The delivery goes on exactly as the ideal log if and only if the next run starts at most one
      past the last log delivered. */
  lemma RunDeliveredIff(all: seq<Log>, h: nat, from: nat, to: nat)
    requires Ideal(all) && from < to <= |all| && h <= |all|
    ensures var r := Read(Reading(h, all[..h]), all[from..to]);
            (r.Reading? && r.delivered == all[..Max(h, to)]) <==> from <= h
  {
    if from <= h { ReadRun(all, h, from, to); } else { ReadGap(all, h, from, to); }
  }

  /** A stretch of the ideal log, stored by one incarnation of the engine. */
  datatype Stretch = Stretch(from: nat, to: nat)

  predicate Stretches(all: seq<Log>, runs: seq<Stretch>) {
    forall i :: 0 <= i < |runs| ==> runs[i].from < runs[i].to <= |all|
  }

  function TopicOf(all: seq<Log>, runs: seq<Stretch>): seq<Log>
    requires Stretches(all, runs)
  {
    if runs == [] then []
    else TopicOf(all, runs[..|runs| - 1]) + all[runs[|runs| - 1].from..runs[|runs| - 1].to]
  }

  function Highest(all: seq<Log>, runs: seq<Stretch>): (h: nat)
    requires Stretches(all, runs)
    ensures h <= |all|
  {
    if runs == [] then 0 else Max(Highest(all, runs[..|runs| - 1]), runs[|runs| - 1].to)
  }

  /** Every stretch starts at most one past the highest number before it. */
  predicate NoGap(all: seq<Log>, runs: seq<Stretch>)
    requires Stretches(all, runs)
  {
    forall i :: 0 <= i < |runs| ==> runs[i].from <= Highest(all, runs[..i])
  }

  /** The stretches delivered exactly the ideal log up to the highest number stored. */
  predicate Delivered(all: seq<Log>, runs: seq<Stretch>)
    requires Stretches(all, runs)
  {
    var r := Read(Reading(0, []), TopicOf(all, runs));
    r.Reading? && r.delivered == all[..Highest(all, runs)]
  }

  /** At no time has the reader died, repeated or missed a log. */
  predicate ExactlyOnce(all: seq<Log>, runs: seq<Stretch>)
    requires Stretches(all, runs)
  {
    forall i :: 0 <= i <= |runs| ==> Delivered(all, runs[..i])
  }

  /** Each log is delivered once and in order, and the reader never dies, exactly when no stretch of
      the topic starts past the one after the highest stored before it. */
  lemma {:induction false} ExactlyOnceIff(all: seq<Log>, runs: seq<Stretch>)
    requires Ideal(all) && Stretches(all, runs)
    ensures ExactlyOnce(all, runs) <==> NoGap(all, runs)
  {
    hide Ideal, Read, TopicOf, Highest, ExactlyOnce, NoGap, Delivered;
    if runs == [] {
      NothingDelivered(all, runs);
    } else {
      var head := runs[..|runs| - 1];
      ExactlyOnceIff(all, head);
      LastStretch(all, runs);
      if ExactlyOnce(all, head) {
        HeadDelivered(all, head);
        NextDeliveredIff(all, runs);
      }
    }
  }

  lemma NothingDelivered(all: seq<Log>, runs: seq<Stretch>)
    requires runs == []
    ensures ExactlyOnce(all, runs) && NoGap(all, runs)
  {
    assert runs[..0] == [] && all[..0] == [];
  }

  lemma HeadDelivered(all: seq<Log>, runs: seq<Stretch>)
    requires Stretches(all, runs) && ExactlyOnce(all, runs)
    ensures Delivered(all, runs)
  {
    assert runs[..|runs|] == runs;
  }

  lemma LastStretch(all: seq<Log>, runs: seq<Stretch>)
    requires runs != [] && Stretches(all, runs)
    ensures var n := |runs| - 1;
            && (NoGap(all, runs) <==> NoGap(all, runs[..n]) && runs[n].from <= Highest(all, runs[..n]))
            && (ExactlyOnce(all, runs) <==> ExactlyOnce(all, runs[..n]) && Delivered(all, runs))
  {
    hide Highest, Delivered, TopicOf, Read;
    var n := |runs| - 1;
    assert forall i :: 0 <= i <= n ==> runs[..n][..i] == runs[..i];
    assert runs[..n + 1] == runs;
  }

  lemma NextDeliveredIff(all: seq<Log>, runs: seq<Stretch>)
    requires Ideal(all) && runs != [] && Stretches(all, runs) && Delivered(all, runs[..|runs| - 1])
    ensures Delivered(all, runs) <==> runs[|runs| - 1].from <= Highest(all, runs[..|runs| - 1])
  {
    hide Ideal, Read;
    var head, last := runs[..|runs| - 1], runs[|runs| - 1];
    LastDelivered(TopicOf(all, head));
    IdealAt(all, Highest(all, head));
    ReadAppend(Reading(0, []), TopicOf(all, head), all[last.from..last.to]);
    RunDeliveredIff(all, Highest(all, head), last.from, last.to);
  }

  lemma IdealAt(all: seq<Log>, h: nat)
    requires Ideal(all) && h <= |all|
    ensures h > 0 ==> all[..h] != [] && all[..h][h - 1].seqNo == h
  {
  }

  lemma {:induction false} LastDelivered(topic: seq<Log>)
    ensures var r := Read(Reading(0, []), topic);
            r.Reading? ==> r.lastSeq == if r.delivered == [] then 0 else r.delivered[|r.delivered| - 1].seqNo
  {
    if topic != [] { LastDelivered(topic[..|topic| - 1]); }
  }
}
