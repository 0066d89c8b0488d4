/** Price candles: one per granularity and time bucket, updated match by match, and merged for the
    ticker. */
module Candles {
  import opened Decimals
  import opened Sums

  datatype Trade = Trade(time: int, price: int, size: int)

  datatype Candle = Candle(time: int, open: int, close: int, low: int, high: int, volume: int)

  /** In minutes. */
  const GRANULARITIES: seq<int> := [1, 3, 5, 15, 30, 60, 120, 240, 360, 720, 1440]

  /** The start of the bucket; Dafny's remainder is never negative, as `Truncate` needs. */
  function Bucket(time: int, granularity: int): int
    requires granularity > 0
  {
    time - time % (60 * granularity)
  }

  function Size(): Trade -> int { (t: Trade) => t.size }

  /** The candle of some trades, said without a loop: first, last, least, greatest, total. */
  ghost predicate Shows(c: Candle, trades: seq<Trade>) {
    && trades != []
    && c.open == trades[0].price && c.close == trades[|trades| - 1].price && c.volume == Sum(trades, Size())
    && (forall i :: 0 <= i < |trades| ==> c.low <= trades[i].price <= c.high)
    && (exists i :: 0 <= i < |trades| && trades[i].price == c.low)
    && (exists i :: 0 <= i < |trades| && trades[i].price == c.high)
  }

  /** The trades of one bucket. */
  function In(trades: seq<Trade>, granularity: int, bucket: int): seq<Trade>
    requires granularity > 0
  {
    if trades == [] then []
    else
      var t := trades[|trades| - 1];
      In(trades[..|trades| - 1], granularity, bucket) + if Bucket(t.time, granularity) == bucket then [t] else []
  }

  predicate Ordered(trades: seq<Trade>) { forall i, j :: 0 <= i < j < |trades| ==> trades[i].time <= trades[j].time }

  /** The candle after one more trade. */
  function Next(last: map<int, Candle>, g: int, t: Trade): Candle
    requires g > 0
  {
    if g in last && last[g].time == Bucket(t.time, g) then
      last[g].(close := t.price, low := Min(last[g].low, t.price), high := Max(last[g].high, t.price),
               volume := last[g].volume + t.size)
    else Candle(Bucket(t.time, g), t.price, t.price, t.price, t.price, t.size)
  }

  /** The maker's latest candles by granularity, and the stored ones by granularity and time. */
  class TickMaker {
    var ticks: map<int, Candle>
    var stored: map<(int, int), Candle>

    constructor ()
      ensures ticks == map[] && stored == map[]
    {
      ticks, stored := map[], map[];
    }

    /** After any trades in order of time, each granularity's latest candle shows the last bucket, and
        every bucket with a trade in it has its candle stored. */
    ghost predicate Valid(trades: seq<Trade>)
      reads this
    {
      forall g :: g in GRANULARITIES ==> UpToDate(ticks, stored, g, trades)
    }

    method OnMatch(ghost trades: seq<Trade>, t: Trade)
      requires Valid(trades) && Ordered(trades + [t])
      modifies this
      ensures Valid(trades + [t])
    {
      hide UpToDate, Next;
      Positive();
      for k := 0 to |GRANULARITIES|
        invariant forall i :: 0 <= i < k ==> UpToDate(ticks, stored, GRANULARITIES[i], trades + [t])
        invariant forall i :: k <= i < |GRANULARITIES| ==> UpToDate(ticks, stored, GRANULARITIES[i], trades)
      {
        var g := GRANULARITIES[k];
        TradeAdded(ticks, stored, g, trades, t);
        var tick := Next(ticks, g, t);
        forall i | 0 <= i < |GRANULARITIES| && i != k
          ensures forall s :: UpToDate(ticks[g := tick], stored[(g, tick.time) := tick], GRANULARITIES[i], s)
                              == UpToDate(ticks, stored, GRANULARITIES[i], s)
        {
          AllDifferent(i, k);
          forall s { OtherGranularity(ticks, stored, g, tick, GRANULARITIES[i], s); }
        }
        ticks := ticks[g := tick];
        stored := stored[(g, tick.time) := tick];
      }
    }
  }

  lemma Positive()
    ensures forall i :: 0 <= i < |GRANULARITIES| ==> GRANULARITIES[i] > 0
  {
  }

  lemma AllDifferent(i: nat, j: nat)
    requires i < |GRANULARITIES| && j < |GRANULARITIES| && i != j
    ensures GRANULARITIES[i] != GRANULARITIES[j] && GRANULARITIES[i] > 0
  {
  }

  ghost predicate UpToDate(ticks: map<int, Candle>, stored: map<(int, int), Candle>, g: int, trades: seq<Trade>) {
    && g > 0
    && (trades == [] ==> g !in ticks)
    && (trades != [] ==>
          g in ticks && ticks[g].time == Bucket(trades[|trades| - 1].time, g) && (g, ticks[g].time) in stored
          && stored[(g, ticks[g].time)] == ticks[g])
    && (forall b :: (g, b) in stored <==> In(trades, g, b) != [])
    && (forall b :: (g, b) in stored ==> stored[(g, b)].time == b && Shows(stored[(g, b)], In(trades, g, b)))
  }

  lemma ShowsOneMore(c: Candle, trades: seq<Trade>, t: Trade)
    requires Shows(c, trades)
    ensures Shows(c.(close := t.price, low := Min(c.low, t.price), high := Max(c.high, t.price),
                     volume := c.volume + t.size), trades + [t])
  {
    SumAppend(trades, [t], Size());
    SumOne(t, Size());
    var all := trades + [t];
    assert all[|trades|] == t;
    var i :| 0 <= i < |trades| && trades[i].price == c.low;
    var j :| 0 <= j < |trades| && trades[j].price == c.high;
    assert all[i] == trades[i] && all[j] == trades[j];
  }

  lemma ShowsOne(t: Trade, time: int)
    ensures Shows(Candle(time, t.price, t.price, t.price, t.price, t.size), [t])
  {
    SumOne(t, Size());
    assert [t][0] == t;
  }

  /** The trades before a later bucket are not in it. */
  lemma {:induction false} NotYet(trades: seq<Trade>, g: int, b: int, latest: int)
    requires g > 0 && forall i :: 0 <= i < |trades| ==> trades[i].time <= latest
    ensures Bucket(latest, g) < b ==> In(trades, g, b) == []
    decreases |trades|
  {
    if trades != [] {
      NotYet(trades[..|trades| - 1], g, b, latest);
      BucketsGrow(trades[|trades| - 1].time, latest, g);
    }
  }

  lemma BucketsGrow(s: int, t: int, g: int)
    requires g > 0 && s <= t
    ensures Bucket(s, g) <= Bucket(t, g)
  {
    var m := 60 * g;
    var p, q := s / m, t / m;
    assert s == p * m + s % m && t == q * m + t % m;
    MulGap(p - q, m);
    assert (p - q) * m == p * m - q * m;
    assert p <= q;
    MulNonNegative(q - p, m);
    assert (q - p) * m == q * m - p * m;
  }

  /** One more trade in order of time keeps a granularity up to date. */
  lemma TradeAdded(ticks: map<int, Candle>, stored: map<(int, int), Candle>, g: int, trades: seq<Trade>, t: Trade)
    requires UpToDate(ticks, stored, g, trades) && Ordered(trades + [t])
    ensures var tick := Next(ticks, g, t);
            UpToDate(ticks[g := tick], stored[(g, tick.time) := tick], g, trades + [t])
  {
    hide Bucket, Shows, In;
    var tick, bucket, all := Next(ticks, g, t), Bucket(t.time, g), trades + [t];
    TickShows(ticks, stored, g, trades, t);
    var stored' := stored[(g, tick.time) := tick];
    forall b
      ensures (g, b) in stored' <==> In(all, g, b) != []
      ensures (g, b) in stored' ==> stored'[(g, b)].time == b && Shows(stored'[(g, b)], In(all, g, b))
    {
      InOneMore(trades, t, g, b);
      if b != bucket { assert In(trades, g, b) + [] == In(trades, g, b); }
    }
  }

  lemma InOneMore(trades: seq<Trade>, t: Trade, g: int, b: int)
    requires g > 0
    ensures In(trades + [t], g, b) == In(trades, g, b) + if Bucket(t.time, g) == b then [t] else []
  {
    assert (trades + [t])[..|trades|] == trades;
  }

  lemma TickShows(ticks: map<int, Candle>, stored: map<(int, int), Candle>, g: int, trades: seq<Trade>, t: Trade)
    requires UpToDate(ticks, stored, g, trades) && Ordered(trades + [t])
    ensures var tick := Next(ticks, g, t);
            tick.time == Bucket(t.time, g) && Shows(tick, In(trades + [t], g, tick.time))
  {
    hide Bucket, Shows, In;
    var bucket, all := Bucket(t.time, g), trades + [t];
    InOneMore(trades, t, g, bucket);
    if g in ticks && ticks[g].time == bucket {
      ShowsOneMore(ticks[g], In(trades, g, bucket), t);
    } else {
      if trades != [] {
        var last := trades[|trades| - 1].time;
        assert all[|trades|] == t && forall i :: 0 <= i < |trades| ==> all[i] == trades[i];
        BucketsGrow(last, t.time, g);
        NotYet(trades, g, bucket, last);
      }
      assert In(trades, g, bucket) == [] by {
        if trades == [] { NotYet(trades, g, bucket, bucket - 1); BucketAtMost(bucket - 1, g); }
      }
      ShowsOne(t, bucket);
      assert [] + [t] == [t];
    }
  }

  lemma BucketAtMost(time: int, g: int)
    requires g > 0
    ensures Bucket(time, g) <= time
  {
  }

  lemma OtherGranularity(ticks: map<int, Candle>, stored: map<(int, int), Candle>, g: int, tick: Candle, h: int,
                         trades: seq<Trade>)
    requires g != h
    ensures UpToDate(ticks[g := tick], stored[(g, tick.time) := tick], h, trades) == UpToDate(ticks, stored, h, trades)
  {
    hide Bucket, Shows, In;
    var ticks', stored' := ticks[g := tick], stored[(g, tick.time) := tick];
    assert (h in ticks' <==> h in ticks) && (h in ticks ==> ticks'[h] == ticks[h]);
    assert forall b ::
        ((h, b) in stored' <==> (h, b) in stored) && ((h, b) in stored ==> stored'[(h, b)] == stored[(h, b)]);
  }

  // Merging.

  function Merged(a: Candle, b: Candle): Candle {
    a.(close := b.close, low := Min(a.low, b.low), high := Max(a.high, b.high), volume := a.volume + b.volume)
  }

  /** `mergeTicks` of candles given newest first. */
  method MergeTicks(ticks: seq<Candle>, ghost segments: seq<seq<Trade>>) returns (t: Candle)
    requires ticks != [] && |segments| == |ticks|
    requires forall i :: 0 <= i < |ticks| ==> Shows(ticks[i], segments[i])
    ensures Shows(t, Oldest(segments)) && t.time == ticks[|ticks| - 1].time
  {
    hide Shows, Oldest;
    t := ticks[|ticks| - 1];
    var i := 1;
    assert segments[|segments| - 1..] == [segments[|segments| - 1]];
    OldestFirst(segments, |segments| - 1);
    while i < |ticks|
      invariant 1 <= i <= |ticks| && Shows(t, Oldest(segments[|segments| - i..])) && t.time == ticks[|ticks| - 1].time
    {
      var tick := ticks[|ticks| - 1 - i];
      OldestFirst(segments, |segments| - 1 - i);
      MergedShows(t, tick, Oldest(segments[|segments| - i..]), segments[|segments| - 1 - i]);
      t := t.(close := tick.close);
      t := t.(low := Min(t.low, tick.low), high := Max(t.high, tick.high), volume := t.volume + tick.volume);
      i := i + 1;
    }
    assert segments[0..] == segments;
  }

  /** Segments listed newest first, put back in order of time. */
  ghost function Oldest(segments: seq<seq<Trade>>): seq<Trade> {
    if segments == [] then [] else Oldest(segments[1..]) + segments[0]
  }

  lemma OldestFirst(segments: seq<seq<Trade>>, k: nat)
    requires k < |segments|
    ensures Oldest(segments[k..]) == Oldest(segments[k + 1..]) + segments[k]
    ensures k + 1 == |segments| ==> Oldest(segments[k..]) == segments[k]
  {
    assert segments[k..][1..] == segments[k + 1..] && segments[k..][0] == segments[k];
  }

  /** Merging is a homomorphism: the merged candle of two stretches is the candle of both. */
  lemma MergedShows(a: Candle, b: Candle, first: seq<Trade>, second: seq<Trade>)
    requires Shows(a, first) && Shows(b, second)
    ensures Shows(Merged(a, b), first + second)
  {
    SumAppend(first, second, Size());
    var all := first + second;
    assert forall i :: 0 <= i < |second| ==> all[|first| + i] == second[i];
    var i :| 0 <= i < |first| && first[i].price == a.low;
    var j :| 0 <= j < |first| && first[j].price == a.high;
    var k :| 0 <= k < |second| && second[k].price == b.low;
    var m :| 0 <= m < |second| && second[m].price == b.high;
    assert all[i] == first[i] && all[j] == first[j] && all[|first| + k] == second[k] && all[|first| + m] == second[m];
  }
}
