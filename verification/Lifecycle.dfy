/** The life of one order as the logs tell it. */
module Lifecycle {
  import opened Market
  import opened Decimals
  import opened Book
  import opened PriceTime
  import opened BookInvariant
  import opened Recovery
  import opened AnyRun

  /** Fresh until the order trades or is closed; Taking while it trades as the taker; Resting once
      opened; Ended by its Done log. Broken means the logs do not form a life. */
  datatype Phase = Fresh | Taking | Resting | Ended | Broken

  /** `matched` and `value` add up the sizes and the values of the matches so far. */
  datatype Life = Life(phase: Phase, matched: int, value: int) {
    function Traded(phase: Phase, size: int, price: int): Life {
      Life(phase, matched + size, value + size * price)
    }
    function Break(): Life { this.(phase := Broken) }
  }

  predicate IsBirth(life: Life) { life.phase.Fresh? && life.matched == 0 && life.value == 0 }

  predicate WithinLimit(o: Order, price: int) {
    o.kind.Limit? ==> if o.side.Buy? then price <= o.price else o.price <= price
  }

  /** What is left of the order's own limit: funds for a market buy, size otherwise. */
  function Unused(o: Order, life: Life): int {
    if o.IsMarketBuy() then o.funds - life.value else o.size - life.matched
  }

  /** The grammar: taker matches within the limit, then either Done, or Open for exactly the
      unmatched size followed by maker matches at the order's price, each within what is left, and
      at most one Done that returns exactly what is left; nothing after Done. */
  function Advance(o: Order, life: Life, log: Log): Life {
    if !log.Names(o.id) then life
    else match log
      case MatchLog(_, _, takerId, makerId, side, price, size) =>
        if takerId == o.id && makerId != o.id && life.phase in {Fresh, Taking} && size > 0
           && side == o.side.Opposite() && WithinLimit(o, price) then
          life.Traded(Taking, size, price)
        else if takerId != o.id && life.phase.Resting? && 0 < size <= Unused(o, life) && side == o.side
            && price == o.price then
          life.Traded(Resting, size, price)
        else
          life.Break()
      case OpenLog(_, _, remaining, price, side) =>
        if life.phase in {Fresh, Taking} && o.kind.Limit? && price == o.price && side == o.side
           && remaining == Unused(o, life) && remaining > 0 then
          life.(phase := Resting)
        else
          life.Break()
      case DoneLog(_, _, price, remaining, reason, side) =>
        if (life.phase in {Fresh, Taking} || life.phase.Resting?) && side == o.side
           && (o.kind.Limit? ==>
               price == o.price && remaining == Unused(o, life) && (life.phase.Resting? || remaining == 0))
           && (reason.Filled? <==> Unused(o, life) == 0) then
          life.(phase := Ended)
        else
          life.Break()
  }

  function LifeFrom(o: Order, life: Life, logs: seq<Log>): Life
    decreases logs
  {
    if logs == [] then life else LifeFrom(o, Advance(o, life, logs[0]), logs[1..])
  }

  lemma {:induction false} LifeAppend(o: Order, life: Life, a: seq<Log>, b: seq<Log>)
    ensures LifeFrom(o, life, a + b) == LifeFrom(o, LifeFrom(o, life, a), b)
    decreases a
  {
    hide Advance;
    if a == [] {
      assert a + b == b;
    } else {
      assert (a + b)[1..] == a[1..] + b;
      LifeAppend(o, Advance(o, life, a[0]), a[1..], b);
    }
  }

  lemma {:induction false} LifeUnnamed(o: Order, life: Life, logs: seq<Log>)
    requires !LogsName(logs, o.id)
    ensures LifeFrom(o, life, logs) == life
    decreases logs
  {
    if logs != [] {
      assert !logs[0].Names(o.id);
      forall i | 0 <= i < |logs[1..]| ensures !logs[1..][i].Names(o.id) {
        assert !logs[i + 1].Names(o.id);
      }
      LifeUnnamed(o, life, logs[1..]);
    }
  }

  predicate WithinBudget(o: Order, life: Life) {
    && life.matched >= 0 && life.value >= 0 && Unused(o, life) >= 0
    && (o.kind.Limit? && o.side.Buy? ==> life.value <= life.matched * o.price)
  }

  /** The life of an order agrees with the book between commands: it rests with exactly its
      unmatched size, or it does not rest and is either unheard of or ended. */
  predicate Tracked(b: Book, o: Order, life: Life) {
    && WithinBudget(o, life)
    && (life.phase.Fresh? || life.phase.Ended? ==> !RestsIn(b, o.id))
    && (life.phase.Fresh? ==> IsBirth(life))
    && (life.phase.Resting? ==>
          o.kind.Limit? && life.matched < o.size && o.(size := o.size - life.matched) in b.Queue(o.side))
    && !life.phase.Taking? && !life.phase.Broken?
  }

  /** The taker's own matches. */
  lemma {:induction false} TakerLife(o: Order, life: Life, makers: seq<Order>, l: nat, t: nat)
    requires life.phase in {Fresh, Taking} && Positive(makers) && !HasId(makers, o.id)
    requires forall i :: 0 <= i < |makers| ==> makers[i].side == o.side.Opposite() && WithinLimit(o, makers[i].price)
    ensures LifeFrom(o, life, FullFills(o.id, makers, l, t))
            == if makers == [] then life else Life(Taking, life.matched + SizeOf(makers), life.value + CostOf(makers))
    decreases makers
  {
    if makers != [] {
      TailHasId(makers, o.id);
      assert makers[0].id != o.id;
      var m := makers[0];
      var life1 := life.Traded(Taking, m.size, m.price);
      TakerPair(o, life, m, m.size, l, t);
      LifeAppend(o, life, TradeLogs(o.id, m, m.size, l, t), FullFills(o.id, makers[1..], l + 2, t + 1));
      TakerLife(o, life1, makers[1..], l + 2, t + 1);
    }
  }

  lemma TailHasId(q: seq<Order>, id: int)
    requires q != []
    ensures HasId(q[1..], id) ==> HasId(q, id)
  {
    if HasId(q[1..], id) {
      var i :| 0 <= i < |q[1..]| && q[1..][i].id == id;
      assert q[i + 1].id == id;
    }
  }

  lemma LifeOne(o: Order, life: Life, log: Log)
    ensures LifeFrom(o, life, [log]) == Advance(o, life, log)
  {
    hide Advance;
    assert [log][1..] == [];
  }

  lemma LifeTwo(o: Order, life: Life, log1: Log, log2: Log)
    ensures LifeFrom(o, life, [log1, log2]) == Advance(o, Advance(o, life, log1), log2)
  {
    hide Advance;
    assert [log1, log2][1..] == [log2];
    LifeOne(o, Advance(o, life, log1), log2);
  }

  /** The life of any order through the logs of one trade. */
  lemma LifeOfTrade(o: Order, life: Life, takerId: int, m: Order, size: int, l: nat, t: nat)
    ensures var life1 := Advance(o, life, MatchLog(l + 1, t + 1, takerId, m.id, m.side, m.price, size));
            LifeFrom(o, life, TradeLogs(takerId, m, size, l, t))
            == if size == m.size then Advance(o, life1, DoneLog(l + 2, m.id, m.price, 0, Filled, m.side)) else life1
  {
    hide Advance;
    var match1, done := MatchLog(l + 1, t + 1, takerId, m.id, m.side, m.price, size),
        DoneLog(l + 2, m.id, m.price, 0, Filled, m.side);
    if size == m.size {
      assert TradeLogs(takerId, m, size, l, t) == [match1, done];
      LifeTwo(o, life, match1, done);
    } else {
      assert TradeLogs(takerId, m, size, l, t) == [match1];
      LifeOne(o, life, match1);
    }
  }

  lemma TakerPair(o: Order, life: Life, m: Order, size: int, l: nat, t: nat)
    requires life.phase in {Fresh, Taking} && m.id != o.id && size > 0
    requires m.side == o.side.Opposite() && WithinLimit(o, m.price)
    ensures LifeFrom(o, life, TradeLogs(o.id, m, size, l, t)) == life.Traded(Taking, size, m.price)
  {
    LifeOfTrade(o, life, o.id, m, size, l, t);
  }

  /** A maker's match, with its Done log when it is bought out. */
  lemma MakerPair(o: Order, life: Life, takerId: int, m: Order, size: int, l: nat, t: nat)
    requires life.phase.Resting? && o.kind.Limit? && m == o.(size := Unused(o, life)) && 0 < size <= m.size
             && takerId != o.id
    ensures LifeFrom(o, life, TradeLogs(takerId, m, size, l, t))
            == life.Traded(if size == m.size then Ended else Resting, size, o.price)
  {
    LifeOfTrade(o, life, takerId, m, size, l, t);
  }

  lemma OthersPair(o: Order, life: Life, takerId: int, m: Order, size: int, l: nat, t: nat)
    requires takerId != o.id && m.id != o.id
    ensures LifeFrom(o, life, TradeLogs(takerId, m, size, l, t)) == life
  {
    LifeOfTrade(o, life, takerId, m, size, l, t);
  }

  /** A resting order among makers that are bought out. */
  lemma {:induction false} MakerLife(o: Order, life: Life, takerId: int, makers: seq<Order>, l: nat, t: nat)
    requires Positive(makers) && UniqueIds(makers) && takerId != o.id
    requires life.phase.Resting? && o.kind.Limit?
    requires HasId(makers, o.id) ==> o.(size := Unused(o, life)) in makers
    ensures LifeFrom(o, life, FullFills(takerId, makers, l, t))
            == if HasId(makers, o.id) then life.Traded(Ended, Unused(o, life), o.price) else life
    decreases makers
  {
    if makers != [] {
      var m := makers[0];
      LifeAppend(o, life, TradeLogs(takerId, m, m.size, l, t), FullFills(takerId, makers[1..], l + 2, t + 1));
      HeadOrTail(makers, o.id);
      if m.id == o.id {
        assert m == o.(size := Unused(o, life)) by {
          var i :| 0 <= i < |makers| && makers[i] == o.(size := Unused(o, life));
        }
        MakerPair(o, life, takerId, m, m.size, l, t);
        FullFillsUnnamed(o, life.Traded(Ended, m.size, o.price), takerId, makers[1..], l + 2, t + 1);
      } else {
        OthersPair(o, life, takerId, m, m.size, l, t);
        MakerLife(o, life, takerId, makers[1..], l + 2, t + 1);
      }
    }
  }

  lemma HeadOrTail(q: seq<Order>, id: int)
    requires q != [] && UniqueIds(q)
    ensures HasId(q, id) <==> q[0].id == id || HasId(q[1..], id)
    ensures q[0].id == id ==> !HasId(q[1..], id)
    ensures forall o: Order :: o in q && o.id != q[0].id ==> o in q[1..]
  {
    if HasId(q, id) && q[0].id != id {
      var i :| 0 <= i < |q| && q[i].id == id;
      assert q[1..][i - 1].id == id;
    }
    TailHasId(q, id);
    assert forall i :: 0 <= i < |q| - 1 ==> q[1..][i] == q[i + 1];
  }

  lemma {:induction false} FullFillsUnnamed(o: Order, life: Life, takerId: int, makers: seq<Order>, l: nat, t: nat)
    requires takerId != o.id && !HasId(makers, o.id)
    ensures LifeFrom(o, life, FullFills(takerId, makers, l, t)) == life
    decreases makers
  {
    if makers != [] {
      assert makers[0].id != o.id;
      TailHasId(makers, o.id);
      LifeAppend(o, life, TradeLogs(takerId, makers[0], makers[0].size, l, t),
                 FullFills(takerId, makers[1..], l + 2, t + 1));
      OthersPair(o, life, takerId, makers[0], makers[0].size, l, t);
      FullFillsUnnamed(o, life, takerId, makers[1..], l + 2, t + 1);
    }
  }

  lemma FillLogsLife(o: Order, life: Life, takerId: int, makers: seq<Order>, f: Fills, l: nat, t: nat)
    requires f.Fits(makers)
    ensures var life1 := LifeFrom(o, life, FullFills(takerId, makers[..f.full], l, t));
            LifeFrom(o, life, f.Logs(takerId, makers, l, t))
            == if f.part > 0
               then LifeFrom(o, life1, TradeLogs(takerId, makers[f.full], f.part, l + 2 * f.full, t + f.full))
               else life1
  {
    hide Advance, FullFills, TradeLogs;
    var a := FullFills(takerId, makers[..f.full], l, t);
    if f.part > 0 {
      LifeAppend(o, life, a, TradeLogs(takerId, makers[f.full], f.part, l + 2 * f.full, t + f.full));
    } else {
      assert a + [] == a;
    }
  }

  /** The taker's matches are those of its fills. */
  lemma TakerFills(o: Order, life: Life, makers: seq<Order>, f: Fills, l: nat, t: nat)
    requires IsBirth(life) && f.Fits(makers) && Positive(makers) && !HasId(makers, o.id)
    requires forall i :: 0 <= i < f.Touched() ==> makers[i].side == o.side.Opposite() && WithinLimit(o, makers[i].price)
    ensures LifeFrom(o, life, f.Logs(o.id, makers, l, t))
            == Life(if f.Touched() > 0 then Taking else Fresh, f.Size(makers), f.Cost(makers))
  {
    hide Advance, FullFills, TradeLogs, SizeOf, CostOf;
    var head := makers[..f.full];
    assert forall i :: 0 <= i < f.full ==> head[i] == makers[i];
    HeadIds(makers, f.full, o.id);
    TakerLife(o, life, head, l, t);
    FillLogsLife(o, life, o.id, makers, f, l, t);
    if f.full == 0 { NoneFull(o.id, makers, l, t); }
    if f.part > 0 {
      assert makers[f.full].id != o.id;
      TakerPair(o, LifeFrom(o, life, FullFills(o.id, head, l, t)), makers[f.full], f.part, l + 2 * f.full, t + f.full);
    }
  }

  lemma HeadIds(q: seq<Order>, n: nat, id: int)
    requires n <= |q|
    ensures HasId(q[..n], id) ==> HasId(q, id)
  {
    if HasId(q[..n], id) {
      var i :| 0 <= i < |q[..n]| && q[..n][i].id == id;
      assert q[i].id == id;
    }
  }

  lemma {:induction false} CostWithin(makers: seq<Order>, price: int)
    requires Positive(makers) && forall i :: 0 <= i < |makers| ==> 0 <= makers[i].price <= price
    ensures CostOf(makers) <= SizeOf(makers) * price
  {
    if makers != [] {
      CostWithin(makers[1..], price);
      MulNonNegative(makers[0].size, price - makers[0].price);
      assert makers[0].size * (price - makers[0].price) == makers[0].size * price - makers[0].size * makers[0].price;
      assert SizeOf(makers) * price == makers[0].size * price + SizeOf(makers[1..]) * price;
    }
  }

  lemma FillsCostWithin(makers: seq<Order>, f: Fills, price: int)
    requires f.Fits(makers) && Positive(makers)
    requires forall i :: 0 <= i < f.Touched() ==> 0 <= makers[i].price <= price
    ensures f.Cost(makers) <= f.Size(makers) * price
  {
    hide SizeOf, CostOf;
    var head := makers[..f.full];
    assert forall i :: 0 <= i < f.full ==> head[i] == makers[i];
    CostWithin(head, price);
    MulDistributes(SizeOf(head), f.part, price);
    if f.part > 0 { MulMonotone(f.part, makers[f.full].price, price); }
  }

  lemma MulDistributes(a: int, b: int, c: int)
    ensures (a + b) * c == a * c + b * c
  {
  }

  lemma MulMonotone(a: int, b: int, c: int)
    requires a >= 0 && b <= c
    ensures a * b <= a * c
  {
    MulNonNegative(a, c - b);
    assert a * (c - b) == a * c - a * b;
  }

  lemma FillsNonNegative(makers: seq<Order>, f: Fills)
    requires f.Fits(makers) && Positive(makers) && forall i :: 0 <= i < |makers| ==> makers[i].price >= 0
    ensures f.Size(makers) >= 0 && f.Cost(makers) >= 0
  {
    hide SizeOf, CostOf;
    var head := makers[..f.full];
    assert forall i :: 0 <= i < f.full ==> head[i] == makers[i];
    SizeOfPositive(head);
    CostOfAtLeast(head);
    if f.part > 0 { MulNonNegative(f.part, makers[f.full].price); }
  }

  /** What the taker has spent and matched after its fills stays within its order. */
  lemma TakerBudget(p: Product, o: Order, makers: seq<Order>, f: Fills)
    requires PriceTimeFills(Priced(p, o), makers, f) && Positive(makers)
    requires forall i :: 0 <= i < |makers| ==> makers[i].price >= 0
    requires forall i :: 0 <= i < f.Touched() ==> WithinLimit(o, makers[i].price)
    ensures WithinBudget(o, Life(Taking, f.Size(makers), f.Cost(makers)))
  {
    hide Crosses, Stops, Fills.Size, Fills.Cost;
    FillsNonNegative(makers, f);
    if o.kind.Limit? && o.side.Buy? {
      FillsCostWithin(makers, f, o.price);
    }
  }

  /** The closing log opens or ends the taker's life. */
  lemma ClosingLife(o: Order, life: Life, t: Order, l: nat)
    requires life.phase in {Fresh, Taking} && WithinBudget(o, life)
    requires t.id == o.id && t.side == o.side && t.kind == o.kind && (o.kind.Limit? ==> t.price == o.price)
    requires if o.IsMarketBuy() then t.funds == Unused(o, life) else t.size == Unused(o, life)
    ensures LifeFrom(o, life, [ClosingLog(t, l)]) == life.(phase := if Rests(t) then Resting else Ended)
    ensures WithinBudget(o, LifeFrom(o, life, [ClosingLog(t, l)]))
  {
    LifeOne(o, life, ClosingLog(t, l));
  }

  lemma FairFits(taker: Order, makers: seq<Order>, f: Fills)
    requires PriceTimeFills(taker, makers, f)
    ensures f.Fits(makers)
  {
  }

  /** What is left of the taker after its fills. */
  lemma TakerLeft(p: Product, o: Order, makers: seq<Order>, f: Fills)
    requires f.Fits(makers)
    ensures var t := f.TakerAfter(Priced(p, o), makers);
            && t.id == o.id && t.side == o.side && t.kind == o.kind && (o.kind.Limit? ==> t.price == o.price)
            && forall phase {:trigger Life(phase, f.Size(makers), f.Cost(makers))} ::
                 var left := Unused(o, Life(phase, f.Size(makers), f.Cost(makers)));
                 if o.IsMarketBuy() then t.funds == left else t.size == left
  {
    hide Fills.Size, Fills.Cost;
  }

  /** The closing log after the taker's matches. */
  lemma TakerCloses(o: Order, life: Life, life1: Life, t: Order, fills: seq<Log>, l: nat)
    requires life1 == LifeFrom(o, life, fills) && life1.phase in {Fresh, Taking} && WithinBudget(o, life1)
    requires t.id == o.id && t.side == o.side && t.kind == o.kind && (o.kind.Limit? ==> t.price == o.price)
    requires if o.IsMarketBuy() then t.funds == Unused(o, life1) else t.size == Unused(o, life1)
    ensures var life' := LifeFrom(o, life, fills + [ClosingLog(t, l)]);
            WithinBudget(o, life') && life' == life1.(phase := if Rests(t) then Resting else Ended)
  {
    hide Advance, ClosingLog, LifeFrom;
    ClosingLife(o, life1, t, l);
    LifeAppend(o, life, fills, [ClosingLog(t, l)]);
  }

  /** The taker's life through its fills and its closing log. */
  lemma TakerWholeLife(p: Product, o: Order, life: Life, makers: seq<Order>, f: Fills, l: nat, t: nat)
    requires IsBirth(life) && PriceTimeFills(Priced(p, o), makers, f) && !HasId(makers, o.id)
    requires Positive(makers) && forall i :: 0 <= i < |makers| ==>
             makers[i].side == o.side.Opposite() && makers[i].price >= 0
    ensures var taker := f.TakerAfter(Priced(p, o), makers);
            var fills := f.Logs(o.id, makers, l, t);
            var life' := LifeFrom(o, life, fills + [ClosingLog(taker, l + |fills|)]);
            && WithinBudget(o, life') && life'.phase == (if Rests(taker) then Resting else Ended)
            && (o.kind.Limit? ==> life'.matched == f.Size(makers))
  {
    hide PriceTimeFills, Fills.Logs, Fills.Size, Fills.Cost, Fills.TakerAfter, WithinBudget, HasId, LifeFrom,
         ClosingLog, Crosses, WithinLimit, Unused, Priced, Rests;
    FairFits(Priced(p, o), makers, f);
    var life1 := Life(if f.Touched() > 0 then Taking else Fresh, f.Size(makers), f.Cost(makers));
    TouchedWithinLimit(p, o, makers, f);
    TakerFills(o, life, makers, f, l, t);
    TakerBudget(p, o, makers, f);
    BudgetAnyPhase(o, Life(Taking, f.Size(makers), f.Cost(makers)), life1);
    TakerLeft(p, o, makers, f);
    var fills := f.Logs(o.id, makers, l, t);
    TakerCloses(o, life, life1, f.TakerAfter(Priced(p, o), makers), fills, l + |fills|);
  }

  lemma BudgetAnyPhase(o: Order, life1: Life, life2: Life)
    requires WithinBudget(o, life1) && life1.matched == life2.matched && life1.value == life2.value
    ensures WithinBudget(o, life2)
  {
  }

  lemma MakersGood(p: Product, b: Book, side: Side)
    requires GoodInv(p, b)
    ensures Positive(b.Queue(side))
    ensures forall i :: 0 <= i < |b.Queue(side)| ==> b.Queue(side)[i].side == side && b.Queue(side)[i].price >= 0
  {
  }

  lemma TouchedWithinLimit(p: Product, o: Order, makers: seq<Order>, f: Fills)
    requires PriceTimeFills(Priced(p, o), makers, f)
    ensures forall i :: 0 <= i < f.Touched() ==> WithinLimit(o, makers[i].price)
  {
    hide Stops, SizeOf, CostOf;
    forall i | 0 <= i < f.Touched() ensures WithinLimit(o, makers[i].price) {
      assert Crosses(Priced(p, o), makers[i]);
    }
  }

  /** An accepted order is born, trades, and comes to rest or to its end. */
  lemma TakerTracked(p: Product, b: Book, o: Order, life: Life)
    requires GoodInv(p, b) && Admissible(b, Submit(o)) && GoodOrder(p, o) && b.window.Accepts(o.id) && IsBirth(life)
    ensures ApplyOrder(p, b, o).Next?
    ensures Tracked(ApplyOrder(p, b, o).book, o, LifeFrom(o, life, ApplyOrder(p, b, o).logs))
  {
    hide ApplyOrder, Advance, WithinBudget, PriceTimeFills, Fills.Logs, Fills.Size, Fills.Cost, Fills.Remaining,
         GoodInv, Fills.TakerAfter, LifeFrom, ClosingLog, Insert, Priced, GoodOrder, Positive, HasId;
    var makers := b.Queue(o.side.Opposite());
    var f := ApplyEffect(p, b, o);
    MakersGood(p, b, o.side.Opposite());
    NotAcrossRests(b, o.id, o.side.Opposite());
    TakerWholeLife(p, o, life, makers, f, b.logSeq, b.tradeSeq);
    TakerPlace(p, b, o, f, ApplyOrder(p, b, o).book);
  }

  lemma NotAcrossRests(b: Book, id: int, side: Side)
    requires !RestsIn(b, id)
    ensures !HasId(b.Queue(side), id)
  {
  }

  /** Where the taker is after its application. */
  lemma TakerPlace(p: Product, b: Book, o: Order, f: Fills, b': Book)
    requires GoodInv(p, b) && Admissible(b, Submit(o)) && GoodOrder(p, o)
             && PriceTimeFills(Priced(p, o), b.Queue(o.side.Opposite()), f)
    requires b'.Queue(o.side.Opposite()) == f.Remaining(b.Queue(o.side.Opposite()))
    requires var t := f.TakerAfter(Priced(p, o), b.Queue(o.side.Opposite()));
             b'.Queue(o.side) == if Rests(t) then Insert(o.side, b.Queue(o.side), t) else b.Queue(o.side)
    ensures var t := f.TakerAfter(Priced(p, o), b.Queue(o.side.Opposite()));
            if Rests(t) then t in b'.Queue(o.side) && t == o.(size := o.size - f.Size(b.Queue(o.side.Opposite())))
            else !RestsIn(b', o.id)
  {
    var makers := b.Queue(o.side.Opposite());
    var t := f.TakerAfter(Priced(p, o), makers);
    RemainingInv(o.side.Opposite(), makers, f);
    ThinnedIds(makers, f.Remaining(makers));
    if Rests(t) {
      var k := InsertInv(o.side, b.Queue(o.side), t);
      assert Insert(o.side, b.Queue(o.side), t)[k] == t;
    }
  }

  /** A resting order's life through the fills of another taker: ended if it is bought out, less
      the part taken if it is hit last, unchanged otherwise. */
  lemma MakerFills(o: Order, life: Life, takerId: int, makers: seq<Order>, f: Fills, k: nat, l: nat, t: nat)
    requires f.Fits(makers) && Positive(makers) && UniqueIds(makers) && takerId != o.id
    requires life.phase.Resting? && o.kind.Limit?
    requires k < |makers| && makers[k] == o.(size := Unused(o, life))
    ensures LifeFrom(o, life, f.Logs(takerId, makers, l, t))
            == if k < f.full then life.Traded(Ended, makers[k].size, o.price)
               else if k == f.full && f.part > 0 then life.Traded(Resting, f.part, o.price)
               else life
  {
    hide Advance, FullFills, TradeLogs, Fills.Logs;
    var head := makers[..f.full];
    assert forall i :: 0 <= i < f.full ==> head[i] == makers[i];
    if k < f.full { assert head[k] == makers[k]; }
    assert HasId(head, o.id) <==> k < f.full by {
      if HasId(head, o.id) { var i :| 0 <= i < |head| && head[i].id == o.id; assert makers[i].id == makers[k].id; }
    }
    MakerLife(o, life, takerId, head, l, t);
    FillLogsLife(o, life, takerId, makers, f, l, t);
    if f.part > 0 {
      var life1 := LifeFrom(o, life, FullFills(takerId, head, l, t));
      if k == f.full {
        MakerPair(o, life1, takerId, makers[k], f.part, l + 2 * f.full, t + f.full);
      } else {
        assert makers[f.full].id != o.id;
        OthersPair(o, life1, takerId, makers[f.full], f.part, l + 2 * f.full, t + f.full);
      }
    }
  }

  lemma TradedBudget(o: Order, life: Life, phase: Phase, size: int)
    requires WithinBudget(o, life) && o.kind.Limit? && 0 <= size <= Unused(o, life) && o.price >= 0
    ensures WithinBudget(o, life.Traded(phase, size, o.price))
  {
    MulDistributes(life.matched, size, o.price);
    MulNonNegative(size, o.price);
  }

  /** The life of a maker through the logs of another order's application. */
  lemma MakerLogs(o: Order, life: Life, takerId: int, makers: seq<Order>, f: Fills, k: nat, l: nat, t: nat,
                  closing: Log)
    requires f.Fits(makers) && Positive(makers) && UniqueIds(makers) && takerId != o.id && o.price >= 0
    requires life.phase.Resting? && o.kind.Limit? && WithinBudget(o, life) && !closing.Names(o.id)
    requires k < |makers| && makers[k] == o.(size := Unused(o, life))
    ensures var life' := LifeFrom(o, life, f.Logs(takerId, makers, l, t) + [closing]);
            && WithinBudget(o, life')
            && life'.matched
               == life.matched + (if k < f.full then makers[k].size else if k == f.full then f.part else 0)
            && life'.phase == if k < f.full then Ended else Resting
  {
    hide Advance, Fills.Logs, WithinBudget;
    var fills := f.Logs(takerId, makers, l, t);
    MakerFills(o, life, takerId, makers, f, k, l, t);
    LifeAppend(o, life, fills, [closing]);
    LifeUnnamed(o, LifeFrom(o, life, fills), [closing]);
    assert makers[k].size > 0;
    var taken := if k < f.full then makers[k].size else if k == f.full then f.part else 0;
    if taken > 0 {
      TradedBudget(o, life, if k < f.full then Ended else Resting, taken);
    }
  }

  /** A resting order met by a taker from the other side stays tracked. */
  lemma MakerTracked(p: Product, b: Book, taker: Order, o: Order, life: Life)
    requires GoodInv(p, b) && Admissible(b, Submit(taker)) && GoodOrder(p, taker) && b.window.Accepts(taker.id)
    requires Tracked(b, o, life) && life.phase.Resting? && taker.id != o.id && o.side == taker.side.Opposite()
    ensures ApplyOrder(p, b, taker).Next?
    ensures Tracked(ApplyOrder(p, b, taker).book, o, LifeFrom(o, life, ApplyOrder(p, b, taker).logs))
  {
    hide ApplyOrder, Advance, PriceTimeFills, Fills.Logs, Fills.Size, Fills.Cost, GoodInv, WithinBudget, ClosingLog,
         Fills.Remaining, Fills.TakerAfter, LifeFrom, QueueInv, Insert, Priced, GoodOrder, HasId, DisjointIds,
         UniqueIds, Positive;
    var makers := b.Queue(o.side);
    var f := ApplyEffect(p, b, taker);
    FairFits(Priced(p, taker), makers, f);
    MakersGood(p, b, o.side);
    QueueIsInv(p, b, o.side);
    var fills := f.Logs(taker.id, makers, b.logSeq, b.tradeSeq);
    var t := f.TakerAfter(Priced(p, taker), makers);
    var closing := ClosingLog(t, b.logSeq + |fills|);
    TakerLeft(p, taker, makers, f);
    assert !closing.Names(o.id) by { ClosingNames(t, b.logSeq + |fills|); }
    var k :| 0 <= k < |makers| && makers[k] == o.(size := Unused(o, life));
    QueueUnique(o.side, makers);
    MakerLogs(o, life, taker.id, makers, f, k, b.logSeq, b.tradeSeq, closing);
    MakerPlace(o.side, makers, f, k);
    var b' := ApplyOrder(p, b, taker).book;
    if k < f.full {
      OtherSideHasNot(p, b, o.side, k);
      NotInEither(p, b, taker, f, b', o.id);
    }
  }

  lemma ClosingNames(t: Order, l: nat)
    ensures forall id :: ClosingLog(t, l).Names(id) <==> id == t.id
  {
  }

  lemma QueueUnique(side: Side, q: seq<Order>)
    requires QueueInv(side, q)
    ensures UniqueIds(q)
  {
  }

  lemma QueueIsInv(p: Product, b: Book, side: Side)
    requires GoodInv(p, b)
    ensures QueueInv(side, b.Queue(side)) && DisjointIds(b.Queue(side), b.Queue(side.Opposite()))
  {
  }

  lemma OtherSideHasNot(p: Product, b: Book, side: Side, k: nat)
    requires GoodInv(p, b) && k < |b.Queue(side)|
    ensures !HasId(b.Queue(side.Opposite()), b.Queue(side)[k].id)
  {
  }

  /** Where a maker is after the fills. */
  lemma MakerPlace(side: Side, makers: seq<Order>, f: Fills, k: nat)
    requires QueueInv(side, makers) && f.Fits(makers) && k < |makers|
    ensures k < f.full ==> !HasId(f.Remaining(makers), makers[k].id)
    ensures k == f.full && f.part > 0 ==> makers[k].(size := makers[k].size - f.part) in f.Remaining(makers)
    ensures k > f.full || (k == f.full && f.part == 0) ==> makers[k] in f.Remaining(makers)
  {
    RemainingInv(side, makers, f);
    var r := f.Remaining(makers);
    if k >= f.full {
      assert r[k - f.full].size == makers[k].size - (if k == f.full then f.part else 0);
      assert r[k - f.full] in r;
    } else {
      forall i | 0 <= i < |r| ensures r[i].id != makers[k].id {
        assert makers[f.full + i].id != makers[k].id;
      }
    }
  }

  lemma NotInEither(p: Product, b: Book, taker: Order, f: Fills, b': Book, id: int)
    requires GoodInv(p, b) && Admissible(b, Submit(taker)) && GoodOrder(p, taker) && id != taker.id
    requires f.Fits(b.Queue(taker.side.Opposite()))
    requires b'.Queue(taker.side.Opposite()) == f.Remaining(b.Queue(taker.side.Opposite()))
    requires var t := f.TakerAfter(Priced(p, taker), b.Queue(taker.side.Opposite()));
             b'.Queue(taker.side) == if Rests(t) then Insert(taker.side, b.Queue(taker.side), t)
                 else b.Queue(taker.side)
    requires !HasId(b'.Queue(taker.side.Opposite()), id) && !HasId(b.Queue(taker.side), id)
    ensures !RestsIn(b', id)
  {
    var t := f.TakerAfter(Priced(p, taker), b.Queue(taker.side.Opposite()));
    if Rests(t) {
      var k := InsertInv(taker.side, b.Queue(taker.side), t);
      InsertedElements(b.Queue(taker.side), k, t, Insert(taker.side, b.Queue(taker.side), t));
    }
  }

  /** An order resting on the taker's own side is not touched. */
  lemma OwnSideTracked(p: Product, b: Book, taker: Order, o: Order, life: Life)
    requires GoodInv(p, b) && Admissible(b, Submit(taker)) && GoodOrder(p, taker) && b.window.Accepts(taker.id)
    requires Tracked(b, o, life) && life.phase.Resting? && taker.id != o.id && o.side == taker.side
    ensures ApplyOrder(p, b, taker).Next?
    ensures Tracked(ApplyOrder(p, b, taker).book, o, LifeFrom(o, life, ApplyOrder(p, b, taker).logs))
  {
    hide ApplyOrder, Advance, PriceTimeFills, Fills.Logs, Fills.Size, Fills.Cost, Fills.Remaining, Fills.TakerAfter,
         GoodInv, WithinBudget, QueueInv, LifeFrom, Insert, Priced, GoodOrder;
    var f := ApplyEffect(p, b, taker);
    FairFits(Priced(p, taker), b.Queue(taker.side.Opposite()), f);
    var own := b.Queue(o.side);
    QueueIsInv(p, b, o.side);
    var k :| 0 <= k < |own| && own[k] == o.(size := Unused(o, life));
    OtherSideHasNot(p, b, o.side, k);
    ApplyUnnamed(p, b, taker, o.id);
    LifeUnnamed(o, life, ApplyOrder(p, b, taker).logs);
    var t := f.TakerAfter(Priced(p, taker), b.Queue(taker.side.Opposite()));
    TakerLeft(p, taker, b.Queue(taker.side.Opposite()), f);
    if Rests(t) {
      assert !HasId(own, taker.id);
      var j := InsertInv(o.side, own, t);
      InsertedElements(own, j, t, Insert(o.side, own, t));
    }
  }

  /** A taker's logs name nothing of its own side but itself. */
  lemma ApplyUnnamed(p: Product, b: Book, taker: Order, id: int)
    requires b.window.Valid() && ApplyOrder(p, b, taker).Next? && b.window.Accepts(taker.id)
    requires id != taker.id && !HasId(b.Queue(taker.side.Opposite()), id)
    ensures !LogsName(ApplyOrder(p, b, taker).logs, id)
  {
    hide Sweep;
    var r := Sweep(p, Priced(p, taker), b.Queue(taker.side.Opposite()), b.logSeq, b.tradeSeq);
    SweepKeepsTaker(p, Priced(p, taker), b.Queue(taker.side.Opposite()), b.logSeq, b.tradeSeq);
    LogsNameAppend(r.logs, [ClosingLog(r.taker, b.logSeq + |r.logs|)], id);
    if LogsName(r.logs, id) {
      SweepNames(p, Priced(p, taker), b.Queue(taker.side.Opposite()), b.logSeq, b.tradeSeq, id);
    }
  }

  /** An order that does not rest is not heard of until it is submitted. */
  lemma AbsentTracked(p: Product, b: Book, c: Command, o: Order, life: Life)
    requires GoodInv(p, b) && Admissible(b, c) && GoodCommand(p, c) && Tracked(b, o, life)
             && (life.phase.Fresh? || life.phase.Ended?)
    requires c.Submit? && c.order.id == o.id ==> !b.window.Accepts(o.id)
    ensures Execute(p, b, c).Next? && Tracked(Execute(p, b, c).book, o, LifeFrom(o, life, Execute(p, b, c).logs))
  {
    hide Execute, Advance, WithinBudget;
    ExecuteKeepsGood(p, b, c);
    ExecuteOrigins(p, b, c);
    if LogsName(Execute(p, b, c).logs, o.id) { ExecuteNames(p, b, c, o.id); }
    LifeUnnamed(o, life, Execute(p, b, c).logs);
  }

  /** A cancellation ends the order it finds and leaves every other where it was. */
  lemma CancelTracked(p: Product, b: Book, x: Order, o: Order, life: Life)
    requires GoodInv(p, b) && Tracked(b, o, life) && life.phase.Resting?
    ensures CancelOrder(b, x).Next? && Tracked(CancelOrder(b, x).book, o, LifeFrom(o, life, CancelOrder(b, x).logs))
  {
    hide WithinBudget;
    var q := b.Queue(x.side);
    var k := Find(q, x.id);
    var resting := o.(size := Unused(o, life));
    if k < |q| {
      var log := DoneLog(b.logSeq + 1, q[k].id, q[k].price, q[k].size, Cancelled, q[k].side);
      LifeOne(o, life, log);
      BudgetAnyPhase(o, life, life.(phase := Ended));
      CancelPlace(p, b, x, resting);
    }
  }

  lemma CancelPlace(p: Product, b: Book, x: Order, r: Order)
    requires GoodInv(p, b) && r in b.Queue(r.side) && Find(b.Queue(x.side), x.id) < |b.Queue(x.side)|
    ensures var k := Find(b.Queue(x.side), x.id);
            var b' := CancelOrder(b, x).book;
            if b.Queue(x.side)[k].id == r.id then b.Queue(x.side)[k] == r && !RestsIn(b', r.id)
            else r in b'.Queue(r.side)
  {
    var q := b.Queue(x.side);
    var k := Find(q, x.id);
    var i :| 0 <= i < |b.Queue(r.side)| && b.Queue(r.side)[i] == r;
    RemovedAtSlices(q, k);
    if q[k].id == r.id {
      assert r.side == x.side && i == k;
      RemovedHasNot(q, k, Without(q, k));
      OtherSideHasNot(p, b, x.side, k);
    } else if r.side == x.side {
      assert Without(q, k)[if i < k then i else i - 1] == r;
    }
  }

  lemma RemovedHasNot(q: seq<Order>, k: nat, r: seq<Order>)
    requires UniqueIds(q) && RemovedAt(r, q, k)
    ensures !HasId(r, q[k].id)
  {
    forall i | 0 <= i < |r| ensures r[i].id != q[k].id {
      assert r[i] == q[if i < k then i else i + 1];
    }
  }

  /** Every command keeps every order tracked. */
  lemma StepTracked(p: Product, b: Book, c: Command, o: Order, life: Life)
    requires GoodInv(p, b) && Admissible(b, c) && GoodCommand(p, c) && Tracked(b, o, life)
    requires c.Submit? && c.order.id == o.id ==> c.order == o && IsBirth(life)
    ensures Execute(p, b, c).Next? && Tracked(Execute(p, b, c).book, o, LifeFrom(o, life, Execute(p, b, c).logs))
  {
    hide Advance, Sweep, WithinBudget;
    if !life.phase.Resting? && !(c.Submit? && c.order.id == o.id && b.window.Accepts(o.id)) {
      AbsentTracked(p, b, c, o, life);
    } else if c.Cancel? {
      CancelTracked(p, b, c.order, o, life);
    } else if !b.window.Accepts(c.order.id) {
    } else if c.order.id == o.id {
      TakerTracked(p, b, o, life);
    } else if c.order.side == o.side {
      OwnSideTracked(p, b, c.order, o, life);
    } else {
      MakerTracked(p, b, c.order, o, life);
    }
  }

  /** Over any run with unique ids, every order is tracked: its logs form a life, and the book
      holds exactly its unmatched size while it rests. */
  lemma {:induction false} RunTracked(p: Product, cmds: seq<Command>, i: nat, n: nat, birth: Life)
    requires GoodRun(p, cmds) && i < |cmds| && cmds[i].Submit? && n <= |cmds| && IsBirth(birth)
    ensures var r := Run(p, cmds[..n]);
            r.Next? && Tracked(r.book, cmds[i].order, LifeFrom(cmds[i].order, birth, r.logs))
            && (n <= i ==> LifeFrom(cmds[i].order, birth, r.logs) == birth)
  {
    hide Run, Replay, Execute, UniqueRun, GoodCommand, Tracked, GoodInv, Advance;
    var o := cmds[i].order;
    GoodRunSurvives(p, cmds, n);
    if n <= i {
      NotSubmittedEarlier(cmds, n, i);
      NotNamedBefore(p, cmds, n, o.id);
      LifeUnnamed(o, birth, Run(p, cmds[..n]).logs);
    }
    if n == 0 {
      RunNothing(p, cmds[..n]);
      SubmittedGood(p, cmds, i);
      TrackedAtStart(p, o, birth);
    } else {
      RunTracked(p, cmds, i, n - 1, birth);
      GoodRunSurvives(p, cmds, n - 1);
      var before := Run(p, cmds[..n - 1]);
      NextIsGood(p, cmds, n - 1);
      RunLast(p, cmds, n - 1);
      if cmds[n - 1].Submit? && cmds[n - 1].order.id == o.id { SameIdSameOrder(cmds, i, n - 1); }
      StepTracked(p, before.book, cmds[n - 1], o, LifeFrom(o, birth, before.logs));
      LifeAppend(o, birth, before.logs, Execute(p, before.book, cmds[n - 1]).logs);
    }
  }

  lemma TrackedAtStart(p: Product, o: Order, birth: Life)
    requires IsBirth(birth) && GoodOrder(p, o)
    ensures Tracked(NewBook(), o, LifeFrom(o, birth, []))
  {
    EmptyBook();
  }

  lemma SubmittedGood(p: Product, cmds: seq<Command>, i: nat)
    requires GoodRun(p, cmds) && i < |cmds| && cmds[i].Submit?
    ensures GoodOrder(p, cmds[i].order)
  {
  }

  lemma NextIsGood(p: Product, cmds: seq<Command>, n: nat)
    requires GoodRun(p, cmds) && n < |cmds| && Run(p, cmds[..n]).Next?
    ensures Admissible(Run(p, cmds[..n]).book, cmds[n]) && GoodCommand(p, cmds[n])
  {
    hide Run, Inv;
    NextAdmissible(p, cmds, n);
  }

  lemma {:induction false} StaysBroken(o: Order, life: Life, logs: seq<Log>)
    requires life.phase.Broken?
    ensures LifeFrom(o, life, logs).phase.Broken?
    decreases logs
  {
    if logs != [] { StaysBroken(o, Advance(o, life, logs[0]), logs[1..]); }
  }

  /** A life adds up the order's trades. */
  lemma {:induction false} LifeAddsUp(o: Order, life: Life, logs: seq<Log>)
    requires !LifeFrom(o, life, logs).phase.Broken?
    ensures LifeFrom(o, life, logs).matched == life.matched + MatchedSize(logs, o.id)
    ensures LifeFrom(o, life, logs).value == life.value + MatchedValue(logs, o.id)
    decreases logs
  {
    if logs != [] {
      var life1 := Advance(o, life, logs[0]);
      if life1.phase.Broken? { StaysBroken(o, life1, logs[1..]); }
      LifeAddsUp(o, life1, logs[1..]);
    }
  }

  lemma LifePrefix(o: Order, life: Life, logs: seq<Log>, k: nat)
    requires k < |logs| && !LifeFrom(o, life, logs).phase.Broken?
    ensures !LifeFrom(o, life, logs[..k]).phase.Broken?
    ensures !Advance(o, LifeFrom(o, life, logs[..k]), logs[k]).phase.Broken?
    ensures LifeFrom(o, Advance(o, LifeFrom(o, life, logs[..k]), logs[k]), logs[k + 1..]) == LifeFrom(o, life, logs)
  {
    hide Advance;
    assert logs == logs[..k] + logs[k..] && logs[k..][1..] == logs[k + 1..];
    LifeAppend(o, life, logs[..k], logs[k..]);
    if LifeFrom(o, life, logs[..k]).phase.Broken? { StaysBroken(o, LifeFrom(o, life, logs[..k]), logs[k..]); }
    var life1 := Advance(o, LifeFrom(o, life, logs[..k]), logs[k]);
    if life1.phase.Broken? { StaysBroken(o, life1, logs[k + 1..]); }
  }

  lemma {:induction false} NothingAfterEnd(o: Order, life: Life, logs: seq<Log>)
    requires life.phase.Ended? && !LifeFrom(o, life, logs).phase.Broken?
    ensures !LogsName(logs, o.id)
    decreases logs
  {
    if logs != [] {
      if logs[0].Names(o.id) { StaysBroken(o, Advance(o, life, logs[0]), logs[1..]); }
      NothingAfterEnd(o, life, logs[1..]);
      assert logs == [logs[0]] + logs[1..];
      LogsNameAppend([logs[0]], logs[1..], o.id);
    }
  }

  /** The account the logs of a run give of one limit order: whatever opens or ends it does so for
      exactly what its trades left of its size, nothing mentions it after its end, it ends as
      filled exactly when nothing is left, and what still rests of it is what its trades left. */
  lemma OrderAccount(p: Product, cmds: seq<Command>, i: nat)
    requires GoodRun(p, cmds) && i < |cmds| && cmds[i].Submit?
    ensures Run(p, cmds).Next?
    ensures var o, logs := cmds[i].order, Run(p, cmds).logs;
            o.kind.Limit? ==> forall k :: 0 <= k < |logs| && !logs[k].MatchLog? && logs[k].Names(o.id) ==>
              logs[k].remaining == o.size - MatchedSize(logs[..k], o.id)
    ensures var o, logs := cmds[i].order, Run(p, cmds).logs;
            forall k :: 0 <= k < |logs| && logs[k].DoneLog? && logs[k].Names(o.id) ==>
              && !LogsName(logs[k + 1..], o.id)
              && (logs[k].reason.Filled?
                  <==> if o.IsMarketBuy() then MatchedValue(logs, o.id) == o.funds
                       else MatchedSize(logs, o.id) == o.size)
    ensures var o, b, logs := cmds[i].order, Run(p, cmds).book, Run(p, cmds).logs;
            RestsIn(b, o.id) ==>
              MatchedSize(logs, o.id) < o.size && o.(size := o.size - MatchedSize(logs, o.id)) in b.Queue(o.side)
    ensures var o, logs := cmds[i].order, Run(p, cmds).logs;
            if o.IsMarketBuy() then MatchedValue(logs, o.id) <= o.funds
            else MatchedSize(logs, o.id) <= o.size
                 && (o.kind.Limit? && o.side.Buy? ==> MatchedValue(logs, o.id) <= MatchedSize(logs, o.id) * o.price)
  {
    hide Run, Replay, GoodRun, LogsName, MatchedSize, MatchedValue;
    var birth := Life(Fresh, 0, 0);
    RunTracked(p, cmds, i, |cmds|, birth);
    assert cmds[..|cmds|] == cmds;
    var o, logs := cmds[i].order, Run(p, cmds).logs;
    LifeAddsUp(o, birth, logs);
    forall k | 0 <= k < |logs| && logs[k].Names(o.id)
      ensures o.kind.Limit? && !logs[k].MatchLog? ==> logs[k].remaining == o.size - MatchedSize(logs[..k], o.id)
      ensures logs[k].DoneLog? ==>
        && !LogsName(logs[k + 1..], o.id)
        && (logs[k].reason.Filled?
            <==> if o.IsMarketBuy() then MatchedValue(logs, o.id) == o.funds else MatchedSize(logs, o.id) == o.size)
    {
      LifePrefix(o, birth, logs, k);
      LifeAddsUp(o, birth, logs[..k]);
      if logs[k].DoneLog? {
        var ended := Advance(o, LifeFrom(o, birth, logs[..k]), logs[k]);
        NothingAfterEnd(o, ended, logs[k + 1..]);
        LifeUnnamed(o, ended, logs[k + 1..]);
      }
    }
  }
}
