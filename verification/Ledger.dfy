/** What every transaction on the tables keeps, whatever the orders and balances: holds cover exactly
    what orders tie up, and no money appears or vanishes. */
module Ledger {
  import opened Market
  import opened Decimals
  import opened Sums
  import opened Settlement
  import opened FillMaking

  // What the sums below add up.

  function BillHold(owner: Owner): Bill -> int { (b: Bill) => if !b.settled && b.owner == owner then b.hold else 0 }

  function BillMoney(c: Currency): Bill -> int {
    (b: Bill) => if !b.settled && b.owner.currency == c then b.available + b.hold else 0
  }

  /** What an order ties up: all that is unspent while it lives, and after its end what it spent too
      much, as the end releases nothing then. */
  function Tied(r: Row): int { if r.Live() then r.Unspent() else Min(r.Unspent(), 0) }

  function RowHold(owner: Owner): Row -> int { (r: Row) => if r.Holder() == owner then Tied(r) else 0 }

  /** What settling a fill will do to the money in a currency. */
  function Effect(c: Currency): Fill -> int {
    (f: Fill) => if f.settled || f.done then 0 else Exchanged(f, c)
  }

  function Exchanged(f: Fill, c: Currency): int {
    if f.side.Sell? then (if c.Base? then f.size else -(f.size * f.price))
    else (if c.Base? then -f.size else f.size * f.price)
  }

  function SettledSize(id: int): Fill -> int {
    (f: Fill) => if f.settled && !f.done && f.orderId == id then f.size else 0
  }

  function SettledValue(id: int): Fill -> int {
    (f: Fill) => if f.settled && !f.done && f.orderId == id then f.size * f.price else 0
  }

  function AccountMoney(accounts: map<Owner, Account>, c: Currency): map<Owner, int> {
    map o | o in accounts && o.currency == c :: accounts[o].available + accounts[o].hold
  }

  function HoldIn(accounts: map<Owner, Account>, owner: Owner): int {
    if owner in accounts then accounts[owner].hold else 0
  }

  /** All the money in a currency: balances, bills still to be paid, and fills still to be settled. */
  ghost function Money(db: Db, c: Currency): int {
    Total(AccountMoney(db.accounts, c)) + Sum(db.bills, BillMoney(c)) + Sum(db.fills, Effect(c))
  }

  predicate RowsNumbered(rows: seq<Row>) { forall i :: 0 <= i < |rows| ==> rows[i].order.id == i + 1 }

  /** A fill of an order in the table, from the other side if it is a trade. */
  predicate Fits(rows: seq<Row>, f: Fill) {
    1 <= f.orderId <= |rows| && (!f.done ==> f.side == rows[f.orderId - 1].order.side.Opposite())
  }

  predicate FillsFit(rows: seq<Row>, fills: seq<Fill>) { forall k :: 0 <= k < |fills| ==> Fits(rows, fills[k]) }

  /** Each order has booked exactly its settled fills. */
  predicate RowsBooked(rows: seq<Row>, fills: seq<Fill>) {
    forall i :: 0 <= i < |rows| ==>
      rows[i].filledSize == Sum(fills, SettledSize(i + 1)) && rows[i].executedValue == Sum(fills, SettledValue(i + 1))
  }

  /** For every owner: the hold of the account and of the bills still to be paid is what the owner's
      orders tie up. */
  ghost predicate HoldsAgree(db: Db) {
    forall owner :: HoldIn(db.accounts, owner) + Sum(db.bills, BillHold(owner)) == Sum(db.orders, RowHold(owner))
  }

  ghost predicate Sound(db: Db) {
    RowsNumbered(db.orders) && FillsFit(db.orders, db.fills) && RowsBooked(db.orders, db.fills) && HoldsAgree(db)
  }

  lemma HoldOf(db: Db, owner: Owner)
    requires Sound(db)
    ensures HoldIn(db.accounts, owner) + Sum(db.bills, BillHold(owner)) == Sum(db.orders, RowHold(owner))
  {
  }

  // Settling one fill.

  lemma BillsForHold(row: Row, f: Fill, owner: Owner)
    requires row.Live()
    ensures Sum(BillsFor(row, f), BillHold(owner)) == RowHold(owner)(RowAfter(row, f)) - RowHold(owner)(row)
  {
    var bs := BillsFor(row, f);
    SumTwo(bs, BillHold(owner));
  }

  lemma BillsForMoney(row: Row, f: Fill, c: Currency)
    requires !f.settled && (!f.done ==> f.side == row.order.side.Opposite())
    ensures Sum(BillsFor(row, f), BillMoney(c)) == Effect(c)(f)
  {
    var bs := BillsFor(row, f);
    SumTwo(bs, BillMoney(c));
  }

  lemma SumTwo<T>(s: seq<T>, f: T -> int)
    requires |s| <= 2
    ensures Sum(s, f) == (if |s| > 0 then f(s[0]) else 0) + (if |s| > 1 then f(s[1]) else 0)
  {
    if |s| == 2 {
      assert s == [s[0]] + [s[1]];
      SumPair(s[0], s[1], f);
    } else if |s| == 1 {
      assert s == [s[0]];
      SumOne(s[0], f);
    }
  }

  lemma SettleKeepsHolds(db: Db, k: nat)
    requires Sound(db) && k < |db.fills| && db.HasOrder(db.fills[k].orderId)
             && db.orders[db.fills[k].orderId - 1].Live()
    ensures HoldsAgree(SettleFill(db, k))
  {
    hide RowAfter, BillsFor, BillHold, RowHold, RowsBooked, FillsFit, RowsNumbered, HoldIn;
    var f, i := db.fills[k], db.fills[k].orderId - 1;
    var row, db' := db.orders[i], SettleFill(db, k);
    forall owner
      ensures HoldIn(db'.accounts, owner) + Sum(db'.bills, BillHold(owner)) == Sum(db'.orders, RowHold(owner))
    {
      assert HoldIn(db.accounts, owner) + Sum(db.bills, BillHold(owner)) == Sum(db.orders, RowHold(owner));
      BillsForHold(row, f, owner);
      SumAppend(db.bills, BillsFor(row, f), BillHold(owner));
      SumUpdate(db.orders, i, RowAfter(row, f), RowHold(owner));
    }
  }

  lemma SettleKeepsMoney(db: Db, k: nat, c: Currency)
    requires k < |db.fills| && Fits(db.orders, db.fills[k]) && !db.fills[k].settled
    ensures Money(SettleFill(db, k), c) == Money(db, c)
  {
    hide RowAfter, BillsFor, BillMoney, AccountMoney;
    var f, row := db.fills[k], db.orders[db.fills[k].orderId - 1];
    BillsForMoney(row, f, c);
    SumAppend(db.bills, BillsFor(row, f), BillMoney(c));
    SumUpdate(db.fills, k, f.(settled := true), Effect(c));
  }

  lemma SettleKeepsBooks(db: Db, k: nat)
    requires Sound(db) && k < |db.fills| && !db.fills[k].settled && db.HasOrder(db.fills[k].orderId)
    ensures RowsBooked(SettleFill(db, k).orders, SettleFill(db, k).fills)
  {
    hide HoldsAgree, FillsFit, RowsNumbered, BillsFor;
    var f, db' := db.fills[k], SettleFill(db, k);
    forall i | 0 <= i < |db.orders|
      ensures db'.orders[i].filledSize == Sum(db'.fills, SettledSize(i + 1))
      ensures db'.orders[i].executedValue == Sum(db'.fills, SettledValue(i + 1))
    {
      SumUpdate(db.fills, k, f.(settled := true), SettledSize(i + 1));
      SumUpdate(db.fills, k, f.(settled := true), SettledValue(i + 1));
    }
  }

  /** The same orders by the same users, and the same fills but for what is settled. */
  predicate SameTrades(db: Db, db': Db) {
    && |db'.orders| == |db.orders| && |db'.fills| == |db.fills|
    && (forall i :: 0 <= i < |db.orders| ==>
        db'.orders[i].order == db.orders[i].order && db'.orders[i].user == db.orders[i].user)
    && (forall k :: 0 <= k < |db.fills| ==> db'.fills[k] == db.fills[k].(settled := db'.fills[k].settled))
  }

  lemma SettleKeepsRest(db: Db, k: nat)
    requires Sound(db) && k < |db.fills| && !db.fills[k].settled && db.HasOrder(db.fills[k].orderId)
    ensures var db' := SettleFill(db, k);
            SameTrades(db, db') && RowsNumbered(db'.orders) && FillsFit(db'.orders, db'.fills)
  {
    hide HoldsAgree, RowsBooked;
    var f, i := db.fills[k], db.fills[k].orderId - 1;
    var db' := SettleFill(db, k);
    assert SameTrades(db, db');
    assert Fits(db.orders, f);
    assert forall j :: 0 <= j < |db.fills| ==> Fits(db.orders, db.fills[j]) && Fits(db'.orders, db'.fills[j]);
  }

  /** Settling a fill of a live order keeps the tables sound and the money what it was. */
  lemma SettleFillKeeps(db: Db, k: nat)
    requires Sound(db) && k < |db.fills| && !db.fills[k].settled && db.HasOrder(db.fills[k].orderId)
    requires db.orders[db.fills[k].orderId - 1].Live()
    ensures var db' := SettleFill(db, k); Sound(db') && SameTrades(db, db') && forall c :: Money(db', c) == Money(db, c)
  {
    hide RowAfter, BillsFor, RowsNumbered, RowsBooked, HoldsAgree, Money, SettleFill, SameTrades;
    SettleKeepsHolds(db, k);
    SettleKeepsBooks(db, k);
    SettleKeepsRest(db, k);
    forall c ensures Money(SettleFill(db, k), c) == Money(db, c) { SettleKeepsMoney(db, k, c); }
  }

  predicate Ascending(ks: seq<nat>) { forall i, j :: 0 <= i < j < |ks| ==> ks[i] < ks[j] }

  lemma {:induction false} UnsettledFillsAscend(fills: seq<Fill>, id: int)
    ensures Ascending(UnsettledFills(fills, id))
  {
    if fills != [] { UnsettledFillsAscend(fills[..|fills| - 1], id); }
  }

  lemma {:induction false} UnsettledBillsAscend(bills: seq<Bill>, owner: Owner)
    ensures Ascending(UnsettledBills(bills, owner))
  {
    if bills != [] { UnsettledBillsAscend(bills[..|bills| - 1], owner); }
  }

  /** The fills a settlement still has to take. */
  predicate ToSettle(db: Db, ks: seq<nat>, id: int) {
    Ascending(ks) && forall i :: 0 <= i < |ks| ==>
        ks[i] < |db.fills| && db.fills[ks[i]].orderId == id && !db.fills[ks[i]].settled
  }

  lemma {:induction false} SettleFillsKeeps(db: Db, ks: seq<nat>, id: int)
    requires Sound(db) && ToSettle(db, ks, id) && db.HasOrder(id) && db.orders[id - 1].Live() && AllFills(db, ks)
    ensures var db' := SettleFills(db, ks);
            Sound(db') && SameTrades(db, db') && forall c :: Money(db', c) == Money(db, c)
    decreases |ks|
  {
    hide Sound, Money;
    if ks != [] {
      var db1 := SettleFill(db, ks[0]);
      SettleFillKeeps(db, ks[0]);
      if !db.fills[ks[0]].done {
        assert ToSettle(db1, ks[1..], id) && AllFills(db1, ks[1..]);
        SettleFillsKeeps(db1, ks[1..], id);
      }
    }
  }

  /** `ExecuteFill` keeps the tables sound and moves no money in or out. */
  lemma ExecuteFillKeeps(db: Db, id: int)
    requires Sound(db) && ExecuteFill(db, id).Some?
    ensures var db' := ExecuteFill(db, id).value;
            Sound(db') && SameTrades(db, db') && forall c :: Money(db', c) == Money(db, c)
  {
    hide Sound, Money, UnsettledFills, SettleFills;
    var ks := First(UnsettledFills(db.fills, id), 100);
    UnsettledFillsAscend(db.fills, id);
    SettleFillsKeeps(db, ks, id);
  }

  lemma AccountMoves(accounts: map<Owner, Account>, owner: Owner, a: Account, c: Currency)
    ensures var was := if owner in accounts then accounts[owner] else Account(0, 0);
            Total(AccountMoney(accounts[owner := a], c)) == Total(AccountMoney(accounts, c))
            + if owner.currency == c then a.available + a.hold - was.available - was.hold else 0
  {
    hide Total;
    var before, after := AccountMoney(accounts, c), AccountMoney(accounts[owner := a], c);
    WithOne(before, owner);
    WithOne(after, owner);
    forall o ensures (o in before - {owner} <==> o in after - {owner})
                     && (o in before - {owner} ==> (before - {owner})[o] == (after - {owner})[o]) {
    }
    assert before - {owner} == after - {owner};
  }

  lemma SettleBillKeeps(db: Db, k: nat)
    requires Sound(db) && k < |db.bills| && !db.bills[k].settled
    ensures var db' := SettleBill(db, k);
            Sound(db') && db'.orders == db.orders && db'.fills == db.fills && forall c :: Money(db', c) == Money(db, c)
  {
    hide RowsNumbered, RowsBooked, FillsFit, Total, AccountMoney;
    var b, db' := db.bills[k], SettleBill(db, k);
    forall owner
      ensures HoldIn(db'.accounts, owner) + Sum(db'.bills, BillHold(owner)) == Sum(db'.orders, RowHold(owner))
    {
      HoldOf(db, owner);
      SumUpdate(db.bills, k, b.(settled := true), BillHold(owner));
    }
    forall c ensures Money(db', c) == Money(db, c) {
      SumUpdate(db.bills, k, b.(settled := true), BillMoney(c));
      AccountMoves(db.accounts, b.owner, db'.accounts[b.owner], c);
    }
  }

  lemma {:induction false} SettleBillsKeeps(db: Db, ks: seq<nat>)
    requires Sound(db) && Ascending(ks) && forall i :: 0 <= i < |ks| ==> ks[i] < |db.bills| && !db.bills[ks[i]].settled
    ensures var db' := SettleBills(db, ks);
            Sound(db') && db'.orders == db.orders && db'.fills == db.fills && forall c :: Money(db', c) == Money(db, c)
    decreases |ks|
  {
    hide Sound, Money;
    if ks != [] {
      SettleBillKeeps(db, ks[0]);
      SettleBillsKeeps(SettleBill(db, ks[0]), ks[1..]);
    }
  }

  /** So does `ExecuteBill`. */
  lemma ExecuteBillKeeps(db: Db, owner: Owner)
    requires Sound(db)
    ensures var db' := ExecuteBill(db, owner);
            Sound(db') && db'.orders == db.orders && db'.fills == db.fills && forall c :: Money(db', c) == Money(db, c)
  {
    hide Sound, Money, UnsettledBills, SettleBills;
    UnsettledBillsAscend(db.bills, owner);
    SettleBillsKeeps(db, First(UnsettledBills(db.bills, owner), 100));
  }

  lemma PlacedRow(l: Listing, db: Db, seen: map<Owner, Account>, user: int, kind: OrderType, side: Side,
                  size: int, price: int, funds: int)
    requires PlaceOrder(l, db, seen, user, kind, side, size, price, funds).Some?
    ensures var db' := PlaceOrder(l, db, seen, user, kind, side, size, price, funds).value; OrderAdded(db, seen, db')
  {
    hide RoundedQuotient;
  }

  /** db' is db with one more order, its hold taken. */
  predicate OrderAdded(db: Db, seen: map<Owner, Account>, db': Db) {
    && |db'.orders| == |db.orders| + 1
    && var row := db'.orders[|db.orders|];
    && row.order.id == |db.orders| + 1 && row.executedValue == row.filledSize == 0 && row.Unspent() > 0 && row.Live()
    && db'.fills == db.fills && db'.orders == db.orders + [row]
    && db'.bills == db.bills + [Bill(row.Holder(), -row.Unspent(), row.Unspent(), true)]
    && HoldBalance(db.accounts, seen, row.Holder(), row.Unspent()) == Some(db'.accounts)
  }

  /** Placing an order moves its funds or size from available to hold. */
  lemma PlaceOrderKeeps(l: Listing, db: Db, seen: map<Owner, Account>, user: int, kind: OrderType, side: Side,
                        size: int, price: int, funds: int)
    requires Sound(db) && PlaceOrder(l, db, seen, user, kind, side, size, price, funds).Some?
    ensures var db' := PlaceOrder(l, db, seen, user, kind, side, size, price, funds).value;
            Sound(db') && forall c :: Money(db', c) == Money(db, c)
  {
    hide PlaceOrder, Sound, Money;
    PlacedRow(l, db, seen, user, kind, side, size, price, funds);
    PlacedRowKeeps(db, seen, PlaceOrder(l, db, seen, user, kind, side, size, price, funds).value);
  }

  lemma PlacedRowKeeps(db: Db, seen: map<Owner, Account>, db': Db)
    requires Sound(db) && OrderAdded(db, seen, db')
    ensures Sound(db') && forall c :: Money(db', c) == Money(db, c)
  {
    hide Total, AccountMoney, Effect;
    var row := db'.orders[|db.orders|];
    var bill := db'.bills[|db.bills|];
    forall owner
      ensures HoldIn(db'.accounts, owner) + Sum(db'.bills, BillHold(owner)) == Sum(db'.orders, RowHold(owner))
    {
      HoldOf(db, owner);
      SumAppend(db.orders, [row], RowHold(owner));
      SumAppend(db.bills, [bill], BillHold(owner));
      SumOne(row, RowHold(owner));
      SumOne(bill, BillHold(owner));
    }
    NoFillsYet(db.orders, db.fills);
    forall c ensures Money(db', c) == Money(db, c) {
      AccountMoves(db.accounts, row.Holder(), db'.accounts[row.Holder()], c);
      SumAppend(db.bills, [bill], BillMoney(c));
      SumOne(bill, BillMoney(c));
      assert BillMoney(c)(bill) == 0;
    }
  }

  /** An order not yet in the table has no fills. */
  lemma {:induction false} NoFillsYet(rows: seq<Row>, fills: seq<Fill>)
    requires FillsFit(rows, fills)
    ensures var id := |rows| + 1;
            && Sum(fills, SettledSize(id)) == Sum(fills, SettledValue(id)) == 0
            && Sum(fills, SizeFor(id)) == Sum(fills, ValueFor(id)) == 0
    decreases |fills|
  {
    if fills != [] {
      assert Fits(rows, fills[|fills| - 1]);
      NoFillsYet(rows, fills[..|fills| - 1]);
    }
  }

  /** Marking an order open changes nothing it ties up. */
  lemma OpenOrderKeeps(db: Db, id: int)
    requires Sound(db)
    ensures var db' := OpenOrder(db, id); Sound(db') && SameTrades(db, db') && forall c :: Money(db', c) == Money(db, c)
  {
    hide HoldIn, AccountMoney, BillMoney, Effect, RowsNumbered, RowsBooked, FillsFit;
    if db.HasOrder(id) && db.orders[id - 1].status.New? {
      var db' := OpenOrder(db, id);
      forall owner
        ensures HoldIn(db'.accounts, owner) + Sum(db'.bills, BillHold(owner)) == Sum(db'.orders, RowHold(owner))
      {
        HoldOf(db, owner);
        SumUpdate(db.orders, id - 1, db'.orders[id - 1], RowHold(owner));
      }
      OpenedRows(db, db', id - 1);
    }
  }

  lemma OpenedRows(db: Db, db': Db, i: nat)
    requires RowsNumbered(db.orders) && RowsBooked(db.orders, db.fills) && FillsFit(db.orders, db.fills)
    requires i < |db.orders| && db'.fills == db.fills && db'.orders == db.orders[i := db.orders[i].(status := Open)]
    ensures RowsNumbered(db'.orders) && RowsBooked(db'.orders, db'.fills)
    ensures FillsFit(db'.orders, db'.fills) && SameTrades(db, db')
  {
    assert SameTrades(db, db');
    assert forall j :: 0 <= j < |db.fills| ==> Fits(db.orders, db.fills[j]) && Fits(db'.orders, db'.fills[j]);
  }

  /** Fills written to the table bring their effect with them. */
  lemma AddFillsKeeps(db: Db, fs: seq<Fill>)
    requires Sound(db) && FillsFit(db.orders, fs) && forall k :: 0 <= k < |fs| ==> !fs[k].settled
    ensures var db' := db.(fills := db.fills + fs);
            Sound(db') && forall c :: Money(db', c) == Money(db, c) + Sum(fs, Effect(c))
  {
    hide RowsNumbered, HoldIn, Effect, RowsBooked;
    var db' := db.(fills := db.fills + fs);
    AddedBooked(db.orders, db.fills, fs);
    forall owner
      ensures HoldIn(db'.accounts, owner) + Sum(db'.bills, BillHold(owner)) == Sum(db'.orders, RowHold(owner))
    {
      HoldOf(db, owner);
    }
    forall c ensures Money(db', c) == Money(db, c) + Sum(fs, Effect(c)) { SumAppend(db.fills, fs, Effect(c)); }
  }

  lemma AddedBooked(rows: seq<Row>, fills: seq<Fill>, fs: seq<Fill>)
    requires RowsBooked(rows, fills) && forall k :: 0 <= k < |fs| ==> !fs[k].settled
    ensures RowsBooked(rows, fills + fs)
  {
    forall i | 0 <= i < |rows|
      ensures rows[i].filledSize == Sum(fills + fs, SettledSize(i + 1))
      ensures rows[i].executedValue == Sum(fills + fs, SettledValue(i + 1))
    {
      SumAppend(fills, fs, SettledSize(i + 1));
      SumAppend(fills, fs, SettledValue(i + 1));
      NoneSettled(fs, i + 1);
    }
  }

  lemma {:induction false} NoneSettled(fs: seq<Fill>, id: int)
    requires forall k :: 0 <= k < |fs| ==> !fs[k].settled
    ensures Sum(fs, SettledSize(id)) == Sum(fs, SettledValue(id)) == 0
    decreases |fs|
  {
    if fs != [] { NoneSettled(fs[..|fs| - 1], id); }
  }
}
