/** The services' methods over the tables, changed in place: placing orders and holding balances,
    settling fills and paying bills. Each method is one transaction, and each is proved equal to the
    function of Settlement that says what it does to the tables as values. */
module TableStore {
  import opened Market
  import opened Decimals
  import opened Settlement

  /** The tables, each method being one transaction. */
  class Store {
    var accounts: map<Owner, Account>
    var orders: seq<Row>
    var fills: seq<Fill>
    var bills: seq<Bill>

    function View(): Db
      reads this
    {
      Db(accounts, orders, fills, bills)
    }

    constructor (accounts: map<Owner, Account>)
      ensures View() == Db(accounts, [], [], [])
    {
      this.accounts, orders, fills, bills := accounts, [], [], [];
    }

    /** `seen` is what a read outside the transaction, some time before, finds in the accounts. */
    method HoldBalance(seen: map<Owner, Account>, owner: Owner, size: int) returns (ok: bool)
      modifies this`accounts, this`bills
      ensures var r := Settlement.HoldBalance(old(accounts), seen, owner, size);
              if r.None? then !ok && accounts == old(accounts) && bills == old(bills)
              else ok && accounts == r.value && bills == old(bills) + [Bill(owner, -size, size, true)]
    {
      if size <= 0 || !HasEnoughBalance(seen, owner, size) {
        return false;
      }
      if owner !in accounts {
        return false;
      }
      var account := accounts[owner];
      account := account.(available := account.available - size);
      account := account.(hold := account.hold + size);
      bills := bills + [Bill(owner, -size, size, true)];
      accounts := accounts[owner := account];
      ok := true;
    }

    method PlaceOrder(l: Listing, seen: map<Owner, Account>, user: int, kind: OrderType, side: Side,
                      size: int, price: int, funds: int) returns (ok: bool)
      modifies this
      ensures var r := Settlement.PlaceOrder(l, old(View()), seen, user, kind, side, size, price, funds);
              if r.None? then !ok && View() == old(View()) else ok && View() == r.value
    {
      hide RoundedQuotient;
      var s, q, f;
      if kind.Limit? {
        s := RoundedQuotient(size, l.fine);
        if s < l.baseMinSize { return false; }
        q := RoundedQuotient(price, l.fine);
        if q < 0 { return false; }
        f := s * q;
      } else if side.Buy? {
        s, q := 0, 0;
        f := RoundedQuotient(funds, l.fine) * l.baseUnit;
        if f < l.quoteMinSize { return false; }
      } else {
        s := RoundedQuotient(size, l.fine);
        if s < l.baseMinSize { return false; }
        q, f := 0, 0;
      }
      var holdCurrency, holdSize;
      if side.Buy? { holdCurrency, holdSize := Quote, f; } else { holdCurrency, holdSize := Base, s; }
      ok := HoldBalance(seen, Owner(user, holdCurrency), holdSize);
      if ok {
        orders := orders + [Row(user, Order(|orders| + 1, s, f, q, side, kind), 0, 0, New)];
      }
    }

    method AddDelayBill(owner: Owner, available: int, hold: int)
      modifies this`bills
      ensures bills == old(bills) + [Bill(owner, available, hold, false)]
    {
      bills := bills + [Bill(owner, available, hold, false)];
    }

    /** The bills of one fill, and the order row with the fill booked. */
    method Book(order: Row, fill: Fill) returns (after: Row)
      modifies this`bills
      ensures after == RowAfter(order, fill) && bills == old(bills) + BillsFor(order, fill)
    {
      after := order;
      if !fill.done {
        var executedValue := fill.size * fill.price;
        after := after.(executedValue := after.executedValue + executedValue);
        after := after.(filledSize := after.filledSize + fill.size);
        if order.order.side.Buy? {
          AddDelayBill(Owner(order.user, Base), fill.size, 0);
          AddDelayBill(Owner(order.user, Quote), 0, -executedValue);
        } else {
          AddDelayBill(Owner(order.user, Base), 0, -fill.size);
          AddDelayBill(Owner(order.user, Quote), executedValue, 0);
        }
      } else {
        after := after.(status := if fill.reason.Cancelled? then Status.Cancelled else Status.Filled);
        if order.order.side.Buy? {
          var remainingFunds := order.order.funds - order.executedValue;
          if remainingFunds > 0 {
            AddDelayBill(Owner(order.user, Quote), remainingFunds, -remainingFunds);
          }
        } else {
          var remainingSize := order.order.size - order.filledSize;
          if remainingSize > 0 {
            AddDelayBill(Owner(order.user, Base), remainingSize, -remainingSize);
          }
        }
      }
    }

    method ExecuteFill(orderId: int) returns (ok: bool)
      modifies this
      ensures var r := Settlement.ExecuteFill(old(View()), orderId);
              if r.None? then !ok && View() == old(View()) else ok && View() == r.value
    {
      hide RowAfter, BillsFor, UnsettledFills, SettleFills, AllFills;
      if !(1 <= orderId <= |orders|) {
        return false;
      }
      var order := orders[orderId - 1];
      if order.status.Filled? || order.status.Cancelled? {
        return false;
      }
      AllUnsettled(View(), orderId);
      var fetched := First(UnsettledFills(fills, orderId), 100);
      assert fetched[0..] == fetched && orders[orderId - 1 := order] == orders;
      ghost var end := SettleFills(View(), fetched);
      var j, ended := 0, false;
      while j < |fetched| && !ended
        invariant j <= |fetched| && |orders| == |old(orders)| && accounts == old(accounts)
        invariant forall i :: 0 <= i < |fetched| ==> fetched[i] < |fills| && fills[fetched[i]].orderId == orderId
        invariant var db := Db(accounts, orders[orderId - 1 := order], fills, bills);
                  if ended then db == end else AllFills(db, fetched[j..]) && SettleFills(db, fetched[j..]) == end
      {
        ghost var db := Db(accounts, orders[orderId - 1 := order], fills, bills);
        FillStep(db, fetched, j);
        var fill := fills[fetched[j]];
        fills := fills[fetched[j] := fill.(settled := true)];
        order := Book(order, fill);
        assert orders[orderId - 1 := order] == db.orders[orderId - 1 := order];
        assert Db(accounts, orders[orderId - 1 := order], fills, bills) == SettleFill(db, fetched[j]);
        ended := fill.done;
        j := j + 1;
      }
      NoFills(Db(accounts, orders[orderId - 1 := order], fills, bills));
      assert !ended ==> fetched[j..] == [];
      orders := orders[orderId - 1 := order];
      ok := true;
    }

    method ExecuteBill(owner: Owner)
      modifies this
      ensures View() == Settlement.ExecuteBill(old(View()), owner)
    {
      hide UnsettledBills, SettleBills;
      var fetched := First(UnsettledBills(bills, owner), 100);
      NoBills(View());
      if |fetched| == 0 {
        return;
      }
      var account := if owner in accounts then accounts[owner] else Account(0, 0);
      ghost var db, end := View(), SettleBills(View(), fetched);
      assert fetched[0..] == fetched;
      var j := 0;
      while j < |fetched|
        invariant j <= |fetched| && accounts == old(accounts) && orders == old(orders) && fills == old(fills)
        invariant |bills| == |db.bills| && db == Db(db.accounts, orders, fills, bills)
        invariant forall i :: 0 <= i < |fetched| ==> fetched[i] < |bills| && bills[fetched[i]].owner == owner
        invariant db.accounts == if j == 0 then accounts else accounts[owner := account]
        invariant account == if owner in db.accounts then db.accounts[owner] else Account(0, 0)
        invariant SettleBills(db, fetched[j..]) == end
      {
        BillStep(db, fetched, j);
        db := SettleBill(db, fetched[j]);
        var bill := bills[fetched[j]];
        account := account.(available := account.available + bill.available);
        account := account.(hold := account.hold + bill.hold);
        bills := bills[fetched[j] := bill.(settled := true)];
        j := j + 1;
      }
      NoBills(db);
      accounts := accounts[owner := account];
    }
  }

  lemma AllUnsettled(db: Db, id: int)
    requires db.HasOrder(id)
    ensures AllFills(db, First(UnsettledFills(db.fills, id), 100))
  {
  }

  lemma FillStep(db: Db, ks: seq<nat>, j: nat)
    requires j < |ks| && AllFills(db, ks[j..])
    ensures ks[j] < |db.fills| && db.HasOrder(db.fills[ks[j]].orderId)
    ensures var db' := SettleFill(db, ks[j]);
            if db.fills[ks[j]].done then SettleFills(db, ks[j..]) == db'
            else AllFills(db', ks[j + 1..]) && SettleFills(db, ks[j..]) == SettleFills(db', ks[j + 1..])
  {
    assert ks[j..][0] == ks[j] && ks[j..][1..] == ks[j + 1..];
    assert forall i :: 0 <= i < |ks| - j ==> ks[j..][i] == ks[j + i];
  }

  lemma NoFills(db: Db)
    ensures AllFills(db, []) && SettleFills(db, []) == db
  {
  }

  lemma BillStep(db: Db, ks: seq<nat>, j: nat)
    requires j < |ks| && forall i :: 0 <= i < |ks| ==> ks[i] < |db.bills|
    ensures SettleBills(db, ks[j..]) == SettleBills(SettleBill(db, ks[j]), ks[j + 1..])
  {
    assert ks[j..][0] == ks[j] && ks[j..][1..] == ks[j + 1..];
  }

  lemma NoBills(db: Db)
    ensures SettleBills(db, []) == db
  {
  }
}
