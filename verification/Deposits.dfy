/** The deposit ledger: concurrent workers take an expiring lock, read an account, and commit under a
    version check and a unique transaction hash. */
module Deposits {
  import opened Market

  datatype Token = Bnb | Mtk

  /** A balance column; None is text that is no number. */
  type Balance = Option<int>

  datatype Asset = Asset(bnb: Balance, mtk: Balance, version: int) {
    function Of(t: Token): Balance { if t.Bnb? then bnb else mtk }
    function With(t: Token, b: Balance): Asset { if t.Bnb? then this.(bnb := b) else this.(mtk := b) }
  }

  /** One deposit seen on the chain. */
  datatype Job = Job(account: int, token: Token, amount: int, hash: int)

  datatype Bill = Bill(account: int, token: Token, amount: int, pre: int, next: int)

  datatype Tables = Tables(assets: map<int, Asset>, bills: seq<Bill>, hashes: seq<int>)

  /** `calculateBalance`: the balance before and after, or None if it cannot be read. */
  function CalculateBalance(a: Asset, t: Token, amount: int): Option<(int, int)> {
    if a.Of(t).None? then None else Some((a.Of(t).value, a.Of(t).value + amount))
  }

  /** What the transaction reads; None is one of its errors. */
  function ReadAsset(db: Tables, job: Job): Option<Asset> {
    if job.hash in db.hashes || job.account !in db.assets
        || CalculateBalance(db.assets[job.account], job.token, job.amount).None?
    then None else Some(db.assets[job.account])
  }

  /** What it writes, all or nothing: the unique index refuses a known hash, the version check a row
      changed since it was read. */
  function Commit(db: Tables, job: Job, read: Asset): Option<Tables>
    requires read.Of(job.token).Some?
  {
    var pre, next := read.Of(job.token).value, read.Of(job.token).value + job.amount;
    if job.hash in db.hashes || job.account !in db.assets || db.assets[job.account].version != read.version then None
    else
      Some(Tables(db.assets[job.account := read.With(job.token, Some(next)).(version := read.version + 1)],
                  db.bills + [Bill(job.account, job.token, job.amount, pre, next)], db.hashes + [job.hash]))
  }

  class Store {
    var assets: map<int, Asset>
    var bills: seq<Bill>
    var hashes: seq<int>

    function View(): Tables
      reads this
    {
      Tables(assets, bills, hashes)
    }

    constructor (assets: map<int, Asset>)
      ensures View() == Tables(assets, [], [])
    {
      this.assets, bills, hashes := assets, [], [];
    }

    method UpdateAssetWithOptimisticLock(accountId: int, asset: Asset, newBalance: int, token: Token) returns (ok: bool)
      modifies this`assets
      ensures ok <==> accountId in old(assets) && old(assets)[accountId].version == asset.version
      ensures assets == if ok
              then old(assets)[accountId := asset.With(token, Some(newBalance)).(version := asset.version + 1)]
                        else old(assets)
    {
      var currentVersion := asset.version;
      var row := if token.Mtk? then asset.(mtk := Some(newBalance)) else asset.(bnb := Some(newBalance));
      row := row.(version := currentVersion + 1);
      ok := accountId in assets && assets[accountId].version == currentVersion;
      if ok {
        assets := assets[accountId := row];
      }
    }

    /** The write half of the transaction, rolled back on any error. */
    method ExecuteTransaction(job: Job, asset: Asset) returns (ok: bool)
      requires asset.Of(job.token).Some?
      modifies this
      ensures var r := Commit(old(View()), job, asset);
              if r.None? then !ok && View() == old(View()) else ok && View() == r.value
    {
      var assets0, bills0, hashes0 := assets, bills, hashes;
      var preBalance := asset.Of(job.token).value;
      var nextBalance := preBalance + job.amount;
      bills := bills + [Bill(job.account, job.token, job.amount, preBalance, nextBalance)];
      ok := job.hash !in hashes;
      if ok {
        hashes := hashes + [job.hash];
        ok := UpdateAssetWithOptimisticLock(job.account, asset, nextBalance, job.token);
      }
      if !ok {
        assets, bills, hashes := assets0, bills0, hashes0;
      }
    }
  }

  // The workers.

  datatype LockKey = LockKey(account: int, token: Token)

  /** A key in the lock store: who holds it, and the seconds it still lives. */
  datatype Entry = Entry(holder: int, ttl: nat)

  const ASSET_LOCK_TTL: nat := 10

  type Locks = map<LockKey, Entry>

  predicate Owns(locks: Locks, key: LockKey, val: int) { key in locks && locks[key].holder == val }

  function TryLock(locks: Locks, key: LockKey, val: int): Locks {
    if key in locks then locks else locks[key := Entry(val, ASSET_LOCK_TTL)]
  }

  function Unlock(locks: Locks, key: LockKey, val: int): Locks {
    if Owns(locks, key, val) then locks - {key} else locks
  }

  function Renew(locks: Locks, key: LockKey, val: int): Locks {
    if Owns(locks, key, val) then locks[key := Entry(val, ASSET_LOCK_TTL)] else locks
  }

  /** Time passes: keys whose time is over are gone. */
  function Expire(locks: Locks, seconds: nat): Locks {
    map k | k in locks && locks[k].ttl > seconds :: Entry(locks[k].holder, locks[k].ttl - seconds)
  }

  datatype Phase = Waiting | Locked | Reading(asset: Asset) | Finished(committed: bool) | Gone

  datatype Worker = Worker(job: Job, lockVal: int, phase: Phase) {
    function Key(): LockKey { LockKey(job.account, job.token) }
  }

  datatype World = World(db: Tables, locks: Locks, workers: seq<Worker>)

  datatype Event =
    | Arrive(job: Job, lockVal: int)      // a deposit gets a worker and a random lock value
    | Try(w: nat)
    | GiveUp(w: nat)                      // the lock was not had in time
    | Read(w: nat)
    | Write(w: nat)
    | Release(w: nat)
    | Extend(w: nat)
    | Tick(seconds: nat)

  function At(x: World, w: nat, phase: Phase): World
    requires w < |x.workers|
  {
    x.(workers := x.workers[w := x.workers[w].(phase := phase)])
  }

  /** One step of one worker or of the clock; a step that is not due changes nothing. */
  function Step(x: World, e: Event): World {
    match e
    case Arrive(job, lockVal) => x.(workers := x.workers + [Worker(job, lockVal, Waiting)])
    case Tick(seconds) => x.(locks := Expire(x.locks, seconds))
    case Try(w) =>
      if w >= |x.workers| || !x.workers[w].phase.Waiting? || x.workers[w].Key() in x.locks then x
      else At(x, w, Locked).(locks := TryLock(x.locks, x.workers[w].Key(), x.workers[w].lockVal))
    case GiveUp(w) =>
      if w >= |x.workers| || !x.workers[w].phase.Waiting? then x else At(x, w, Gone)
    case Read(w) =>
      if w >= |x.workers| || !x.workers[w].phase.Locked? then x
      else
        var r := ReadAsset(x.db, x.workers[w].job);
        At(x, w, if r.None? then Finished(false) else Reading(r.value))
    case Write(w) =>
      if w >= |x.workers| || !x.workers[w].phase.Reading?
          || x.workers[w].phase.asset.Of(x.workers[w].job.token).None? then x
      else
        var r := Commit(x.db, x.workers[w].job, x.workers[w].phase.asset);
        At(if r.None? then x else x.(db := r.value), w, Finished(r.Some?))
    case Release(w) =>
      if w >= |x.workers| || !x.workers[w].phase.Finished? then x
      else At(x, w, Gone).(locks := Unlock(x.locks, x.workers[w].Key(), x.workers[w].lockVal))
    case Extend(w) =>
      if w >= |x.workers| || x.workers[w].phase.Waiting? || x.workers[w].phase.Gone? then x
      else x.(locks := Renew(x.locks, x.workers[w].Key(), x.workers[w].lockVal))
  }

  /** The bills of one balance, oldest first. */
  function BillsOf(bills: seq<Bill>, account: int, t: Token): seq<Bill> {
    if bills == [] then []
    else
      var b := bills[|bills| - 1];
      BillsOf(bills[..|bills| - 1], account, t) + if b.account == account && b.token == t then [b] else []
  }

  function Credited(bills: seq<Bill>): int {
    if bills == [] then 0 else Credited(bills[..|bills| - 1]) + bills[|bills| - 1].amount
  }

  function End(opening: int, bills: seq<Bill>): int { if bills == [] then opening else bills[|bills| - 1].next }

  /** Each bill starts where the one before it ended, the first at the opening balance, and each adds
      its amount. */
  predicate Chain(bills: seq<Bill>, opening: int) {
    bills == [] || (var n := |bills| - 1;
                    Chain(bills[..n], opening) && bills[n].pre == End(opening, bills[..n])
                        && bills[n].next == bills[n].pre + bills[n].amount)
  }

  function CountOf(bills: seq<Bill>, account: int): nat {
    if bills == [] then 0
    else CountOf(bills[..|bills| - 1], account) + if bills[|bills| - 1].account == account then 1 else 0
  }

  /** One balance against the bills written for it since the opening. */
  ghost predicate BalanceTold(opening: map<int, Asset>, db: Tables, account: int, t: Token) {
    && (account in db.assets <==> account in opening)
    && (account !in opening || opening[account].Of(t).None? ==> BillsOf(db.bills, account, t) == [])
    && (account in opening && opening[account].Of(t).None? ==> db.assets[account].Of(t).None?)
    && (account in opening && opening[account].Of(t).Some? ==>
          var start, mine := opening[account].Of(t).value, BillsOf(db.bills, account, t);
          && Chain(mine, start)
          && db.assets[account].Of(t) == Some(End(start, mine))
          && db.assets[account].Of(t) == Some(start + Credited(mine)))
  }

  /** The version of a row counts its bills; an old read has an old version, or is the row itself. */
  ghost predicate VersionsTell(opening: map<int, Asset>, x: World) {
    && (forall a :: a in x.db.assets && a in opening ==>
        x.db.assets[a].version == opening[a].version + CountOf(x.db.bills, a))
    && (forall w :: 0 <= w < |x.workers| && x.workers[w].phase.Reading? ==>
          var a, read := x.workers[w].job.account, x.workers[w].phase.asset;
          a in x.db.assets && read.version <= x.db.assets[a].version
          && (read.version == x.db.assets[a].version ==> read == x.db.assets[a]))
  }

  predicate NoneTwice(hashes: seq<int>) { forall i, j :: 0 <= i < j < |hashes| ==> hashes[i] != hashes[j] }

  ghost predicate Told(opening: map<int, Asset>, x: World) {
    && (forall account: int, t: Token :: BalanceTold(opening, x.db, account, t))
    && VersionsTell(opening, x) && NoneTwice(x.db.hashes) && |x.db.hashes| == |x.db.bills|
  }

  lemma BillsOfOneMore(bills: seq<Bill>, b: Bill, account: int, t: Token)
    ensures BillsOf(bills + [b], account, t)
            == BillsOf(bills, account, t) + if b.account == account && b.token == t then [b] else []
    ensures CountOf(bills + [b], account) == CountOf(bills, account) + if b.account == account then 1 else 0
  {
    assert (bills + [b])[..|bills|] == bills;
  }

  lemma ChainExtended(mine: seq<Bill>, b: Bill, start: int)
    requires Chain(mine, start) && b.pre == End(start, mine) && b.next == b.pre + b.amount
    ensures Chain(mine + [b], start) && End(start, mine + [b]) == b.next
            && Credited(mine + [b]) == Credited(mine) + b.amount
  {
    assert (mine + [b])[..|mine|] == mine;
  }

  /** A commit extends the chain of its own balance and leaves every other balance alone, although it
      writes the whole row it read. */
  lemma CommitTells(opening: map<int, Asset>, db: Tables, job: Job, read: Asset, account: int, t: Token)
    requires BalanceTold(opening, db, account, t)
    requires job.account in db.assets && read == db.assets[job.account] && read.Of(job.token).Some?
    requires Commit(db, job, read).Some?
    ensures BalanceTold(opening, Commit(db, job, read).value, account, t)
  {
    hide Chain, Credited, BillsOf, End, Commit, Asset.Of;
    var pre, next := read.Of(job.token).value, read.Of(job.token).value + job.amount;
    var b := Bill(job.account, job.token, job.amount, pre, next);
    CommitWrites(db, job, read, account, t);
    BillsOfOneMore(db.bills, b, account, t);
    var mine, db' := BillsOf(db.bills, account, t), Commit(db, job, read).value;
    if account == job.account && t == job.token {
      assert account in opening && opening[account].Of(t).Some?;
      ChainExtended(mine, b, opening[account].Of(t).value);
    } else {
      assert mine + [] == mine;
    }
  }

  /** What a commit does to the balances. */
  lemma CommitWrites(db: Tables, job: Job, read: Asset, account: int, t: Token)
    requires job.account in db.assets && read == db.assets[job.account] && read.Of(job.token).Some?
    requires Commit(db, job, read).Some?
    ensures var db' := Commit(db, job, read).value;
            var pre := read.Of(job.token).value;
            && db'.bills == db.bills + [Bill(job.account, job.token, job.amount, pre, pre + job.amount)]
            && (account in db'.assets <==> account in db.assets)
            && (account in db.assets ==>
                  db'.assets[account].Of(t)
                  == if account == job.account && t == job.token then Some(pre + job.amount)
                     else db.assets[account].Of(t))
  {
  }

  lemma StepTells(opening: map<int, Asset>, x: World, e: Event)
    requires Told(opening, x)
    ensures Told(opening, Step(x, e))
  {
    hide BalanceTold;
    if e.Write? && e.w < |x.workers| && x.workers[e.w].phase.Reading?
        && x.workers[e.w].phase.asset.Of(x.workers[e.w].job.token).Some? {
      WriteTells(opening, x, e.w);
    } else {
      assert Step(x, e).db == x.db;
    }
  }

  lemma WriteTells(opening: map<int, Asset>, x: World, w: nat)
    requires Told(opening, x) && w < |x.workers| && x.workers[w].phase.Reading?
    requires x.workers[w].phase.asset.Of(x.workers[w].job.token).Some?
    ensures Told(opening, Step(x, Write(w)))
  {
    hide BalanceTold, VersionsTell, NoneTwice;
    var job, read := x.workers[w].job, x.workers[w].phase.asset;
    var x' := Step(x, Write(w));
    WriteVersions(opening, x, w);
    if Commit(x.db, job, read).Some? {
      assert NoneTwice(x'.db.hashes) by { NewHash(x.db.hashes, job.hash); }
      forall account: int, t: Token ensures BalanceTold(opening, x'.db, account, t) {
        CommitTells(opening, x.db, job, read, account, t);
      }
    } else {
      assert x'.db == x.db;
    }
  }

  lemma NewHash(hashes: seq<int>, h: int)
    requires NoneTwice(hashes) && h !in hashes
    ensures NoneTwice(hashes + [h])
  {
  }

  /** A commit reads the row it replaces, and makes every other read of that row an old one. */
  lemma WriteVersions(opening: map<int, Asset>, x: World, w: nat)
    requires VersionsTell(opening, x) && w < |x.workers| && x.workers[w].phase.Reading?
    requires x.workers[w].phase.asset.Of(x.workers[w].job.token).Some?
    ensures VersionsTell(opening, Step(x, Write(w)))
    ensures var job, read := x.workers[w].job, x.workers[w].phase.asset;
            Commit(x.db, job, read).Some? ==> job.account in x.db.assets && read == x.db.assets[job.account]
  {
    var job, read := x.workers[w].job, x.workers[w].phase.asset;
    var x' := Step(x, Write(w));
    if Commit(x.db, job, read).Some? {
      var b := x'.db.bills[|x.db.bills|];
      forall a ensures CountOf(x'.db.bills, a) == CountOf(x.db.bills, a) + if a == job.account then 1 else 0 {
        BillsOfOneMore(x.db.bills, b, a, Bnb);
      }
    }
  }

  /** A first state: the opening balances, no bills, no workers. */
  predicate Opening(opening: map<int, Asset>, x: World) {
    x.db == Tables(opening, [], []) && x.workers == [] && forall k :: k !in x.locks
  }

  /** Lock values are random: no two workers drew the same, and no old key holds a new one's. */
  predicate FreshValue(x: World, e: Event) {
    e.Arrive? ==> (forall w :: 0 <= w < |x.workers| ==> x.workers[w].lockVal != e.lockVal)
                  && (forall k :: k in x.locks ==> x.locks[k].holder != e.lockVal)
  }

  ghost predicate History(opening: map<int, Asset>, xs: seq<World>, events: seq<Event>) {
    && |xs| == |events| + 1 && Opening(opening, xs[0])
    && forall i :: 0 <= i < |events| ==> FreshValue(xs[i], events[i]) && xs[i + 1] == Step(xs[i], events[i])
  }

  /** For every interleaving of workers, whatever locks expire in between: the bills of each balance
      form a chain from its opening, the balance is where the chain ends and is the opening plus all
      that was credited, and no transaction hash is credited twice. */
  lemma {:induction false} NoLostUpdate(opening: map<int, Asset>, xs: seq<World>, events: seq<Event>, n: nat)
    requires History(opening, xs, events) && n <= |events|
    ensures Told(opening, xs[n])
  {
    hide Told, Step, FreshValue;
    if n == 0 {
      NothingTold(opening, xs[0]);
    } else {
      NoLostUpdate(opening, xs, events, n - 1);
      StepTells(opening, xs[n - 1], events[n - 1]);
    }
  }

  lemma NothingTold(opening: map<int, Asset>, x: World)
    requires Opening(opening, x)
    ensures Told(opening, x)
  {
  }

  /** A write goes through exactly when its hash is new and nothing was committed to the account since
      the worker's read; otherwise the tables stay as they are and the deposit is dropped. */
  lemma WriteSucceedsIff(opening: map<int, Asset>, xs: seq<World>, events: seq<Event>, r: nat, n: nat, w: nat)
    requires History(opening, xs, events) && r < n < |events| && w < |xs[r].workers|
    requires events[r] == Read(w) && xs[r].workers[w].phase.Locked? && xs[r + 1].workers[w].phase.Reading?
    requires forall i :: r < i < n ==> events[i] != Write(w)
    requires events[n] == Write(w)
    ensures w < |xs[n].workers| && w < |xs[n + 1].workers| && xs[n + 1].workers[w].phase.Finished?
    ensures var job := xs[r].workers[w].job;
            xs[n + 1].workers[w].phase.committed
            <==> job.hash !in xs[n].db.hashes
                 && CountOf(xs[n].db.bills, job.account) == CountOf(xs[r].db.bills, job.account)
    ensures !xs[n + 1].workers[w].phase.committed ==> xs[n + 1].db == xs[n].db
  {
    hide Told, Step, FreshValue;
    assert xs[r + 1] == Step(xs[r], Read(w)) && xs[n + 1] == Step(xs[n], Write(w));
    ReadTakesRow(xs[r], w);
    KeepsReading(opening, xs, events, r + 1, n, w);
    NoLostUpdate(opening, xs, events, r);
    NoLostUpdate(opening, xs, events, n);
    WriteOutcome(xs[n], w);
    VersionsOf(opening, xs[r], xs[r].workers[w].job.account);
    RowStays(opening, xs[n], w);
    VersionsOf(opening, xs[n], xs[r].workers[w].job.account);
  }

  lemma ReadTakesRow(x: World, w: nat)
    requires w < |x.workers| && x.workers[w].phase.Locked? && Step(x, Read(w)).workers[w].phase.Reading?
    ensures var job, read := x.workers[w].job, Step(x, Read(w)).workers[w].phase.asset;
            && job.account in x.db.assets && read == x.db.assets[job.account] && read.Of(job.token).Some?
            && |Step(x, Read(w)).workers| == |x.workers| && Step(x, Read(w)).workers[w].job == job
  {
  }

  lemma WriteOutcome(x: World, w: nat)
    requires w < |x.workers| && x.workers[w].phase.Reading? && x.workers[w].phase.asset.Of(x.workers[w].job.token).Some?
    ensures var x', job, read := Step(x, Write(w)), x.workers[w].job, x.workers[w].phase.asset;
            && |x'.workers| == |x.workers| && x'.workers[w].phase == Finished(Commit(x.db, job, read).Some?)
            && (Commit(x.db, job, read).None? ==> x'.db == x.db)
  {
  }

  lemma VersionsOf(opening: map<int, Asset>, x: World, account: int)
    requires Told(opening, x) && account in x.db.assets
    ensures account in opening
            && x.db.assets[account].version == opening[account].version + CountOf(x.db.bills, account)
  {
    assert BalanceTold(opening, x.db, account, Bnb);
  }

  lemma RowStays(opening: map<int, Asset>, x: World, w: nat)
    requires Told(opening, x) && w < |x.workers| && x.workers[w].phase.Reading?
    ensures x.workers[w].job.account in x.db.assets
  {
    hide BalanceTold, NoneTwice;
  }

  /** Until it writes, a worker goes on with what it read. */
  lemma {:induction false} KeepsReading(opening: map<int, Asset>, xs: seq<World>, events: seq<Event>, m: nat, n: nat,
                                        w: nat)
    requires History(opening, xs, events) && m <= n <= |events| && w < |xs[m].workers|
             && xs[m].workers[w].phase.Reading?
    requires forall i :: m <= i < n ==> events[i] != Write(w)
    ensures w < |xs[n].workers| && xs[n].workers[w] == xs[m].workers[w]
  {
    hide FreshValue, Opening, Commit, ReadAsset, Expire;
    if m < n {
      KeepsReading(opening, xs, events, m, n - 1, w);
      assert xs[n] == Step(xs[n - 1], events[n - 1]);
    }
  }

  // The locks.

  /** No two workers share a lock value. */
  predicate DistinctValues(x: World) {
    forall v, w :: 0 <= v < w < |x.workers| ==> x.workers[v].lockVal != x.workers[w].lockVal
  }

  lemma {:induction false} ValuesDistinct(opening: map<int, Asset>, xs: seq<World>, events: seq<Event>, n: nat)
    requires History(opening, xs, events) && n <= |events|
    ensures DistinctValues(xs[n])
  {
    hide Commit, ReadAsset, Expire, Opening, TryLock, Unlock, Renew;
    if n == 0 {
      assert Opening(opening, xs[0]) && xs[0].workers == [] by { FirstState(opening, xs, events); }
    } else {
      ValuesDistinct(opening, xs, events, n - 1);
      assert xs[n] == Step(xs[n - 1], events[n - 1]);
    }
  }

  lemma FirstState(opening: map<int, Asset>, xs: seq<World>, events: seq<Event>)
    requires History(opening, xs, events)
    ensures Opening(opening, xs[0]) && xs[0].workers == []
  {
  }

  /** Whether a step other than the passing of time takes away or prolongs a worker's key, it is a
      step of that worker: a worker whose key expired never touches its successor's. */
  lemma OnlyTheOwnerTouches(opening: map<int, Asset>, xs: seq<World>, events: seq<Event>, n: nat, w: nat)
    requires History(opening, xs, events) && n < |events| && w < |xs[n].workers|
    requires Owns(xs[n].locks, xs[n].workers[w].Key(), xs[n].workers[w].lockVal)
    requires !events[n].Tick? && events[n] != Release(w) && events[n] != Extend(w)
    ensures var key := xs[n].workers[w].Key(); key in xs[n + 1].locks && xs[n + 1].locks[key] == xs[n].locks[key]
  {
    hide Commit, ReadAsset, Expire, Opening, FreshValue;
    ValuesDistinct(opening, xs, events, n);
    assert xs[n + 1] == Step(xs[n], events[n]);
  }

  /** The seconds that pass in a stretch of a history. */
  function Elapsed(events: seq<Event>): nat {
    if events == [] then 0
    else Elapsed(events[..|events| - 1]) + if events[|events| - 1].Tick? then events[|events| - 1].seconds else 0
  }

  /** A worker that takes its key at step m owns it, so that nobody else does, for as long as its time
      is not over and it has not released it. */
  lemma {:induction false} LockLasts(opening: map<int, Asset>, xs: seq<World>, events: seq<Event>, m: nat, n: nat,
                                     w: nat)
    requires History(opening, xs, events) && m < n <= |events| && w < |xs[m].workers|
    requires events[m] == Try(w) && xs[m].workers[w].phase.Waiting? && xs[m].workers[w].Key() !in xs[m].locks
    requires forall i :: m < i < n ==> events[i] != Release(w)
    requires Elapsed(events[m + 1..n]) < ASSET_LOCK_TTL
    ensures w < |xs[n].workers| && xs[n].workers[w].Key() == xs[m].workers[w].Key()
            && xs[n].workers[w].lockVal == xs[m].workers[w].lockVal
    ensures Owns(xs[n].locks, xs[n].workers[w].Key(), xs[n].workers[w].lockVal)
    ensures xs[n].locks[xs[n].workers[w].Key()].ttl >= ASSET_LOCK_TTL - Elapsed(events[m + 1..n])
    ensures forall v :: 0 <= v < |xs[n].workers| && v != w ==>
            !Owns(xs[n].locks, xs[n].workers[w].Key(), xs[n].workers[v].lockVal)
  {
    hide Commit, ReadAsset, Opening, FreshValue, Elapsed;
    ValuesDistinct(opening, xs, events, n);
    if n == m + 1 {
      assert xs[n] == Step(xs[m], Try(w)) && events[n..n] == [];
      NoTime(events[n..n]);
    } else {
      TimePasses(events, m + 1, n - 1);
      LockLasts(opening, xs, events, m, n - 1, w);
      ValuesDistinct(opening, xs, events, n - 1);
      assert xs[n] == Step(xs[n - 1], events[n - 1]);
    }
  }

  lemma NoTime(events: seq<Event>)
    requires events == []
    ensures Elapsed(events) == 0
  {
  }

  lemma TimePasses(events: seq<Event>, m: nat, k: nat)
    requires m <= k < |events|
    ensures Elapsed(events[m..k + 1]) == Elapsed(events[m..k]) + if events[k].Tick? then events[k].seconds else 0
  {
    assert events[m..k + 1][..k - m] == events[m..k];
  }

  /** Locks are kept per token but rows per account: two workers can rightly hold their keys and have
      read the same row. The version check refuses the second; its row would have undone the first. */
  lemma VersionsKeepTokensApart(x: World, v: nat, w: nat)
    requires v < |x.workers| && w < |x.workers| && v != w && x.workers[v].phase.Reading? && x.workers[w].phase.Reading?
    requires Owns(x.locks, x.workers[v].Key(), x.workers[v].lockVal)
             && Owns(x.locks, x.workers[w].Key(), x.workers[w].lockVal)
    requires var a := x.workers[v].job.account;
             && a == x.workers[w].job.account && a in x.db.assets && x.workers[v].job.token != x.workers[w].job.token
             && x.workers[v].phase.asset == x.workers[w].phase.asset == x.db.assets[a]
             && x.db.assets[a].bnb.Some? && x.db.assets[a].mtk.Some?
    requires x.workers[v].job.hash !in x.db.hashes && x.workers[v].job.amount != 0
    ensures var x1 := Step(x, Write(v));
            var x2 := Step(x1, Write(w));
            && x1.workers[v].phase == Finished(true) && x2.workers[w].phase == Finished(false) && x2.db == x1.db
            && x.workers[w].phase.asset.Of(x.workers[v].job.token)
               != x1.db.assets[x.workers[v].job.account].Of(x.workers[v].job.token)
  {
    var x1 := Step(x, Write(v));
    assert x1.workers[w] == x.workers[w];
  }

  /** The shortest such history: two deposits to one account, one in each token, neither late nor
      expired. The first is credited, the second dropped. */
  lemma CollidingDeposits(opening: map<int, Asset>, j1: Job, j2: Job, v1: int, v2: int)
    returns (xs: seq<World>, events: seq<Event>)
    requires j1.account == j2.account && j1.account in opening && j1.token.Bnb? && j2.token.Mtk?
    requires opening[j1.account].bnb.Some? && opening[j1.account].mtk.Some? && j1.amount != 0 && v1 != v2
    ensures |xs| == |events| + 1 && History(opening, xs, events)
    ensures var x := xs[|events|];
            && |x.workers| == 2 && x.workers[0].job == j1 && x.workers[1].job == j2
            && Owns(x.locks, x.workers[0].Key(), v1) && Owns(x.locks, x.workers[1].Key(), v2)
            && x.workers[0].phase == Finished(true) && x.workers[1].phase == Finished(false)
            && x.db.hashes == [j1.hash] && j1.account in x.db.assets
            && x.db.assets[j1.account].mtk == opening[j1.account].mtk
  {
    hide Step, Told;
    var x0 := World(Tables(opening, [], []), map[], []);
    var x1 := Step(x0, Arrive(j1, v1));
    var x2 := Step(x1, Arrive(j2, v2));
    BothArrive(x0, j1, j2, v1, v2);
    var x6 := BothRead(opening, x2, j1, j2, v1, v2);
    var x3 := Step(x2, Try(0));
    var x4 := Step(x3, Try(1));
    var x5 := Step(x4, Read(0));
    var x7 := Step(x6, Write(0));
    var x8 := Step(x7, Write(1));
    xs := [x0, x1, x2, x3, x4, x5, x6, x7, x8];
    events := [Arrive(j1, v1), Arrive(j2, v2), Try(0), Try(1), Read(0), Read(1), Write(0), Write(1)];
    VersionsKeepTokensApart(x6, 0, 1);
    FirstWritten(x6, j1);
    WriteFrame(x6, 0);
    WriteFrame(x7, 1);
  }

  /** A write touches the tables and the phase of its worker only. */
  lemma WriteFrame(x: World, w: nat)
    requires w < |x.workers|
    ensures var x' := Step(x, Write(w));
            && x'.locks == x.locks && |x'.workers| == |x.workers|
            && forall v :: 0 <= v < |x.workers| ==>
                 x'.workers[v] == x.workers[v].(phase := x'.workers[v].phase)
                 && (v != w ==> x'.workers[v] == x.workers[v])
  {
    hide Commit;
  }

  lemma BothArrive(x: World, j1: Job, j2: Job, v1: int, v2: int)
    requires x.workers == []
    ensures Step(x, Arrive(j1, v1)) == x.(workers := [Worker(j1, v1, Waiting)])
    ensures Step(Step(x, Arrive(j1, v1)), Arrive(j2, v2))
            == x.(workers := [Worker(j1, v1, Waiting), Worker(j2, v2, Waiting)])
  {
    hide Commit, ReadAsset;
  }

  lemma BothRead(opening: map<int, Asset>, x2: World, j1: Job, j2: Job, v1: int, v2: int) returns (x6: World)
    requires x2 == World(Tables(opening, [], []), map[], [Worker(j1, v1, Waiting), Worker(j2, v2, Waiting)])
    requires j1.account == j2.account && j1.account in opening && j1.token.Bnb? && j2.token.Mtk?
    requires opening[j1.account].bnb.Some? && opening[j1.account].mtk.Some?
    ensures x6 == Step(Step(Step(Step(x2, Try(0)), Try(1)), Read(0)), Read(1))
    ensures var row := opening[j1.account];
            x6.db == x2.db && x6.workers == [Worker(j1, v1, Reading(row)), Worker(j2, v2, Reading(row))]
            && Owns(x6.locks, x6.workers[0].Key(), v1) && Owns(x6.locks, x6.workers[1].Key(), v2)
  {
    hide Commit;
    var x3 := Step(x2, Try(0));
    var x4 := Step(x3, Try(1));
    assert x4.workers == [Worker(j1, v1, Locked), Worker(j2, v2, Locked)];
    var x5 := Step(x4, Read(0));
    x6 := Step(x5, Read(1));
  }

  lemma FirstWritten(x: World, job: Job)
    requires |x.workers| > 0 && x.workers[0].job == job && x.workers[0].phase.Reading? && x.db.hashes == []
    requires job.account in x.db.assets && x.workers[0].phase.asset == x.db.assets[job.account]
    requires job.token.Bnb? && x.workers[0].phase.asset.bnb.Some?
    ensures var x' := Step(x, Write(0));
            && x'.db.hashes == [job.hash] && job.account in x'.db.assets
            && x'.db.assets[job.account].mtk == x.db.assets[job.account].mtk
            && x'.locks == x.locks && |x'.workers| == |x.workers|
            && forall w :: 0 < w < |x.workers| ==> x'.workers[w] == x.workers[w]
  {
  }
}
