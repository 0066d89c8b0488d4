/** The expiring lock as its methods change the shared key store. */
module LockManager {
  import opened Deposits

  class LockStore {
    var entries: Locks

    constructor ()
      ensures forall k :: k !in entries
    {
      entries := map[];
    }
  }

  class DistributedLock {
    const redis: LockStore
    const lockKey: LockKey
    const lockVal: int

    constructor (redis: LockStore, lockKey: LockKey, lockVal: int)
      ensures this.redis == redis && this.lockKey == lockKey && this.lockVal == lockVal
    {
      this.redis, this.lockKey, this.lockVal := redis, lockKey, lockVal;
    }

    /** SETNX with an expiry. */
    method TryLock() returns (ok: bool)
      modifies redis
      ensures ok <==> lockKey !in old(redis.entries)
      ensures redis.entries == Deposits.TryLock(old(redis.entries), lockKey, lockVal)
      ensures ok ==> Owns(redis.entries, lockKey, lockVal)
    {
      ok := lockKey !in redis.entries;
      if ok {
        redis.entries := redis.entries[lockKey := Entry(lockVal, ASSET_LOCK_TTL)];
      }
    }

    /** Tries until the deadline; `seen` is what others have made of the store by each try. */
    method Lock(seen: seq<Locks>) returns (ok: bool, tries: nat)
      modifies redis
      ensures ok <==> exists i :: 0 <= i < |seen| && lockKey !in seen[i]
      ensures ok ==> tries < |seen| && lockKey !in seen[tries] && forall i :: 0 <= i < tries ==> lockKey in seen[i]
      ensures ok ==> redis.entries == Deposits.TryLock(seen[tries], lockKey, lockVal)
      ensures !ok && seen != [] ==> redis.entries == seen[|seen| - 1]
    {
      tries, ok := 0, false;
      while tries < |seen|
        invariant tries <= |seen| && !ok
        invariant forall i :: 0 <= i < tries ==> lockKey in seen[i]
        invariant tries > 0 ==> redis.entries == seen[tries - 1]
      {
        redis.entries := seen[tries];
        ok := TryLock();
        if ok {
          return;
        }
        tries := tries + 1;
      }
    }

    /** The script deletes the key only if it still holds this lock's value. */
    method Unlock() returns (ok: bool)
      modifies redis
      ensures ok <==> Owns(old(redis.entries), lockKey, lockVal)
      ensures redis.entries == Deposits.Unlock(old(redis.entries), lockKey, lockVal)
      ensures forall k :: k in old(redis.entries) && old(redis.entries)[k].holder != lockVal ==>
        k in redis.entries && redis.entries[k] == old(redis.entries)[k]
    {
      ok := lockKey in redis.entries && redis.entries[lockKey].holder == lockVal;
      if ok {
        redis.entries := redis.entries - {lockKey};
      }
    }

    /** Likewise for its expiry. */
    method Renew() returns (ok: bool)
      modifies redis
      ensures ok <==> Owns(old(redis.entries), lockKey, lockVal)
      ensures redis.entries == Deposits.Renew(old(redis.entries), lockKey, lockVal)
      ensures forall k :: k in old(redis.entries) && old(redis.entries)[k].holder != lockVal ==>
        k in redis.entries && redis.entries[k] == old(redis.entries)[k]
    {
      ok := lockKey in redis.entries && redis.entries[lockKey].holder == lockVal;
      if ok {
        redis.entries := redis.entries[lockKey := Entry(lockVal, ASSET_LOCK_TTL)];
      }
    }
  }
}
