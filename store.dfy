/**
 * The module's commands as methods on a store object whose key space and clock they update
 * step by step, each proved to make exactly the transition of `Guard`.
 */
module Server {
  import opened Common
  import opened LockName
  import opened Policy
  import opened Guard

  class Store {
    /** Every stored key with its value and absolute expiry; expired keys may linger here. */
    var entries: map<Bytes, Entry>
    /** The server clock in milliseconds. */
    var now: int

    /** The store as a value. */
    function Snapshot(): State
      reads this
    {
      State(entries, now)
    }

    constructor (initial: map<Bytes, Entry>, clock: int)
      ensures Snapshot() == State(initial, clock)
    {
      entries := initial;
      now := clock;
    }

    /** The clock moves forward by `dt` milliseconds. */
    method Tick(dt: nat)
      modifies this
      ensures Snapshot() == Advance(old(Snapshot()), dt)
    {
      now := now + dt;
    }

    /**
     * `TryAcquireLock`: if the lock key of `key` is empty, set it to "1", give it an expiry of
     * `lockExpireMs` and report success; otherwise change nothing.
     */
    method TryAcquireLock(key: Bytes, lockExpireMs: int) returns (acquired: bool)
      requires lockExpireMs >= 0
      modifies this
      ensures (Snapshot(), acquired) == Acquire(old(Snapshot()), key, lockExpireMs)
    {
      var lockKey := DeriveLockKey(key);
      acquired := false;
      if !Live(Snapshot(), lockKey) {
        // StringSetNX on an empty key succeeds: the value is written with no expiry ...
        entries := entries[lockKey := Entry(LockValue, None)];
        // ... and SetExpire then gives it one.
        entries := entries[lockKey := entries[lockKey].(expireAt := Some(now + lockExpireMs))];
        acquired := true;
        assert entries == old(entries)[lockKey := Entry(LockValue, Some(now + lockExpireMs))];
      }
    }

    /** `CacheGuardGetCommand` on a key and an already parsed grace period. */
    method GetCommand(key: Bytes, gracePeriodMs: int) returns (reply: Reply)
      modifies this
      ensures Outcome(Snapshot(), reply) == Get(old(Snapshot()), key, gracePeriodMs)
    {
      if gracePeriodMs < 0 {
        return Error(GraceError);
      }
      if !Live(Snapshot(), key) {
        // Key missing: the caller regenerates.
        return Null;
      }
      var ttl := Ttl(Snapshot(), key);
      var value := entries[key].value;
      if Classify(true, ttl, gracePeriodMs) == Fresh {
        return Bulk(value);
      }
      // Within the grace period (or past expiry): try to become the regenerator.
      var lockAcquired := TryAcquireLock(key, gracePeriodMs);
      if lockAcquired {
        reply := Null;
      } else {
        reply := Bulk(value);
      }
    }

    /** `CacheGuardSetCommand` on a key, a value and an already parsed expiry. */
    method SetCommand(key: Bytes, value: Bytes, expire: int) returns (reply: Reply)
      modifies this
      ensures Outcome(Snapshot(), reply) == Set(old(Snapshot()), key, value, expire)
    {
      if expire <= 0 {
        return Error(ExpireError);
      }
      // StringSet drops any previous expiry; SetExpire then sets the new one.
      entries := entries[key := Entry(value, None)];
      entries := entries[key := entries[key].(expireAt := Some(now + expire))];
      // Delete the regeneration lock to release the other callers.
      var lockKey := DeriveLockKey(key);
      entries := entries - {lockKey};
      reply := Simple("OK");
    }
  }

  /**
   * A client of the store: a set followed by two gets 950 ms later with a 100 ms grace period
   * gives one regenerate signal and then the value.
   */
  method GraceWindowClient(store: Store, key: Bytes, value: Bytes) returns (first: Reply, second: Reply)
    modifies store
    ensures first == Null && second == Bulk(value)
  {
    var ok := store.SetCommand(key, value, 1000);
    store.Tick(950);
    first := store.GetCommand(key, 100);
    second := store.GetCommand(key, 100);
    GraceScenario(old(store.Snapshot()), key, value);
  }
}
