/**
 * The two commands as atomic transitions of an abstract store.
 *
 * A Redis command runs alone on the server thread, so each command is one function from the
 * store before it to the store after it and the reply. Time is the integer `now` in
 * milliseconds; a key is present while it has no expiry or `now` has not passed its expiry.
 */
module Guard {
  import opened Common
  import opened LockName
  import opened Policy

  /** A string value and its absolute expiry time in milliseconds, if any. */
  datatype Entry = Entry(value: Bytes, expireAt: Option<int>)

  datatype State = State(entries: map<Bytes, Entry>, now: int)

  /** The replies the commands send: a null bulk, a bulk string, a simple string or an error. */
  datatype Reply = Null | Bulk(value: Bytes) | Simple(status: string) | Error(message: string)

  datatype Outcome = Outcome(state: State, reply: Reply)

  /** The lock's content, `CreateStringFromLongLong(ctx, 1)`: the string "1". */
  const LockValue: Bytes := [0x31]

  const GraceError := "ERR invalid grace period"
  const ExpireError := "ERR invalid expire time"

  /** The key is present in the store (its type is not EMPTY): stored and not yet expired. */
  predicate Live(s: State, k: Bytes)
  {
    k in s.entries && (s.entries[k].expireAt.None? || s.now <= s.entries[k].expireAt.value)
  }

  /** `GetExpire`: the remaining time to live in milliseconds, `None` for no expiry. */
  function Ttl(s: State, k: Bytes): (t: Option<int>)
    requires k in s.entries
  {
    match s.entries[k].expireAt
    case None => None
    case Some(t) => Some(t - s.now)
  }

  /** The entry at `key` is present and its remaining time is within the grace period. */
  predicate InGraceAt(s: State, key: Bytes, grace: int)
  {
    Live(s, key) && Classify(true, Ttl(s, key), grace) == InGrace
  }

  /** Both maps hold the same thing at `k`, or neither holds `k`. */
  predicate SameAt(m: map<Bytes, Entry>, m': map<Bytes, Entry>, k: Bytes)
  {
    (k in m <==> k in m') && (k in m ==> m[k] == m'[k])
  }

  /** `TryAcquireLock` on the lock key `lockName`: set it to "1" expiring in `ms` if it is absent. */
  function AcquireAt(s: State, lockName: Bytes, ms: int): (r: (State, bool))
  {
    if Live(s, lockName) then (s, false)
    else (s.(entries := s.entries[lockName := Entry(LockValue, Some(s.now + ms))]), true)
  }

  /** `cache.guard.get` for a key whose regeneration lock is stored under `lockName`. */
  function GetAt(s: State, key: Bytes, lockName: Bytes, grace: int): (o: Outcome)
  {
    if grace < 0 then Outcome(s, Error(GraceError))
    else if !Live(s, key) then Outcome(s, Null)
    else
      var value := s.entries[key].value;
      match Classify(true, Ttl(s, key), grace)
      case Fresh => Outcome(s, Bulk(value))
      case _ =>
        var (s', acquired) := AcquireAt(s, lockName, grace);
        Outcome(s', if acquired then Null else Bulk(value))
  }

  /** `cache.guard.set` for a key whose regeneration lock is stored under `lockName`. */
  function SetAt(s: State, key: Bytes, lockName: Bytes, value: Bytes, expire: int): (o: Outcome)
  {
    if expire <= 0 then Outcome(s, Error(ExpireError))
    else
      var written := s.entries[key := Entry(value, Some(s.now + expire))];
      Outcome(s.(entries := written - {lockName}), Simple("OK"))
  }

  /** `TryAcquireLock(key, ms)` with the lock key `key ++ ":regen_lock"`. */
  function Acquire(s: State, key: Bytes, ms: int): (r: (State, bool))
  {
    AcquireAt(s, LockKey(key), ms)
  }

  /** `cache.guard.get <key> <grace>` on an already parsed grace period, with the intended lock key. */
  function Get(s: State, key: Bytes, grace: int): (o: Outcome)
  {
    GetAt(s, key, LockKey(key), grace)
  }

  /** `cache.guard.set <key> <value> <expire>` on an already parsed expiry, with the intended lock key. */
  function Set(s: State, key: Bytes, value: Bytes, expire: int): (o: Outcome)
  {
    SetAt(s, key, LockKey(key), value, expire)
  }

  /** The get command as written: its lock name is cut at the key's first zero byte. */
  function GetAsWritten(s: State, key: Bytes, grace: int): (o: Outcome)
  {
    GetAt(s, key, StrlenLockName(key), grace)
  }

  /** The set command as written: it deletes the lock name cut at the key's first zero byte. */
  function SetAsWritten(s: State, key: Bytes, value: Bytes, expire: int): (o: Outcome)
  {
    SetAt(s, key, StrlenLockName(key), value, expire)
  }

  /** Time passes; nothing else changes. */
  function Advance(s: State, dt: nat): (s': State)
  {
    s.(now := s.now + dt)
  }

  /** The replies of `n` get commands on `key`, one after the other. */
  function GetRun(s: State, key: Bytes, grace: int, n: nat): (replies: seq<Reply>)
    decreases n
  {
    if n == 0 then []
    else
      var o := Get(s, key, grace);
      [o.reply] + GetRun(o.state, key, grace, n - 1)
  }

  // ---- Input rejection ----

  /** A negative grace period is refused before the store is touched. */
  lemma GetRejectsNegativeGrace(s: State, key: Bytes, grace: int)
    requires grace < 0
    ensures Get(s, key, grace) == Outcome(s, Error(GraceError))
  {
  }

  /** An expiry that is not positive is refused before the store is touched. */
  lemma SetRejectsNonPositiveExpire(s: State, key: Bytes, value: Bytes, expire: int)
    requires expire <= 0
    ensures Set(s, key, value, expire) == Outcome(s, Error(ExpireError))
  {
  }

  // ---- Get ----

  /** A missing key means regenerate, and nothing in the store changes. */
  lemma GetMissingKey(s: State, key: Bytes, grace: int)
    requires grace >= 0 && !Live(s, key)
    ensures Get(s, key, grace) == Outcome(s, Null)
  {
  }

  /** A key with no expiry, or more time left than the grace period, is served as is and no lock is made. */
  lemma GetFreshValue(s: State, key: Bytes, grace: int)
    requires grace >= 0 && Live(s, key)
    requires s.entries[key].expireAt.None? || s.entries[key].expireAt.value - s.now > grace
    ensures Get(s, key, grace) == Outcome(s, Bulk(s.entries[key].value))
  {
  }

  /**
   * In grace with no lock present: the caller is told to regenerate, and afterwards the lock
   * holds "1" and expires `grace` milliseconds from now; nothing else changes.
   */
  lemma GetAcquiresLock(s: State, key: Bytes, grace: int)
    requires grace >= 0 && InGraceAt(s, key, grace) && !Live(s, LockKey(key))
    ensures Get(s, key, grace).reply == Null
    ensures Get(s, key, grace).state
         == s.(entries := s.entries[LockKey(key) := Entry(LockValue, Some(s.now + grace))])
  {
  }

  /** In grace with the lock present: the stale value is served and the lock is left as it is. */
  lemma GetServesStale(s: State, key: Bytes, grace: int)
    requires grace >= 0 && InGraceAt(s, key, grace) && Live(s, LockKey(key))
    ensures Get(s, key, grace) == Outcome(s, Bulk(s.entries[key].value))
  {
  }

  /**
   * Get never overwrites a present key (in particular an existing lock keeps its value and
   * expiry), never removes anything, and touches no key but the lock key of `key`.
   */
  lemma GetFrame(s: State, key: Bytes, grace: int)
    ensures Get(s, key, grace).state.now == s.now
    ensures forall k :: Live(s, k) ==> SameAt(s.entries, Get(s, key, grace).state.entries, k)
    ensures forall k :: k != LockKey(key) ==> SameAt(s.entries, Get(s, key, grace).state.entries, k)
  {
  }

  /** The in-grace decision in terms of time: it starts once `now` reaches the expiry minus the grace period. */
  lemma GraceWindowOpens(s: State, key: Bytes, grace: int, expireAt: int)
    requires Live(s, key) && s.entries[key].expireAt == Some(expireAt)
    ensures InGraceAt(s, key, grace) <==> s.now >= expireAt - grace
  {
  }

  /** A lock taken by Get lives exactly `grace` milliseconds: after that a new Get can take it again. */
  lemma AcquiredLockLifetime(s: State, key: Bytes, grace: int, dt: nat)
    requires grace >= 0 && InGraceAt(s, key, grace) && !Live(s, LockKey(key))
    ensures Live(Advance(Get(s, key, grace).state, dt), LockKey(key)) <==> dt <= grace
  {
    GetAcquiresLock(s, key, grace);
  }

  /** While the lock is present, every get in grace is served the stale value and the store stays put. */
  lemma {:induction false} StaleRun(s: State, key: Bytes, grace: int, n: nat)
    requires grace >= 0 && InGraceAt(s, key, grace) && Live(s, LockKey(key))
    ensures GetRun(s, key, grace, n) == seq(n, _ => Bulk(s.entries[key].value))
  {
    if n > 0 {
      GetServesStale(s, key, grace);
      StaleRun(s, key, grace, n - 1);
    }
  }

  /** Of `n` gets in a row in grace with no lock present, exactly the first is told to regenerate. */
  lemma OnlyFirstRegenerates(s: State, key: Bytes, grace: int, n: nat)
    requires grace >= 0 && InGraceAt(s, key, grace) && !Live(s, LockKey(key))
    requires n >= 1
    ensures GetRun(s, key, grace, n) == [Null] + seq(n - 1, _ => Bulk(s.entries[key].value))
  {
    var s1 := Get(s, key, grace).state;
    GetAcquiresLock(s, key, grace);
    LockKeyDiffers(key);
    assert s1.entries[key] == s.entries[key];
    StaleRun(s1, key, grace, n - 1);
  }

  // ---- Set ----

  /**
   * Set stores the value with the given expiry, removes the key's lock (the reply is OK whether
   * or not a lock existed) and changes no other key.
   */
  lemma SetEffect(s: State, key: Bytes, value: Bytes, expire: int)
    requires expire > 0
    ensures var o := Set(s, key, value, expire);
            && o.reply == Simple("OK")
            && o.state.now == s.now
            && key in o.state.entries && o.state.entries[key] == Entry(value, Some(s.now + expire))
            && LockKey(key) !in o.state.entries
            && forall k :: k != key && k != LockKey(key) ==> SameAt(s.entries, o.state.entries, k)
  {
  }

  /** A get right after a set, with a grace period shorter than the expiry, returns the value just set. */
  lemma SetThenGet(s: State, key: Bytes, value: Bytes, expire: int, grace: int)
    requires 0 <= grace < expire
    ensures var s' := Set(s, key, value, expire).state;
            Get(s', key, grace) == Outcome(s', Bulk(value))
  {
  }

  /**
   * Set a value for 1000 ms, let 950 ms pass, and get twice with a grace period of 100 ms:
   * the first caller regenerates, the second is served the value.
   */
  lemma GraceScenario(s: State, key: Bytes, value: Bytes)
    ensures var s1 := Advance(Set(s, key, value, 1000).state, 950);
            GetRun(s1, key, 100, 2) == [Null, Bulk(value)]
  {
    var s1 := Advance(Set(s, key, value, 1000).state, 950);
    SetEffect(s, key, value, 1000);
    assert InGraceAt(s1, key, 100);
    OnlyFirstRegenerates(s1, key, 100, 2);
  }

  // ---- The commands as written ----

  /** For a key without a zero byte, the commands as written make exactly the transitions above. */
  lemma AsWrittenAgreesOnNulFree(s: State, key: Bytes, value: Bytes, grace: int, expire: int)
    requires NulFree(key)
    ensures GetAsWritten(s, key, grace) == Get(s, key, grace)
    ensures SetAsWritten(s, key, value, expire) == Set(s, key, value, expire)
  {
    NulFreeKeysAgree(key);
  }

  /** As written, a set on "a\0b" deletes the unrelated cache key "a", its truncated lock name. */
  lemma SetAsWrittenDeletesPlainKey(s: State, value: Bytes, expire: int)
    requires [0x61] in s.entries && expire > 0
    ensures Set(s, [0x61, 0x00, 0x62], value, expire).state.entries[[0x61]] == s.entries[[0x61]]
    ensures [0x61] !in SetAsWritten(s, [0x61, 0x00, 0x62], value, expire).state.entries
  {
    TruncatedAtNul([0x61, 0x00, 0x62], 1);
    assert [0x61, 0x00, 0x62][..1] == [0x61];
    assert LockKey([0x61, 0x00, 0x62]) != [0x61];
  }

  /**
   * As written, while the plain key "a" is present, a get on "a\0b" in grace never takes a lock:
   * every caller is served the stale value and none is told to regenerate.
   */
  lemma GetAsWrittenNeverRegenerates(s: State, grace: int)
    requires grace >= 0 && InGraceAt(s, [0x61, 0x00, 0x62], grace) && Live(s, [0x61])
    ensures GetAsWritten(s, [0x61, 0x00, 0x62], grace) == Outcome(s, Bulk(s.entries[[0x61, 0x00, 0x62]].value))
  {
    TruncatedAtNul([0x61, 0x00, 0x62], 1);
    assert [0x61, 0x00, 0x62][..1] == [0x61];
  }

  /** As written, a set on any key with a zero byte deletes the plain key made of the bytes before it. */
  lemma SetAsWrittenDeletesPrefix(s: State, key: Bytes, value: Bytes, expire: int, i: nat)
    requires i < |key| && key[i] == 0
    requires forall j :: 0 <= j < i ==> key[j] != 0
    requires expire > 0
    ensures key[..i] !in SetAsWritten(s, key, value, expire).state.entries
  {
    TruncatedAtNul(key, i);
  }

  /**
   * As written, a get in grace on "a\0b" while "a" is absent writes the lock "1" under the plain
   * key "a"; a later get on "a" with a shorter grace period serves that "1" as cached data.
   */
  lemma GetAsWrittenPlantsLockAsValue(s: State, grace: int, grace': int)
    requires 0 <= grace' < grace && InGraceAt(s, [0x61, 0x00, 0x62], grace) && !Live(s, [0x61])
    ensures var first := GetAsWritten(s, [0x61, 0x00, 0x62], grace);
            && first.reply == Null
            && [0x61] in first.state.entries
            && first.state.entries[[0x61]] == Entry(LockValue, Some(s.now + grace))
            && GetAsWritten(first.state, [0x61], grace').reply == Bulk(LockValue)
  {
    TruncatedAtNul([0x61, 0x00, 0x62], 1);
    assert [0x61, 0x00, 0x62][..1] == [0x61];
  }
}
