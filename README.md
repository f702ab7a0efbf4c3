# Cache-stampede guard: a Dafny model

This project models `cache-anit-tampede.c`, a Redis module that guards a cache against
stampedes. It adds two commands:

- `cache.guard.get <key> <grace_ms>` serves a cached value while its remaining time to live
  is above the grace period. Inside the grace window, exactly one caller wins the
  regeneration lock `<key>:regen_lock` and gets a null reply ("regenerate"). Every other
  caller is served the stale value.
- `cache.guard.set <key> <value> <expire_ms>` stores the fresh value with its expiry and
  deletes the key's regeneration lock.

Redis runs each module command alone on its server thread, so each command is one atomic
transition of an abstract store. The store is a map from byte-string keys to entries (a value
and an optional absolute expiry in milliseconds) plus an integer clock `now`. A key is
present while it has no expiry or `now` has not passed its expiry; this is Redis's own rule
for when a key has expired.

Files:

- `common.dfy` (module `Common`): bytes, byte strings, `Option`.
- `lock_name.dfy` (module `LockName`): how the lock name is built. It fills a buffer of
  `len + sizeof(":regen_lock")` bytes with two copy loops and a final zero byte, then runs a
  `strlen` loop. There is one version as the source writes it and one as the source
  evidently intends (see Findings). Lemmas cover the name's shape, injectivity and the
  truncation at a zero byte.
- `policy.dfy` (module `Policy`): the pure grace-period decision `Classify`, taken from the
  branch at `cache-anit-tampede.c:41-55`.
- `guard.dfy` (module `Guard`): each command as a function from a store state to a new state
  and a reply. The lemmas here state what the commands promise (see the table).
- `store.dfy` (module `Server`): the class `Store`, with fields `entries` and `now`. Its
  methods `TryAcquireLock`, `GetCommand` and `SetCommand` update the store step by step, in
  the same order as the source: `StringSetNX` then `SetExpire`, `StringSet` then `SetExpire`,
  then `DeleteKey`. Each method is proved to make exactly the transition that `Guard` defines.

Modelling choices, following what the code does:

- An entry whose remaining time is at or below the grace period is "in grace", whatever
  that remaining time is. A key past its expiry is absent, because Redis treats it so.
- The lock lives for the caller's grace period.
- The grace period is refused only when negative, and the expiry only when it is not
  positive. No other argument is checked.
- The commands in `Guard.Get`, `Guard.Set` and in `Server.Store` use the corrected lock
  name `key ++ ":regen_lock"`. `Guard.GetAsWritten` and `Guard.SetAsWritten` are the same
  commands with the name cut at the key's first zero byte, as the code builds it. The two
  versions agree on every key without a zero byte (`Guard.AsWrittenAgreesOnNulFree`).
- Even the corrected lock name is a legal cache key: "x:regen_lock" is both the lock of "x"
  and an ordinary key. A set on "x" therefore deletes a cache entry stored under
  "x:regen_lock". `Guard.SetEffect` leaves that key out of its "unchanged" clause.

## Model

| member | source | states |
|---|---|---|
| `LockName.StrLen` | cache-anit-tampede.c:15 | C's `strlen`: the number of bytes before the first zero byte; its contract says it is at most the length, and `StrLenAtFirstNul` says it stops at the first zero byte |
| `LockName.StrlenLockName` | cache-anit-tampede.c:10-15 | definition of the lock name as the code builds it (the filled buffer cut at `strlen`); no contract of its own, its properties are `NulFreeKeysAgree`, `TruncatedAtNul`, `StrlenLockNamesCollide` and `StrlenLockNameInjectiveOnNulFree` |
| `LockName.LockKey` | cache-anit-tampede.c:10-12 | the lock name has length `len + 11`, begins with the key, and ends with the suffix ":regen_lock" |
| `LockName.CopyInto` | cache-anit-tampede.c:11-12 | `memcpy` puts `src` at offset `off` and changes no other byte of the buffer; every write index is below the buffer's length |
| `LockName.FillLockBuffer` | cache-anit-tampede.c:10-13 | the buffer has `len + sizeof(REGEN_LOCK_SUFFIX)` bytes and holds the key, then the suffix, then a zero byte; all writes are inside it |
| `LockName.StrLenAtFirstNul` | cache-anit-tampede.c:15 | `strlen` equals the index of the first zero byte |
| `LockName.CStrLen` | cache-anit-tampede.c:15 | the `strlen` loop stops at the first zero byte of a buffer that holds one, and agrees with the specification `StrLen` |
| `LockName.DeriveStrlenLockName` | cache-anit-tampede.c:10-15 | the name the source builds is the filled buffer cut at its first zero byte |
| `LockName.DeriveLockKey` | cache-anit-tampede.c:91-96 | corrected derivation (see Findings): the same buffer fill, but the name takes the buffer's first `len + 11` bytes instead of `strlen` of them, giving `key ++ ":regen_lock"`; the get side and the set side both call this one method, so the two copies agree |
| `LockName.NulFreeKeysAgree` | cache-anit-tampede.c:10-15 | for a key without a zero byte, the source's `strlen`-based name equals `key ++ ":regen_lock"` |
| `LockName.TruncatedAtNul` | cache-anit-tampede.c:15 | for a key whose first zero byte is at index `i`, the source's lock name is the first `i` bytes of the key |
| `LockName.StrlenLockNamesCollide` | cache-anit-tampede.c:15 | as written, the keys "a\0b" and "a\0c" share the lock name "a", which is a plain key and not "a\0b:regen_lock" |
| `LockName.LockKeyInjective` | cache-anit-tampede.c:10-15 | corrected derivation: distinct keys have distinct lock keys `key ++ ":regen_lock"` (the code's own derivation is not injective, see `StrlenLockNamesCollide`) |
| `LockName.StrlenLockNameInjectiveOnNulFree` | cache-anit-tampede.c:10-15 | the code's own `strlen`-based derivation gives distinct lock names to distinct keys that contain no zero byte |
| `LockName.LockKeyDiffers` | cache-anit-tampede.c:10-12 | a key is never its own lock key |
| `Policy.Classify` | cache-anit-tampede.c:41-55 | definition of the get decision (absent, fresh when there is no expiry or `ttl > grace`, otherwise in grace); no contract of its own, its properties are the `Policy` lemmas and `Guard.GraceWindowOpens` |
| `Policy.BoundaryIsInGrace` | cache-anit-tampede.c:51 | a remaining time equal to the grace period is in grace; one millisecond more is fresh |
| `Policy.InGraceIsMonotone` | cache-anit-tampede.c:51 | an in-grace entry stays in grace when its remaining time shrinks or the grace period grows |
| `Guard.Live` | cache-anit-tampede.c:41 | definition of "the key's type is not EMPTY" (lines 19 and 41): stored and, if it has an expiry, `now <= expireAt`; no contract of its own |
| `Guard.Ttl` | cache-anit-tampede.c:47 | definition of `GetExpire`: `expireAt - now`, or no expiry; no contract of its own |
| `Guard.AcquireAt` | cache-anit-tampede.c:18-27 | definition of the lock step on a given lock name: set "1" expiring in `ms` if the name is not present, and report whether it did; no contract of its own, its properties are `GetAcquiresLock`, `GetServesStale`, `GetFrame` and `AcquiredLockLifetime` |
| `Guard.Acquire` | cache-anit-tampede.c:6-28 | definition of `TryAcquireLock` with the corrected lock name; no contract of its own, `Server.Store.TryAcquireLock` is proved to make this transition |
| `Guard.GetAt` | cache-anit-tampede.c:37-68 | definition of the get command for a given lock name; no contract of its own, its properties are the `Guard.Get*` lemmas |
| `Guard.Get` | cache-anit-tampede.c:30-69 | definition of the get command with the corrected lock name; no contract of its own, its properties are the `Guard.Get*`, `StaleRun` and `OnlyFirstRegenerates` lemmas |
| `Guard.SetAt` | cache-anit-tampede.c:80-101 | definition of the set command for a given lock name; no contract of its own, its properties are `SetEffect` and `SetThenGet` |
| `Guard.Set` | cache-anit-tampede.c:71-102 | definition of the set command with the corrected lock name; no contract of its own, its properties are `SetRejectsNonPositiveExpire`, `SetEffect` and `SetThenGet` |
| `Guard.GetAsWritten` | cache-anit-tampede.c:15 | definition of the get command with the code's `strlen`-cut lock name; no contract of its own, its properties are `AsWrittenAgreesOnNulFree`, `GetAsWrittenNeverRegenerates` and `GetAsWrittenPlantsLockAsValue` |
| `Guard.SetAsWritten` | cache-anit-tampede.c:96 | definition of the set command with the code's `strlen`-cut lock name; no contract of its own, its properties are `AsWrittenAgreesOnNulFree`, `SetAsWrittenDeletesPlainKey` and `SetAsWrittenDeletesPrefix` |
| `Guard.GetRejectsNegativeGrace` | cache-anit-tampede.c:37-38 | a negative grace period gives the error "ERR invalid grace period" and leaves the store unchanged |
| `Guard.SetRejectsNonPositiveExpire` | cache-anit-tampede.c:80-81 | an expiry `<= 0` gives the error "ERR invalid expire time" and leaves the store unchanged |
| `Guard.GetMissingKey` | cache-anit-tampede.c:40-45 | an absent key gives a null reply (regenerate) and leaves the store unchanged, every lock key included |
| `Guard.GetFreshValue` | cache-anit-tampede.c:47-55 | a key with no expiry, or with remaining time above the grace period, gives exactly its stored value and creates no lock |
| `Guard.GetAcquiresLock` | cache-anit-tampede.c:57-63 | in grace with no lock present: a null reply, and afterwards the lock key holds "1" with expiry `now + grace`; nothing else changes |
| `Guard.GetServesStale` | cache-anit-tampede.c:64-67 | in grace with the lock present: the stale value is served and the store, including the lock's value and expiry, is unchanged |
| `Guard.GetFrame` | cache-anit-tampede.c:30-69 | get does not move the clock, never overwrites or removes a present key, and touches no key other than that key's lock key |
| `Guard.GraceWindowOpens` | cache-anit-tampede.c:47-51 | for an entry with an expiry, get treats it as in grace exactly when `now >= expireAt - grace` |
| `Guard.AcquiredLockLifetime` | cache-anit-tampede.c:19-23 | a lock taken by get is present for exactly `grace` milliseconds afterwards (both directions) |
| `Guard.StaleRun` | cache-anit-tampede.c:64-67 | while the lock is present, any number of gets in grace all get the stale value |
| `Guard.OnlyFirstRegenerates` | cache-anit-tampede.c:57-67 | of `n >= 1` gets in a row in grace with no lock at first, exactly the first gets null and the rest get the stored value; for `n = 2`: null, then the old value |
| `Guard.SetEffect` | cache-anit-tampede.c:83-101 | set with `expire > 0` replies OK whether or not a lock existed; the key maps to the value with expiry `now + expire`; its lock key is absent; every other key is unchanged |
| `Guard.SetThenGet` | cache-anit-tampede.c:84-85 | right after a set, a get with `0 <= grace < expire` returns the value just set |
| `Guard.GraceScenario` | cache-anit-tampede.c:51-67 | set for 1000 ms, wait 950 ms, then two gets with grace 100: null, then the value |
| `Guard.AsWrittenAgreesOnNulFree` | cache-anit-tampede.c:15 | for a key without a zero byte, get and set with the code's `strlen`-cut lock name make exactly the same transitions and replies as with `key ++ ":regen_lock"`, so every lemma above holds of the code for such keys |
| `Guard.SetAsWrittenDeletesPlainKey` | cache-anit-tampede.c:96-98 | as written, a set on "a\0b" deletes the unrelated cache key "a"; with the corrected name that key is kept |
| `Guard.GetAsWrittenNeverRegenerates` | cache-anit-tampede.c:15-24 | as written, while the plain key "a" is present, a get on "a\0b" in grace takes no lock and serves the stale value, so no caller is told to regenerate |
| `Guard.SetAsWrittenDeletesPrefix` | cache-anit-tampede.c:96-98 | as written, a set on any key whose first zero byte is at index `i` deletes the plain key made of its first `i` bytes |
| `Guard.GetAsWrittenPlantsLockAsValue` | cache-anit-tampede.c:15-23 | as written, a get in grace on "a\0b" while "a" is absent replies null and writes the lock "1", expiring at `now + grace`, under the plain key "a"; a later get on "a" with a shorter grace period is served "1" as cached data |
| `Server.Store.TryAcquireLock` | cache-anit-tampede.c:6-28 | if the lock key is empty, it is set to "1" with expiry `now + lockExpireMs` and the call reports success; otherwise the store is unchanged and the call reports failure |
| `Server.Store.GetCommand` | cache-anit-tampede.c:30-69 | the store and the reply after the command are exactly `Guard.Get` of the store before it |
| `Server.Store.SetCommand` | cache-anit-tampede.c:71-102 | the store and the reply after the command are exactly `Guard.Set` of the store before it |
| `Server.GraceWindowClient` | cache-anit-tampede.c:58-67 | a client calling the methods: set, 950 ms pass, and two gets with grace 100 give null, then the value |

## Left out

- Redis module plumbing is left out, because these are foreign calls with no logic of their
  own: `OpenKey`/`CloseKey`, `AutoMemory`, the arity checks, and command registration in
  `RedisModule_OnLoad` (lines 104-115). Replies are the datatype `Guard.Reply`.
- Argument parsing with `RedisModule_StringToLongLong` is a foreign call. The grace period
  and the expiry come in as parsed integers. A non-numeric argument, which gets the same
  error reply, is not modelled.
- 64-bit arithmetic is not modelled: integers are unbounded, so `now + expire` cannot
  overflow the way `long long` milliseconds could.
- How Redis purges expired keys (lazily or actively) is not modelled. An expired entry can
  stay in the map, but every command treats it as absent.
- Store-failure paths whose return codes are ignored are left out, as there is no behaviour
  to state: `SetExpire` (lines 21 and 85), `StringSet` (line 84) and `DeleteKey` (line 98).
- `StringSetNX` on an empty lock key is assumed to succeed. Its result is checked at line 20,
  and a failure would leave `acquired` at 0, so get would serve the stale value (lines
  64-67). That branch is not modelled, because a set-if-absent on an empty key succeeds.
- Keys holding a non-string type are left out: `StringGet` at line 49, and `StringSet` on
  such a key.
- Concurrency is left out because Redis runs each command on a single thread. Each command
  is one step. A "concurrent" burst of gets is modelled as a run of gets in a row
  (`Guard.GetRun`).
- Server.Store.TryAcquireLock: requires `lockExpireMs >= 0`, which its only caller
  guarantees (line 37 refuses negative grace periods). What `SetExpire` does with a negative
  expiry is not modelled.
- Server.Store.TryAcquireLock, Server.Store.GetCommand and Server.Store.SetCommand: derive
  the lock key with `LockName.DeriveLockKey`, the corrected name, for every key. For a key
  containing a zero byte they do not reproduce the code's truncated name. That behaviour is
  modelled only by the functions `Guard.GetAsWritten` and `Guard.SetAsWritten` (see
  Findings). For zero-free keys the two agree (`Guard.AsWrittenAgreesOnNulFree`).
- `TryAcquireLock` returns a `bool`, where the source returns the `int` values 1 and 0.

## Findings

| source | as written | input that shows it | evidently intended | confidence | as-written member | corrected member |
|---|---|---|---|---|---|---|
| cache-anit-tampede.c:15 | the lock key is created with `strlen(lockName)` bytes, so the name stops at the first zero byte of the key (the same goes for line 96) | key bytes `61 00 62` ("a\0b"): the lock name is "a". "a\0c" gets the same name, and "a" is an unrelated ordinary key, which a set on "a\0b" deletes. A get in grace on "a\0b" while "a" is absent writes the lock "1" under "a", and a later get on "a" serves "1" as cached data | the full `len + 11` bytes, `key ++ ":regen_lock"`, since Redis keys are binary-safe and the buffer is built with the key's length | high; not executed | `Guard.SetAsWrittenDeletesPlainKey` | `LockName.DeriveLockKey` |
