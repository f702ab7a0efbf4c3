/**
 * Derivation of a cache key's regeneration-lock name.
 *
 * The module fills a buffer of `|key| + 12` bytes with the key, the 11 bytes of the
 * suffix ":regen_lock" and a terminating zero byte, exactly as the two copies of the
 * derivation in the command handlers do. The handlers then turn the buffer into a store
 * key of `strlen(buffer)` bytes; `StrlenLockName` models that step as written, and
 * `LockKey` models the evidently intended one (the full `|key| + 11` bytes).
 */
module LockName {
  import opened Common

  /** The bytes of ":regen_lock". */
  const Suffix: Bytes := [0x3A, 0x72, 0x65, 0x67, 0x65, 0x6E, 0x5F, 0x6C, 0x6F, 0x63, 0x6B]

  /** `sizeof(REGEN_LOCK_SUFFIX)`: the suffix and its terminating zero byte. */
  const SuffixSize: nat := 12

  /** What the buffer holds once it is filled. */
  function Buffer(key: Bytes): (b: Bytes)
  {
    key + Suffix + [0]
  }

  /** C's `strlen`: the number of bytes before the first zero byte (all of them if there is none). */
  function StrLen(s: Bytes): (n: nat)
    ensures n <= |s|
  {
    if |s| == 0 || s[0] == 0 then 0 else 1 + StrLen(s[1..])
  }

  /** The lock name as the source builds it: the buffer cut at its first zero byte. */
  function StrlenLockName(key: Bytes): (name: Bytes)
  {
    var b := Buffer(key);
    b[..StrLen(b)]
  }

  /** The lock name the derivation is evidently meant to produce: the key followed by the suffix. */
  function LockKey(key: Bytes): (r: Bytes)
    ensures |r| == |key| + SuffixSize - 1
    ensures r[..|key|] == key && r[|key|..] == Suffix
  {
    key + Suffix
  }

  lemma SuffixNulFree()
    ensures NulFree(Suffix) && |Suffix| == SuffixSize - 1
  {
  }

  /** `strlen` stops at the first zero byte and counts everything before it. */
  lemma {:induction false} StrLenAtFirstNul(s: Bytes, n: nat)
    requires n < |s| && s[n] == 0
    requires forall j :: 0 <= j < n ==> s[j] != 0
    ensures StrLen(s) == n
  {
    if n > 0 {
      assert s[0] != 0;
      StrLenAtFirstNul(s[1..], n - 1);
    }
  }

  /** For a key without a zero byte, the source's derivation gives the intended name. */
  lemma NulFreeKeysAgree(key: Bytes)
    requires NulFree(key)
    ensures StrlenLockName(key) == LockKey(key)
  {
    var b := Buffer(key);
    SuffixNulFree();
    forall j | 0 <= j < |key| + |Suffix|
      ensures b[j] != 0
    {
      if j >= |key| { assert b[j] == Suffix[j - |key|]; }
    }
    StrLenAtFirstNul(b, |key| + |Suffix|);
    assert b[..|key| + |Suffix|] == key + Suffix;
  }

  /** For a key with a zero byte at `i` (and none before), the source's lock name is the key cut at `i`. */
  lemma TruncatedAtNul(key: Bytes, i: nat)
    requires i < |key| && key[i] == 0
    requires forall j :: 0 <= j < i ==> key[j] != 0
    ensures StrlenLockName(key) == key[..i]
  {
    var b := Buffer(key);
    assert b[i] == 0;
    StrLenAtFirstNul(b, i);
    assert b[..i] == key[..i];
  }

  /**
   * As written, two different keys can share one lock name, and that name can be a plain
   * cache key: both "a\0b" and "a\0c" lock on "a", not on "a\0b:regen_lock".
   */
  lemma StrlenLockNamesCollide()
    ensures StrlenLockName([0x61, 0x00, 0x62]) == [0x61]
    ensures StrlenLockName([0x61, 0x00, 0x63]) == [0x61]
    ensures LockKey([0x61, 0x00, 0x62]) != [0x61]
  {
    TruncatedAtNul([0x61, 0x00, 0x62], 1);
    TruncatedAtNul([0x61, 0x00, 0x63], 1);
  }

  /** Distinct keys have distinct lock keys. */
  lemma LockKeyInjective(k1: Bytes, k2: Bytes)
    requires LockKey(k1) == LockKey(k2)
    ensures k1 == k2
  {
    assert |k1| == |k2|;
    assert k1 == LockKey(k1)[..|k1|];
  }

  /** On keys without a zero byte, the source's own derivation gives distinct keys distinct lock names. */
  lemma StrlenLockNameInjectiveOnNulFree(k1: Bytes, k2: Bytes)
    requires NulFree(k1) && NulFree(k2) && StrlenLockName(k1) == StrlenLockName(k2)
    ensures k1 == k2
  {
    NulFreeKeysAgree(k1);
    NulFreeKeysAgree(k2);
    LockKeyInjective(k1, k2);
  }

  /** A key is never its own lock key. */
  lemma LockKeyDiffers(key: Bytes)
    ensures LockKey(key) != key
  {
    assert |LockKey(key)| == |key| + 11;
  }

  /** `memcpy(dst + off, src, |src|)`. */
  method CopyInto(dst: array<byte>, off: nat, src: Bytes)
    requires off + |src| <= dst.Length
    modifies dst
    ensures forall j :: 0 <= j < |src| ==> dst[off + j] == src[j]
    ensures forall j :: 0 <= j < dst.Length && !(off <= j < off + |src|) ==> dst[j] == old(dst[j])
  {
    var i := 0;
    while i < |src|
      invariant 0 <= i <= |src|
      invariant forall j :: 0 <= j < i ==> dst[off + j] == src[j]
      invariant forall j :: 0 <= j < dst.Length && !(off <= j < off + i) ==> dst[j] == old(dst[j])
    {
      dst[off + i] := src[i];
      i := i + 1;
    }
  }

  /**
   * The stack buffer `lockName[len + sizeof(REGEN_LOCK_SUFFIX)]`, filled by two copies and a
   * final zero byte. Every write lands below `|key| + SuffixSize`, the buffer's length.
   */
  method FillLockBuffer(key: Bytes) returns (buf: array<byte>)
    ensures buf.Length == |key| + SuffixSize
    ensures buf[..] == Buffer(key)
  {
    buf := new byte[|key| + SuffixSize];
    CopyInto(buf, 0, key);
    CopyInto(buf, |key|, Suffix);
    buf[|key| + SuffixSize - 1] := 0;
    assert buf[..] == Buffer(key) by {
      forall j | 0 <= j < buf.Length
        ensures buf[j] == Buffer(key)[j]
      {
        if j < |key| {
        } else if j < |key| + |Suffix| {
          assert buf[|key| + (j - |key|)] == Suffix[j - |key|];
        }
      }
    }
  }

  /** C's `strlen` over a buffer that holds a zero byte. */
  method CStrLen(buf: array<byte>) returns (n: nat)
    requires exists z :: 0 <= z < buf.Length && buf[z] == 0
    ensures n < buf.Length && buf[n] == 0
    ensures forall j :: 0 <= j < n ==> buf[j] != 0
    ensures n == StrLen(buf[..])
  {
    n := 0;
    while buf[n] != 0
      invariant 0 <= n < buf.Length
      invariant forall j :: 0 <= j < n ==> buf[j] != 0
      invariant exists z :: n <= z < buf.Length && buf[z] == 0
      decreases buf.Length - n
    {
      n := n + 1;
    }
    StrLenAtFirstNul(buf[..], n);
  }

  /** The derivation as written: `RedisModule_CreateString(ctx, lockName, strlen(lockName))`. */
  method DeriveStrlenLockName(key: Bytes) returns (name: Bytes)
    ensures name == StrlenLockName(key)
  {
    var buf := FillLockBuffer(key);
    assert buf[|key| + SuffixSize - 1] == 0;
    var n := CStrLen(buf);
    name := buf[..n];
  }

  /** The derivation as intended: the buffer without its terminating zero byte. */
  method DeriveLockKey(key: Bytes) returns (name: Bytes)
    ensures name == LockKey(key)
  {
    var buf := FillLockBuffer(key);
    name := buf[..|key| + SuffixSize - 1];
    assert name == Buffer(key)[..|key| + |Suffix|];
  }
}
