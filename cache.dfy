/** The Redis cache of list responses: its key scheme, best-effort reads and
    writes, TTL expiry on the server's clock (milliseconds), and the invalidation
    the worker performs. Redis errors are inputs (`fault`); any of them makes
    a read a miss and a write or delete a no-op. */
module Cache {
  import opened Wire
  import opened Models
  import Strconv

  const ListKey := "todos:all"
  const LimitPrefix := "todos:limit:"

  /** The key of the first-`limit` view: the prefix followed by strconv.Itoa(limit). */
  function LimitKey(limit: int): string {
    LimitPrefix + Strconv.Itoa(limit)
  }

  /** The key reserved for one todo: "todo:" followed by the id. */
  function CacheKey(id: string): (k: string)
    ensures |k| == |id| + 5 && k[..5] == "todo:" && k[5..] == id
  {
    "todo:" + id
  }

  /** Distinct limits give distinct keys, and no limit key is the full-list key. */
  lemma LimitKeysDistinct(a: int, b: int)
    ensures LimitKey(a) != ListKey
    ensures a != b ==> LimitKey(a) != LimitKey(b)
  {
    assert LimitKey(a)[6] == 'l' && ListKey[6] == 'a';
    if a != b {
      Strconv.ItoaInjective(a, b);
      assert LimitKey(a)[|LimitPrefix|..] == Strconv.Itoa(a);
      assert LimitKey(b)[|LimitPrefix|..] == Strconv.Itoa(b);
    }
  }

  /** A per-item key is never one of the list keys. */
  lemma CacheKeyIsNoListKey(id: string, limit: int)
    ensures CacheKey(id) != ListKey && CacheKey(id) != LimitKey(limit)
  {
    assert CacheKey(id)[4] == ':' && ListKey[4] == 's' && LimitKey(limit)[4] == 's';
  }

  /** Instants on the Redis server's clock, in milliseconds. */
  type Millis = int

  const NanosPerMilli := 1_000_000
  const NanosPerSecond := 1_000_000_000
  const TwoTo64 := 0x1_0000_0000_0000_0000

  /** A stored value and the instant it stops being visible (None: never). */
  datatype Entry = Entry(value: Bytes, expiresAt: Option<Millis>)

  /** What GET sees: the value, unless the entry is missing or has expired. */
  function Live(entries: map<string, Entry>, key: string, now: Millis): Option<Bytes> {
    if key in entries && (entries[key].expiresAt.None? || now < entries[key].expiresAt.value)
    then Some(entries[key].value)
    else None
  }

  /** int64 arithmetic: the result wrapped modulo 2^64 into the int64 range. */
  function WrapInt64(x: int): (r: int)
    ensures Strconv.MinInt64 <= r <= Strconv.MaxInt64
    ensures (x - r) % TwoTo64 == 0
    ensures Strconv.MinInt64 <= x <= Strconv.MaxInt64 ==> r == x
  {
    (x - Strconv.MinInt64) % TwoTo64 + Strconv.MinInt64
  }

  /** time.Duration(ttl) * time.Second: nanoseconds, in int64 arithmetic. */
  function TtlDuration(ttl: int): int {
    WrapInt64(ttl * NanosPerSecond)
  }

  /** The expiry go-redis's SET sends for a duration d, in milliseconds: none
      when d is not positive (KeepTTL, -1ns, is never a whole number of
      seconds wrapped); PX with d in whole milliseconds, at least one, when d
      is under a second or not a whole number of seconds; EX with d in whole
      seconds otherwise. */
  function Expiry(d: int): (r: Option<Millis>)
    ensures r.Some? <==> d > 0
    ensures r.Some? ==> r.value >= 1
    ensures r.Some? && d >= NanosPerMilli ==> r.value * NanosPerMilli <= d < (r.value + 1) * NanosPerMilli
  {
    if d <= 0 then None
    else if d < NanosPerSecond || d % NanosPerSecond != 0 then
      Some(if d < NanosPerMilli then 1 else d / NanosPerMilli)
    else Some(d / NanosPerSecond * 1000)
  }

  /** How long an entry written with the configured TTL (seconds) lives. */
  function ExpiresIn(ttl: int): Option<Millis> {
    Expiry(TtlDuration(ttl))
  }

  /** SET with the configured TTL: the entry replaces any earlier one, with
      the expiry go-redis sends for time.Duration(ttl) * time.Second. */
  function Store(entries: map<string, Entry>, key: string, b: Bytes, ttl: int, now: Millis): map<string, Entry> {
    entries[key := Entry(b, match ExpiresIn(ttl) case Some(ms) => Some(now + ms) case None => None)]
  }

  /** A TTL of up to 9223372036 seconds, the most int64 nanoseconds hold,
      lives exactly that many seconds; zero and negative ones never expire. */
  lemma ConfiguredTtl(ttl: int)
    requires -9223372036 <= ttl <= 9223372036
    ensures ttl > 0 ==> ExpiresIn(ttl) == Some(ttl * 1000)
    ensures ttl <= 0 ==> ExpiresIn(ttl) == None
  {
    assert TtlDuration(ttl) == ttl * NanosPerSecond;
    if ttl > 0 {
      assert (ttl * NanosPerSecond) % NanosPerSecond == 0;
      assert (ttl * NanosPerSecond) / NanosPerSecond == ttl;
    }
  }

  /** Past that bound the duration wraps: 18446744074 seconds is about 0.29
      seconds once wrapped, and 9223372037 seconds turns negative, so the
      entry never expires. */
  lemma OversizedTtlWraps()
    ensures ExpiresIn(18446744074) == Some(290)
    ensures ExpiresIn(9223372037) == None
  {
    assert TtlDuration(18446744074) == 290448384;
    assert TtlDuration(9223372037) < 0;
  }

  /** setRawAsync's effect: empty bytes, a missing client or a failed SET leave
      the store as it was; otherwise the bytes are stored with the TTL. */
  function Put(entries: map<string, Entry>, available: bool, fault: bool,
               key: string, b: Bytes, ttl: int, now: Millis): map<string, Entry> {
    if IsEmpty(b) || !available || fault then entries else Store(entries, key, b, ttl, now)
  }

  /** DEL todos:all, when there is a client and the command does not fail. */
  function Invalidate(entries: map<string, Entry>, available: bool, fault: bool): map<string, Entry> {
    if available && !fault then entries - {ListKey} else entries
  }

  class RedisCache {
    /** Whether cache.Client returned a client (REDIS_URL parsed). */
    const available: bool
    /** CacheTTL from the configuration, in seconds. */
    const ttl: int
    var entries: map<string, Entry>

    constructor (available: bool, ttl: int)
      ensures this.available == available && this.ttl == ttl && entries == map[]
    {
      this.available := available;
      this.ttl := ttl;
      entries := map[];
    }

    /** getRaw: the stored bytes, or a miss when there is no client, on any
        Redis error (`fault`), and on a missing or expired key. */
    method GetRaw(key: string, now: Millis, fault: bool) returns (b: Option<Bytes>)
      ensures b.Some? <==> available && !fault && Live(entries, key, now).Some?
      ensures b.Some? ==> b == Live(entries, key, now)
    {
      if !available {
        return None;
      }
      if fault {
        return None;
      }
      if key in entries && (entries[key].expiresAt.None? || now < entries[key].expiresAt.value) {
        return Some(entries[key].value);
      }
      return None;
    }

    /** setRawAsync: empty bytes are skipped; the TTL is the configured one;
        a failed SET (`fault`) is ignored. */
    method SetRaw(key: string, b: Bytes, now: Millis, fault: bool)
      modifies this
      ensures entries == Put(old(entries), available, fault, key, b, ttl, now)
    {
      if IsEmpty(b) {
        return;
      }
      if !available {
        return;
      }
      if !fault {
        entries := Store(entries, key, b, ttl, now);
      }
    }

    /** GetTodos: the decoded full list; bytes that do not decode are a miss. */
    method GetTodos(now: Millis, fault: bool) returns (todos: Option<seq<Todo>>)
      ensures todos.Some? <==> available && !fault && Live(entries, ListKey, now).Some?
                               && DecodeTodos(Live(entries, ListKey, now).value).Success?
      ensures todos.Some? ==> todos.value == DecodeTodos(Live(entries, ListKey, now).value).value
    {
      var b := GetRaw(ListKey, now, fault);
      if b.None? {
        return None;
      }
      match DecodeTodos(b.value)
      case Failure(_) => return None;
      case Success(ts) => return Some(ts);
    }

    /** SetTodos: nothing is written without a client or when encoding fails. */
    method SetTodos(todos: seq<Todo>, now: Millis, fault: bool)
      modifies this
      ensures entries == if EncodeTodos(todos).Failure? then old(entries)
                         else Put(old(entries), available, fault, ListKey, EncodeTodos(todos).value, ttl, now)
    {
      if !available {
        return;
      }
      match EncodeTodos(todos)
      case Failure(_) => return;
      case Success(b) =>
        if !fault {
          entries := Store(entries, ListKey, b, ttl, now);
        }
    }

    /** InvalidateTodos: deletes the full-list key and nothing else. */
    method InvalidateTodos(fault: bool)
      modifies this
      ensures entries == Invalidate(old(entries), available, fault)
    {
      if !available {
        return;
      }
      if !fault {
        entries := entries - {ListKey};
      }
    }
  }

  // ---------------------------------------------------------------------
  // Properties of the cache

  /** A read within the TTL returns exactly the bytes last stored under the key. */
  lemma HitReturnsStoredBytes(entries: map<string, Entry>, key: string, b: Bytes, ttl: int, at: Millis, now: Millis)
    requires ExpiresIn(ttl).None? || now < at + ExpiresIn(ttl).value
    ensures Live(Store(entries, key, b, ttl, at), key, now) == Some(b)
  {
  }

  /** With an expiry the entry is gone once it has passed. */
  lemma EntryExpires(entries: map<string, Entry>, key: string, b: Bytes, ttl: int, at: Millis, now: Millis)
    requires ExpiresIn(ttl).Some? && now >= at + ExpiresIn(ttl).value
    ensures Live(Store(entries, key, b, ttl, at), key, now) == None
  {
  }

  /** Storing under one key leaves every other key as it was. */
  lemma StoreIsLocal(entries: map<string, Entry>, key: string, other: string, b: Bytes, ttl: int, at: Millis, now: Millis)
    requires other != key
    ensures Live(Store(entries, key, b, ttl, at), other, now) == Live(entries, other, now)
  {
  }

  /** After invalidation the full list misses, while every first-N view still
      answers with what it held before: those views live until their TTL. */
  lemma InvalidationScope(entries: map<string, Entry>, limit: int, id: string, now: Millis)
    ensures Live(Invalidate(entries, true, false), ListKey, now) == None
    ensures Live(Invalidate(entries, true, false), LimitKey(limit), now) == Live(entries, LimitKey(limit), now)
    ensures Live(Invalidate(entries, true, false), CacheKey(id), now) == Live(entries, CacheKey(id), now)
  {
    LimitKeysDistinct(limit, limit);
    CacheKeyIsNoListKey(id, limit);
  }

  /** A first-N view cached before a mutation is still served after the
      worker's invalidation, as long as its TTL has not run out. */
  lemma StaleLimitViewSurvives(entries: map<string, Entry>, limit: int, b: Bytes, ttl: int, at: Millis, now: Millis)
    requires ExpiresIn(ttl).None? || now < at + ExpiresIn(ttl).value
    ensures Live(Invalidate(Store(entries, LimitKey(limit), b, ttl, at), true, false), LimitKey(limit), now) == Some(b)
  {
    LimitKeysDistinct(limit, limit);
    HitReturnsStoredBytes(entries, LimitKey(limit), b, ttl, at, now);
  }
}
