/** The in-memory cache behind the gateway's cache-aside reads: a key -> value store in
    which an entry may carry an absolute expiry instant. Expiry is lazy: an entry whose
    instant has come is still stored but every read treats it as absent. The clock is an
    explicit `now` (in ticks) passed to the operations that consult it. */
module Storages {
  import opened Wrappers

  /** A stored value and the instant from which it is expired (None: never). */
  datatype Entry<V> = Entry(value: V, expiresAt: Option<int>)

  /** The caching library refuses a relative expiration that is not positive by throwing
      `ArgumentOutOfRangeException` out of `AddAsync`; here that is this error value. */
  datatype CacheError = NonPositiveExpiry

  /** Whether an entry is still live at `now`. */
  predicate IsLive<V>(e: Entry<V>, now: int)
  {
    e.expiresAt.None? || now < e.expiresAt.value
  }

  /** What a read of `key` at `now` finds in `store`. */
  function Lookup<V>(store: map<string, Entry<V>>, key: string, now: int): Option<V>
  {
    if key in store && IsLive(store[key], now) then Some(store[key].value) else None
  }

  /** The entry `Set` stores for `value` added at `now` with a relative expiry. */
  function NewEntry<V>(value: V, expiry: Option<int>, now: int): Entry<V>
  {
    Entry(value, if expiry.None? then None else Some(now + expiry.value))
  }

  /** Expiry is final: while the store is left alone, a key that reads as absent stays
      absent, and a value read later was already there at every earlier instant. */
  lemma ExpiryIsFinal<V>(store: map<string, Entry<V>>, key: string, t1: int, t2: int)
    requires t1 <= t2
    ensures Lookup(store, key, t1).None? ==> Lookup(store, key, t2).None?
    ensures Lookup(store, key, t2).Some? ==> Lookup(store, key, t1) == Lookup(store, key, t2)
  {
  }

  class InMemoryCache<V> {
    /** The wrapped `IMemoryCache`'s entries. */
    var store: map<string, Entry<V>>

    /** Wraps an existing cache, which may already hold entries. */
    constructor (entries: map<string, Entry<V>>)
      ensures store == entries
    {
      store := entries;
    }

    /** What `GetAsync(key)` would return at `now`. */
    ghost function Peek(key: string, now: int): Option<V>
      reads this
    {
      Lookup(store, key, now)
    }

    /** `GetAsync<T>(key)`: the live value under `key`, or an empty `Maybe` when the key
        is absent or its entry has expired; the store is not changed. */
    method GetAsync(key: string, now: int) returns (r: Option<V>)
      ensures r == Lookup(store, key, now)
      ensures key !in store ==> r.None?
      ensures r.Some? ==> key in store && r.value == store[key].value && IsLive(store[key], now)
    {
      if key in store && IsLive(store[key], now) {
        r := Some(store[key].value);
      } else {
        r := None;
      }
    }

    /** `AddAsync(key, value, expiry)` at `now`: stores `value` under `key`, replacing any
        earlier entry (last write wins), expiring `expiry` ticks from `now` when given.
        A non-positive expiry is refused and the store is left as it was. */
    method AddAsync(key: string, value: V, expiry: Option<int>, now: int) returns (r: Outcome<CacheError>)
      modifies this
      ensures r.Fail? <==> expiry.Some? && expiry.value <= 0
      ensures r.Fail? ==> store == old(store)
      ensures r.Pass? ==> store == old(store)[key := NewEntry(value, expiry, now)]
      ensures expiry.None? ==> forall t :: Peek(key, t) == Some(value)
      ensures expiry.Some? && expiry.value > 0 ==>
                forall t :: Peek(key, t) == if t < now + expiry.value then Some(value) else None
      ensures forall k, t :: k != key ==> Peek(k, t) == old(Peek(k, t))
    {
      if expiry.Some? && expiry.value <= 0 {
        return Fail(NonPositiveExpiry);
      }
      store := store[key := NewEntry(value, expiry, now)];
      return Pass;
    }

    /** `DeleteAsync(key)`: removes the entry of `key`, if any; nothing else changes. */
    method DeleteAsync(key: string)
      modifies this
      ensures store == old(store) - {key}
      ensures forall t :: Peek(key, t).None?
      ensures forall k, t :: k != key ==> Peek(k, t) == old(Peek(k, t))
    {
      store := store - {key};
    }
  }
}
