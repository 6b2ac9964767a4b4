/** The two kinds of store the core reads and writes: the persistent
    key/value store (a `Deno.Kv`, whose keys are arrays of key parts) and the
    process-wide caches `ApiResponseCache` and `GeneratedTournamentStatusCache`
    (keyed by URL and by tournament id). Both are dumb stores: they validate
    nothing, a write is an upsert of one key, and a lookup of an absent key
    gives `null`/`undefined`. */
module Stores {
  import opened Values

  /** What a store yields for `key`: the stored value, or `Nullish`. */
  function Lookup<K>(entries: map<K, Value>, key: K): (v: Value)
    ensures key in entries ==> v == entries[key]
    ensures key !in entries ==> v == Nullish
  {
    if key in entries then entries[key] else Nullish
  }

  /** A store with its entries: a `Deno.Kv` is a `Store<seq<string>>`, a
      cache a `Store<string>`. */
  class Store<K(==)> {
    var entries: map<K, Value>

    constructor (initial: map<K, Value>)
      ensures entries == initial
    {
      entries := initial;
    }

    /** `(await kv.get(key)).value`, or `cache.get(key)`. */
    method Get(key: K) returns (v: Value)
      ensures key in entries ==> v == entries[key]
      ensures key !in entries ==> v == Nullish
    {
      v := Lookup(entries, key);
    }

    /** `await kv.set(key, v)`, or `cache.set(key, v)`: last write wins. */
    method Set(key: K, v: Value)
      modifies this
      ensures entries == old(entries)[key := v]
    {
      entries := entries[key := v];
    }
  }
}
