/**
 * The application cache the repositories and validators use for single-use
 * tokens: `put` stores a value for some minutes, `pull` reads it and forgets
 * it. Expiry is not modelled: an entry lives until it is pulled or replaced.
 */
module CacheStore {
  import opened Common

  datatype Entry = Entry(value: Value, minutes: int)

  /** The value `get`/`pull` returns: the stored value, or null. */
  function Cached(entries: map<string, Entry>, key: string): (v: Value)
    ensures key !in entries ==> v == Null
  {
    if key in entries then entries[key].value else Null
  }

  class Cache {
    var entries: map<string, Entry>

    constructor ()
      ensures entries == map[]
    {
      entries := map[];
    }

    /** `put(key, value, minutes)`: store, replacing what was there. */
    method Put(key: string, value: Value, minutes: int)
      modifies this
      ensures entries == old(entries)[key := Entry(value, minutes)]
    {
      entries := entries[key := Entry(value, minutes)];
    }

    /** `pull(key)`: the stored value (null when absent), and the key is
        gone afterwards; every other key is left alone. */
    method Pull(key: string) returns (v: Value)
      modifies this
      ensures v == Cached(old(entries), key)
      ensures entries == old(entries) - {key}
      ensures key !in entries
    {
      v := Cached(entries, key);
      entries := entries - {key};
    }
  }

  /** A value put and then pulled comes back, and a second pull finds nothing. */
  method PutThenPullTwice(c: Cache, key: string, value: Value, minutes: int) returns (first: Value, second: Value)
    modifies c
    ensures first == value && second == Null
    ensures c.entries == old(c.entries) - {key}
  {
    c.Put(key, value, minutes);
    first := c.Pull(key);
    second := c.Pull(key);
  }
}
