/** The executor's store of compiled scripts (cache.py). */
module Caching {
  import opened Xml
  import opened Environment

  /** An md5 hash object. Such objects hash and compare by identity, so every
      key made is a new, distinct key, whatever text it digested. md5 digests
      text only. */
  class Key {
    /** The text digested. */
    const digested: string

    constructor(digested: string)
      ensures this.digested == digested
    {
      this.digested := digested;
    }
  }

  class Cache<T> {
    var cache: map<Key, T>
    /** Recorded by the constructor and never consulted: nothing is evicted. */
    const maxsize: int
    /** Python truthiness of a stored item. */
    const truthy: T -> bool

    constructor(maxsize: int, truthy: T -> bool)
      ensures cache == map[] && this.maxsize == maxsize && this.truthy == truthy
    {
      cache := map[];
      this.maxsize := maxsize;
      this.truthy := truthy;
    }

    /** `getkey(keytext)`: a new hash object over `keytext`. */
    method GetKey(keytext: string) returns (key: Key)
      ensures fresh(key) && key.digested == keytext
    {
      key := new Key(keytext);
    }

    /** `add(item, key)`: store `item` under the given key, or under a new key
        digested from the item itself when no key is given; replaces any
        entry already under that key and evicts nothing. `asText` is the item
        when it is a string: md5 cannot digest anything else and raises. */
    method Add(item: T, key: Key?, asText: Option<string>) returns (r: Outcome<Key>)
      modifies this
      ensures key != null ==> r == Done(key)
      ensures key == null && asText.None? ==> r == Crash(ArtifactNotHashable) && unchanged(this)
      ensures key == null && asText.Some? ==>
        r.Done? && fresh(r.value) && r.value.digested == asText.value
      ensures r.Done? ==>
        && cache == old(cache)[r.value := item]
        && Retrieve(r.value) == Some(item)
        && (truthy(item) ==> Contains(r.value))
      ensures old(cache).Keys <= cache.Keys
    {
      var k: Key;
      if key == null {
        if asText.None? {
          return Crash(ArtifactNotHashable);
        }
        k := new Key(asText.value);
      } else {
        k := key;
      }
      cache := cache[k := item];
      r := Done(k);
    }

    /** `remove(key)`: drop the entry if there is one; an absent key is
        silently ignored. */
    method Remove(key: Key?)
      modifies this
      ensures key == null ==> cache == old(cache)
      ensures key != null ==> cache == old(cache) - {key}
      ensures !Contains(key) && Retrieve(key) == None
    {
      if key != null && key in cache {
        cache := cache - {key};
      }
    }

    /** `contains(key)`: there is an entry under `key` and it is truthy. */
    function Contains(key: Key?): (b: bool)
      reads this
      ensures b <==> key != null && key in cache && truthy(cache[key])
      ensures b ==> Retrieve(key).Some?
    {
      key != null && key in cache && truthy(cache[key])
    }

    /** `retrieve(key)`: the stored item, or None when `key` is absent. */
    function Retrieve(key: Key?): (r: Option<T>)
      reads this
      ensures r.Some? <==> key != null && key in cache
      ensures r.Some? ==> r.value == cache[key]
    {
      if key != null && key in cache then Some(cache[key]) else None
    }
  }
}
