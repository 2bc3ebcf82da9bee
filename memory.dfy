/**
 * The in-memory adapter: a map from the key's segments, joined into one
 * string, to the stored response.
 */
module Memory {
  import opened SwrTypes

  /**
   * The separator written as the literal '\x2003': the escape \x20 is a
   * space, so the separator is the three characters space, '0', '3'
   * (not the single em-space character U+2003).
   */
  const CacheKeySeparator: string := " 03"

  /** `Array.prototype.join`: the segments with `sep` between neighbours. */
  function Join(segments: seq<string>, sep: string): string
  {
    if |segments| == 0 then ""
    else if |segments| == 1 then segments[0]
    else segments[0] + sep + Join(segments[1..], sep)
  }

  /** The string a cache key is stored under. */
  function KeyString(key: CacheKey): string
  {
    Join(key, CacheKeySeparator)
  }

  /** `String.prototype.startsWith`. */
  predicate StartsWith(s: string, prefix: string)
  {
    |prefix| <= |s| && s[..|prefix|] == prefix
  }

  lemma StartsWithAppend(a: string, b: string, c: string)
    requires StartsWith(b, c)
    ensures StartsWith(a + b, a + c)
  {
    assert (a + b)[..|a + c|] == a + b[..|c|];
  }

  /** Joining keeps segment prefixes as string prefixes, whatever the separator. */
  lemma {:induction false} JoinKeepsPrefix(prefix: seq<string>, key: seq<string>, sep: string)
    requires IsSegmentPrefix(prefix, key)
    ensures StartsWith(Join(key, sep), Join(prefix, sep))
  {
    if |prefix| == 0 {
    } else if |prefix| == 1 {
      assert prefix[0] == key[..1][0] == key[0];
      if |key| > 1 {
        assert Join(key, sep) == key[0] + (sep + Join(key[1..], sep));
      }
    } else {
      assert key[1..][..|prefix| - 1] == key[..|prefix|][1..] == prefix[1..];
      JoinKeepsPrefix(prefix[1..], key[1..], sep);
      StartsWithAppend(sep, Join(key[1..], sep), Join(prefix[1..], sep));
      assert prefix[0] == key[..|prefix|][0] == key[0];
      StartsWithAppend(key[0], sep + Join(key[1..], sep), sep + Join(prefix[1..], sep));
      assert Join(key, sep) == key[0] + (sep + Join(key[1..], sep));
      assert Join(prefix, sep) == prefix[0] + (sep + Join(prefix[1..], sep));
    }
  }

  /** Every key that has the prefix key as a segment prefix is matched by the string test. */
  lemma SegmentPrefixMatches(prefix: CacheKey, key: CacheKey)
    requires IsSegmentPrefix(prefix, key)
    ensures StartsWith(KeyString(key), KeyString(prefix))
  {
    JoinKeepsPrefix(prefix, key, CacheKeySeparator);
  }

  /** The string test also matches keys that do not have the prefix key as a segment prefix. */
  lemma StringPrefixOverMatches()
    ensures StartsWith(KeyString(["ab"]), KeyString(["a"]))
    ensures !IsSegmentPrefix(["a"], ["ab"])
  {
    assert KeyString(["ab"])[..1] == "a";
    assert ["ab"][..1] != ["a"] by { assert ["ab"][..1][0] == "ab"; }
  }

  /** Two different keys can share one stored string, because a segment may contain the separator. */
  lemma DistinctKeysCollide()
    ensures ["page 03"] != ["page", ""]
    ensures KeyString(["page 03"]) == KeyString(["page", ""])
  {
    assert Join(["page", ""], CacheKeySeparator) == "page" + " 03" + Join([""], CacheKeySeparator);
  }

  /** The entry `get` finds for a key: the one under its joined string, if any. */
  function Lookup<T>(cache: map<string, Response<T>>, key: CacheKey): (r: Option<Response<T>>)
    ensures r.Some? <==> KeyString(key) in cache
    ensures r.Some? ==> r.value == cache[KeyString(key)]
  {
    var s := KeyString(key);
    if s in cache then Some(cache[s]) else None
  }

  /** The map after `set`: the entry under the joined key is replaced or inserted. */
  function Put<T>(cache: map<string, Response<T>>, key: CacheKey, e: Response<T>): (r: map<string, Response<T>>)
    ensures Lookup(r, key) == Some(e)
    ensures forall other :: KeyString(other) != KeyString(key) ==> Lookup(r, other) == Lookup(cache, other)
    ensures r.Keys == cache.Keys + {KeyString(key)}
    ensures |r| == if KeyString(key) in cache then |cache| else |cache| + 1
  {
    cache[KeyString(key) := e]
  }

  /**
   * The map after `invalidate`: every entry whose string starts with the
   * joined prefix gets timestamp 0; nothing is removed and no data changes.
   */
  function Invalidated<T>(cache: map<string, Response<T>>, prefix: CacheKey): (r: map<string, Response<T>>)
    ensures r.Keys == cache.Keys
    ensures forall s :: s in r ==> r[s].data == cache[s].data
    ensures forall s :: s in r ==> r[s].updatedAt == if StartsWith(s, KeyString(prefix)) then 0 else cache[s].updatedAt
  {
    map s | s in cache :: if StartsWith(s, KeyString(prefix)) then cache[s].(updatedAt := 0) else cache[s]
  }

  /** An entry stored under a key that extends the prefix key keeps its data and has timestamp 0 afterwards. */
  lemma InvalidateHitsSegmentPrefixes<T>(cache: map<string, Response<T>>, prefix: CacheKey, key: CacheKey)
    requires Lookup(cache, key).Some?
    requires IsSegmentPrefix(prefix, key)
    ensures Lookup(Invalidated(cache, prefix), key) == Some(Response(0, Lookup(cache, key).value.data))
  {
    SegmentPrefixMatches(prefix, key);
  }

  class MemoryAdapter<T> {
    var cache: map<string, Response<T>>

    constructor ()
      ensures cache == map[]
    {
      cache := map[];
    }

    method Get(cacheKey: CacheKey) returns (r: Option<Response<T>>)
      ensures r == Lookup(cache, cacheKey)
    {
      var cacheKeyString := KeyString(cacheKey);
      if cacheKeyString in cache {
        r := Some(cache[cacheKeyString]);
      } else {
        r := None;
      }
    }

    method Set(cacheKey: CacheKey, newCache: Response<T>)
      modifies this
      ensures cache == Put(old(cache), cacheKey, newCache)
    {
      var cacheKeyString := KeyString(cacheKey);
      if cacheKeyString in cache {
        var itemToUpdate := cache[cacheKeyString];
        cache := cache[cacheKeyString := itemToUpdate.(data := newCache.data, updatedAt := newCache.updatedAt)];
      } else {
        cache := cache[cacheKeyString := Response(newCache.updatedAt, newCache.data)];
      }
    }

    method Invalidate(partialCacheKey: CacheKey)
      modifies this
      ensures cache == Invalidated(old(cache), partialCacheKey)
    {
      var partialCacheKeyString := KeyString(partialCacheKey);
      var keysToInvalidate := set s | s in cache && StartsWith(s, partialCacheKeyString);
      var remaining := keysToInvalidate;
      while remaining != {}
        invariant remaining <= keysToInvalidate
        invariant cache.Keys == old(cache).Keys
        invariant forall s :: s in cache ==>
          cache[s] == if s in keysToInvalidate - remaining then old(cache)[s].(updatedAt := 0) else old(cache)[s]
        decreases remaining
      {
        var s :| s in remaining;
        if s in cache {
          var row := cache[s];
          cache := cache[s := row.(updatedAt := 0)];
        }
        remaining := remaining - {s};
      }
    }

    method Reset()
      modifies this
      ensures cache == map[]
      ensures forall key :: Lookup(cache, key) == None
    {
      cache := map[];
    }
  }
}
