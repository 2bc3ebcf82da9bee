/**
 * The Zustand adapter of the published package: a store holding a list of
 * keyed items; `set` updates the first item with an equal key or appends
 * a new one.
 */
module Zustand {
  import opened SwrTypes
  import opened ZustandStore

  class ZustandAdapter<T> {
    /** The store's `cache` list. */
    var cache: seq<CacheItem<T>>

    /** The store is created with an empty list. */
    constructor ()
      ensures cache == []
    {
      cache := [];
    }

    method Get(cacheKey: CacheKey) returns (r: Option<Response<T>>)
      ensures r == Lookup(cache, cacheKey)
    {
      var cachedData := FindIndex(cache, cacheKey);
      if cachedData.None? {
        return None;
      }
      var item := cache[cachedData.value];
      r := Some(Response(item.updatedAt, item.data));
    }

    method Set(cacheKey: CacheKey, newCache: Response<T>)
      modifies this
      ensures cache == Upsert(old(cache), cacheKey, newCache)
      ensures Lookup(cache, cacheKey) == Some(newCache)
      ensures |old(cache)| <= |cache| <= |old(cache)| + 1
      ensures UniqueKeys(old(cache)) ==> UniqueKeys(cache)
    {
      var draft := cache;
      var itemToUpdate := FindIndex(draft, cacheKey);
      if itemToUpdate.Some? {
        var i := itemToUpdate.value;
        draft := draft[i := draft[i].(data := newCache.data, updatedAt := newCache.updatedAt)];
      } else {
        draft := draft + [CacheItem(cacheKey, newCache.data, newCache.updatedAt)];
      }
      cache := draft;
      UpsertProperties(old(cache), cacheKey, newCache);
    }

    /** The filter and the `forEach` over the filtered items are one pass over the list. */
    method Invalidate(partialCacheKey: CacheKey)
      modifies this
      ensures cache == InvalidateMatching(old(cache), partialCacheKey)
    {
      var i := 0;
      while i < |cache|
        invariant 0 <= i <= |cache| == |old(cache)|
        invariant forall j :: 0 <= j < i ==> cache[j] == InvalidateMatching(old(cache), partialCacheKey)[j]
        invariant forall j :: i <= j < |cache| ==> cache[j] == old(cache)[j]
      {
        if HasCommonStart(cache[i].key, partialCacheKey) {
          cache := cache[i := cache[i].(updatedAt := 0)];
        }
        i := i + 1;
      }
    }

    method Reset()
      modifies this
      ensures cache == []
      ensures forall key :: Lookup(cache, key) == None
    {
      cache := [];
    }
  }
}
