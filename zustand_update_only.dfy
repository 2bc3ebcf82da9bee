/**
 * The Zustand adapter of the application sources: the same store, but a
 * `set` that only updates an item already present and never inserts one.
 * Since the store starts empty and nothing else adds items, the list stays
 * empty and every read misses.
 */
module ZustandUpdateOnly {
  import opened SwrTypes
  import opened ZustandStore

  class ZustandUpdateOnlyAdapter<T> {
    /** The store's `cache` list. */
    var cache: seq<CacheItem<T>>

    /** The store is created with an empty list. */
    constructor ()
      ensures cache == []
    {
      cache := [];
    }

    method Get(cacheKey: CacheKey) returns (r: Option<Response<T>>)
      ensures r == Lookup(cache, cacheKey)
    {
      var cachedData := FindIndex(cache, cacheKey);
      if cachedData.None? {
        return None;
      }
      var item := cache[cachedData.value];
      r := Some(Response(item.updatedAt, item.data));
    }

    /** The guard on the list itself never fires: the list is always an array, so it is not modelled. */
    method Set(cacheKey: CacheKey, newCache: Response<T>)
      modifies this
      ensures cache == UpdateExisting(old(cache), cacheKey, newCache)
      ensures |cache| == |old(cache)|
      ensures Lookup(old(cache), cacheKey).None? ==> cache == old(cache)
    {
      var itemToUpdate := FindIndex(cache, cacheKey);
      if itemToUpdate.None? {
        UpdateExistingProperties(cache, cacheKey, newCache);
        return;
      }
      var i := itemToUpdate.value;
      cache := cache[i := cache[i].(data := newCache.data, updatedAt := newCache.updatedAt)];
      UpdateExistingProperties(old(cache), cacheKey, newCache);
    }

    /** The filter and the `forEach` over the filtered items are one pass over the list. */
    method Invalidate(partialCacheKey: CacheKey)
      modifies this
      ensures cache == InvalidateMatching(old(cache), partialCacheKey)
    {
      var i := 0;
      while i < |cache|
        invariant 0 <= i <= |cache| == |old(cache)|
        invariant forall j :: 0 <= j < i ==> cache[j] == InvalidateMatching(old(cache), partialCacheKey)[j]
        invariant forall j :: i <= j < |cache| ==> cache[j] == old(cache)[j]
      {
        if HasCommonStart(cache[i].key, partialCacheKey) {
          cache := cache[i := cache[i].(updatedAt := 0)];
        }
        i := i + 1;
      }
    }

    method Reset()
      modifies this
      ensures cache == []
    {
      cache := [];
    }
  }

  /** A call a client makes on the adapter. */
  datatype Call<T> = GetCall(cacheKey: CacheKey) | SetCall(cacheKey: CacheKey, newCache: Response<T>)
                   | InvalidateCall(partialCacheKey: CacheKey) | ResetCall

  /** How many of the calls are reads. */
  function CountGets<T>(calls: seq<Call<T>>): nat
  {
    if calls == [] then 0
    else CountGets(calls[..|calls| - 1]) + (if calls[|calls| - 1].GetCall? then 1 else 0)
  }

  /**
   * A freshly created adapter driven by any sequence of calls: the list is
   * still empty at the end, and every read returned nothing.
   */
  method Session<T>(calls: seq<Call<T>>) returns (results: seq<Option<Response<T>>>, finalCache: seq<CacheItem<T>>)
    ensures |results| == CountGets(calls)
    ensures forall i :: 0 <= i < |results| ==> results[i] == None
    ensures finalCache == []
  {
    var adapter := new ZustandUpdateOnlyAdapter<T>();
    results := [];
    var n := 0;
    while n < |calls|
      invariant 0 <= n <= |calls|
      invariant adapter.cache == []
      invariant |results| == CountGets(calls[..n])
      invariant forall i :: 0 <= i < |results| ==> results[i] == None
    {
      assert calls[..n + 1][..n] == calls[..n];
      match calls[n] {
        case GetCall(cacheKey) =>
          var r := adapter.Get(cacheKey);
          results := results + [r];
        case SetCall(cacheKey, newCache) =>
          adapter.Set(cacheKey, newCache);
        case InvalidateCall(partialCacheKey) =>
          adapter.Invalidate(partialCacheKey);
        case ResetCall =>
          adapter.Reset();
      }
      n := n + 1;
    }
    assert calls[..n] == calls;
    finalCache := adapter.cache;
  }
}
