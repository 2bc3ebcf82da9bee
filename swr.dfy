/**
 * The stale-while-revalidate coordinator: `swr` reads the adapter, hands
 * back the cached entry, decides whether to revalidate, runs the one fetch
 * attempt, writes its result through the adapter and applies the error
 * behaviour when the fetch throws; `mutate` writes directly; `invalidate`
 * is the adapter's own operation. The coordinator is bound here to the
 * in-memory adapter.
 */
module Swr {
  import opened SwrTypes
  import Memory

  /** The settled outcome of the one call to `fetchFn`. */
  datatype FetchOutcome<T> = Fetched(data: T) | Threw(error: FetchError)

  /** Which of the four optional observer callbacks are configured. */
  datatype Hooks = Hooks(beforeGet: bool, afterGet: bool, beforeSet: bool, afterSet: bool)

  /** One call of an observer callback, with what it is given. */
  datatype HookEvent<T> =
    | BeforeGet(cacheKey: CacheKey)
    | AfterGet(fromCache: Option<Response<T>>)
    | BeforeSet(cacheKey: CacheKey)
    | AfterSet(data: T)

  /** The error behaviour asks for stale data exactly when it is spelled `serve-stale`. */
  function ShouldServeStaleData(errorBehaviour: ErrorBehaviour): (r: bool)
    ensures r <==> ErrorBehaviourLiteral(errorBehaviour) == "serve-stale"
  {
    errorBehaviour == ServeStale
  }

  /** The revalidation test: no entry, or an entry strictly older than `maxAge` at time `now`. */
  function NeedsRevalidation<T>(fromCache: Option<Response<T>>, now: int, maxAge: int): (r: bool)
    ensures fromCache.None? ==> r
    // an entry is revalidated exactly when it expired, at `updatedAt + maxAge`, before `now`
    ensures fromCache.Some? ==> (r <==> fromCache.value.updatedAt + maxAge < now)
  {
    fromCache.None? || now - fromCache.value.updatedAt > maxAge
  }

  /** An entry exactly `maxAge` old is still served; one unit older is revalidated. */
  lemma FreshnessBoundary<T>(e: Response<T>, maxAge: int)
    ensures !NeedsRevalidation(Some(e), e.updatedAt + maxAge, maxAge)
    ensures NeedsRevalidation(Some(e), e.updatedAt + maxAge + 1, maxAge)
  {
  }

  /** An invalidated entry (timestamp 0) is revalidated exactly when the clock reads more than `maxAge`. */
  lemma InvalidatedEntryRevalidates<T>(data: T, now: int, maxAge: int)
    ensures NeedsRevalidation(Some(Response(0, data)), now, maxAge) <==> now > maxAge
  {
  }

  /** The `cached` field: the adapter's entry tagged `cached`, or nothing when the adapter had none. */
  function CachedOf<T>(fromCache: Option<Response<T>>): (r: Option<ResponseWithStatus<T>>)
    ensures r.None? <==> fromCache.None?
    ensures r.Some? ==> r.value.status == Cached && r.value.WithoutStatus() == fromCache.value
  {
    match fromCache
    case None => None
    case Some(e) => Some(e.WithStatus(Cached))
  }

  /**
   * How the `fresh` promise settles, given the entry read from the adapter,
   * the clock reading of the revalidation test (`now`), the reading taken
   * for the returned response (`returnedAt`) and the fetch outcome (used
   * only when revalidating).
   */
  function FreshOf<T>(fromCache: Option<Response<T>>, maxAge: int, onError: ErrorBehaviour,
                      outcome: FetchOutcome<T>, now: int, returnedAt: int): (r: Settled<T>)
    // the promise rejects only in `throw` mode, after a failed revalidation, with the fetch's own error
    ensures r.Rejected? <==> NeedsRevalidation(fromCache, now, maxAge) && outcome.Threw? && onError == Throw
    ensures r.Rejected? ==> r.error == outcome.error
    // it settles to nothing only in `serve-stale` mode, after a failed fetch, with no entry to fall back on
    ensures r == Resolved(None) <==>
      NeedsRevalidation(fromCache, now, maxAge) && outcome.Threw? && onError == ServeStale && fromCache.None?
    ensures r.Resolved? ==> Handled(onError, r.value)
    // each status names the path that produced the response
    ensures r.Resolved? && r.value.Some? && r.value.value.status == Cached ==>
      !NeedsRevalidation(fromCache, now, maxAge) && fromCache == Some(r.value.value.WithoutStatus())
    ensures r.Resolved? && r.value.Some? && r.value.value.status == Fresh ==>
      NeedsRevalidation(fromCache, now, maxAge) && outcome == Fetched(r.value.value.data) &&
      r.value.value.updatedAt == returnedAt
    ensures r.Resolved? && r.value.Some? && r.value.value.status == Stale ==>
      NeedsRevalidation(fromCache, now, maxAge) && outcome.Threw? && onError == ServeStale &&
      fromCache == Some(r.value.value.WithoutStatus())
  {
    if !NeedsRevalidation(fromCache, now, maxAge) then
      Resolved(Some(fromCache.value.WithStatus(Cached)))
    else match outcome
      case Fetched(data) => Resolved(Some(ResponseWithStatus(returnedAt, data, Fresh)))
      case Threw(error) =>
        if ShouldServeStaleData(onError) then
          if fromCache.Some? then Resolved(Some(fromCache.value.WithStatus(Stale))) else Resolved(None)
        else Rejected(error)
  }

  /** The entry `swr` writes through the adapter: one exactly when a revalidation fetched data. */
  function WriteOf<T>(fromCache: Option<Response<T>>, maxAge: int, outcome: FetchOutcome<T>,
                      now: int, storedAt: int): (r: Option<Response<T>>)
    ensures r.Some? <==> NeedsRevalidation(fromCache, now, maxAge) && outcome.Fetched?
    ensures r.Some? ==> r.value == Response(storedAt, outcome.data)
  {
    if NeedsRevalidation(fromCache, now, maxAge) && outcome.Fetched? then Some(Response(storedAt, outcome.data))
    else None
  }

  /** `[event]` when the callback is configured, nothing otherwise. */
  function Fire<T>(configured: bool, event: HookEvent<T>): seq<HookEvent<T>>
  {
    if configured then [event] else []
  }

  /** The observer calls one `swr` makes, in order. */
  function TraceOf<T>(hooks: Hooks, cacheKey: CacheKey, fromCache: Option<Response<T>>, maxAge: int,
                      outcome: FetchOutcome<T>, now: int): (r: seq<HookEvent<T>>)
    // each callback fires at most once, when configured and when its step is reached, in this order
    ensures r == Fire(hooks.beforeGet, BeforeGet(cacheKey)) + Fire(hooks.afterGet, AfterGet(fromCache))
               + Fire(hooks.beforeSet && NeedsRevalidation(fromCache, now, maxAge), BeforeSet(cacheKey))
               + (if hooks.afterSet && NeedsRevalidation(fromCache, now, maxAge) && outcome.Fetched?
                  then [AfterSet(outcome.data)] else [])
    ensures |r| <= 4
  {
    var read := Fire(hooks.beforeGet, BeforeGet(cacheKey)) + Fire(hooks.afterGet, AfterGet(fromCache));
    if !NeedsRevalidation(fromCache, now, maxAge) then read
    else if outcome.Threw? then read + Fire(hooks.beforeSet, BeforeSet(cacheKey))
    else read + Fire(hooks.beforeSet, BeforeSet(cacheKey)) + Fire(hooks.afterSet, AfterSet(outcome.data))
  }

  /**
   * With every callback configured: the read is bracketed by `beforeGet`
   * and `afterGet`; `beforeSet` is called exactly when revalidating, before
   * the fetch; `afterSet` exactly when an entry is written.
   */
  lemma HookOrder<T>(cacheKey: CacheKey, fromCache: Option<Response<T>>, maxAge: int,
                     outcome: FetchOutcome<T>, now: int, storedAt: int)
    ensures var trace := TraceOf(Hooks(true, true, true, true), cacheKey, fromCache, maxAge, outcome, now);
      && trace[..2] == [BeforeGet(cacheKey), AfterGet(fromCache)]
      && (|trace| > 2 <==> NeedsRevalidation(fromCache, now, maxAge))
      && (|trace| > 2 ==> trace[2] == BeforeSet(cacheKey))
      && (|trace| == 4 <==> WriteOf(fromCache, maxAge, outcome, now, storedAt).Some?)
      && (|trace| == 4 ==> trace[3] == AfterSet(WriteOf(fromCache, maxAge, outcome, now, storedAt).value.data))
      && |trace| <= 4
  {
  }

  /** After `mutate(k, d)` at time t, `swr` on k within `maxAge` serves d as cached and writes nothing. */
  lemma MutateThenSwrServesCached<T>(cache: map<string, Response<T>>, cacheKey: CacheKey, data: T, t: int,
                                     maxAge: int, onError: ErrorBehaviour, outcome: FetchOutcome<T>,
                                     now: int, storedAt: int, returnedAt: int)
    requires now - t <= maxAge
    ensures var fromCache := Memory.Lookup(Memory.Put(cache, cacheKey, Response(t, data)), cacheKey);
      && CachedOf(fromCache) == Some(ResponseWithStatus(t, data, Cached))
      && FreshOf(fromCache, maxAge, onError, outcome, now, returnedAt) == Resolved(Some(ResponseWithStatus(t, data, Cached)))
      && WriteOf(fromCache, maxAge, outcome, now, storedAt).None?
  {
  }

  /**
   * After `invalidate(prefix)`, `swr` on any stored key that extends the
   * prefix segment-wise revalidates, once the clock reads more than `maxAge`.
   */
  lemma InvalidateThenSwrRevalidates<T>(cache: map<string, Response<T>>, prefix: CacheKey, cacheKey: CacheKey,
                                        now: int, maxAge: int)
    requires Memory.Lookup(cache, cacheKey).Some?
    requires IsSegmentPrefix(prefix, cacheKey)
    requires now > maxAge
    ensures NeedsRevalidation(Memory.Lookup(Memory.Invalidated(cache, prefix), cacheKey), now, maxAge)
  {
    Memory.InvalidateHitsSegmentPrefixes(cache, prefix, cacheKey);
  }

  /** What `createSWR` returns, over one adapter and one hooks configuration. */
  class Loader<T> {
    const cacheAdapter: Memory.MemoryAdapter<T>
    const hooks: Hooks
    /** The observer calls made so far. */
    var trace: seq<HookEvent<T>>

    constructor (cacheAdapter: Memory.MemoryAdapter<T>, hooks: Hooks)
      ensures this.cacheAdapter == cacheAdapter && this.hooks == hooks && trace == []
    {
      this.cacheAdapter := cacheAdapter;
      this.hooks := hooks;
      trace := [];
    }

    /**
     * `swr`, with the fetch given by its outcome and the three clock
     * readings as parameters: `now` for the revalidation test, `storedAt`
     * for the written entry and `returnedAt` for the fresh response. The
     * write is taken to complete before `fresh` settles. The observer calls
     * are collected in the order they are made and recorded when `swr` ends.
     */
    method Swr(cacheKey: CacheKey, maxAge: int, onError: ErrorBehaviour, outcome: FetchOutcome<T>,
               now: int, storedAt: int, returnedAt: int) returns (d: SWRData<T>)
      modifies this, cacheAdapter
      ensures d == SWRData(CachedOf(Memory.Lookup(old(cacheAdapter.cache), cacheKey)),
                           FreshOf(Memory.Lookup(old(cacheAdapter.cache), cacheKey), maxAge, onError, outcome, now, returnedAt),
                           onError)
      ensures cacheAdapter.cache ==
        match WriteOf(Memory.Lookup(old(cacheAdapter.cache), cacheKey), maxAge, outcome, now, storedAt)
        case None => old(cacheAdapter.cache)
        case Some(e) => Memory.Put(old(cacheAdapter.cache), cacheKey, e)
      ensures trace == old(trace) + TraceOf(hooks, cacheKey, Memory.Lookup(old(cacheAdapter.cache), cacheKey), maxAge, outcome, now)
      ensures WellTyped(d)
    {
      var calls := Fire(hooks.beforeGet, BeforeGet(cacheKey));
      var dataFromCache := cacheAdapter.Get(cacheKey);
      calls := calls + Fire(hooks.afterGet, AfterGet(dataFromCache));

      var cached := if dataFromCache.Some? then Some(dataFromCache.value.WithStatus(Cached)) else None;
      var freshResult: Settled<T>;
      var needsRevalidation := dataFromCache.None? || now - dataFromCache.value.updatedAt > maxAge;
      if !needsRevalidation {
        freshResult := Resolved(Some(dataFromCache.value.WithStatus(Cached)));
      } else {
        calls := calls + Fire(hooks.beforeSet, BeforeSet(cacheKey));
        match outcome {
          case Fetched(data) =>
            cacheAdapter.Set(cacheKey, Response(storedAt, data));
            calls := calls + Fire(hooks.afterSet, AfterSet(data));
            freshResult := Resolved(Some(ResponseWithStatus(returnedAt, data, Fresh)));
          case Threw(error) =>
            if ShouldServeStaleData(onError) {
              if dataFromCache.Some? {
                freshResult := Resolved(Some(dataFromCache.value.WithStatus(Stale)));
              } else {
                freshResult := Resolved(None);
              }
            } else {
              freshResult := Rejected(error);
            }
        }
      }
      trace := trace + calls;
      d := SWRData(cached, freshResult, onError);
    }

    /** `mutate`: writes the data stamped with the clock reading, without reading the store or fetching. */
    method Mutate(cacheKey: CacheKey, data: T, now: int)
      modifies cacheAdapter
      ensures cacheAdapter.cache == Memory.Put(old(cacheAdapter.cache), cacheKey, Response(now, data))
    {
      var updatedAt := now;
      cacheAdapter.Set(cacheKey, Response(updatedAt, data));
    }

    /** `invalidate`: the adapter's own operation. */
    method Invalidate(partialCacheKey: CacheKey)
      modifies cacheAdapter
      ensures cacheAdapter.cache == Memory.Invalidated(old(cacheAdapter.cache), partialCacheKey)
    {
      cacheAdapter.Invalidate(partialCacheKey);
    }
  }
}
