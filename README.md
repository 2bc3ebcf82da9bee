# swr-loader in Dafny

A model of the core of swr-loader, a stale-while-revalidate cache for
route loaders. For each request, `swr` reads the cache adapter and returns
the entry it found, tagged `cached`. It also returns a `fresh` result. That
result is either the same entry, when the entry is not older than `maxAge`,
or the outcome of one fetch whose data is written back through the adapter.
When the fetch throws, the configured error behaviour decides: `throw`
re-raises the error, and `serve-stale` serves the old entry tagged `stale`,
or nothing when there is no entry. `mutate` writes an entry directly, and
`invalidate` is the adapter's own operation.

Modules, one per source file:

- `SwrTypes` (`swr_types.dfy`): the error behaviour, the status, the response
  records, the cache key, and the `SWRData` record with its conditional type.
- `Swr` (`swr.dfy`): the coordinator. Pure functions give the `cached` field
  (`CachedOf`), the settled `fresh` promise (`FreshOf`), the entry written
  (`WriteOf`) and the observer calls (`TraceOf`). The class `Loader` holds one
  adapter and is proved against those functions.
- `Memory` (`memory.dfy`): the in-memory adapter, a map from joined key
  strings to entries. The separator literal `'\x2003'` is the three characters
  space, `0`, `3`.
- `ZustandStore` (`zustand_store.dfy`): the list store and predicates that
  both Zustand adapters share. `Equals` and `Intersection` stand for remeda's
  `equals` and `intersection`.
- `Zustand` (`zustand.dfy`): the published Zustand adapter. Its `set` updates
  the first item with the key, or appends a new item.
- `ZustandUpdateOnly` (`zustand_update_only.dfy`): the application's Zustand
  adapter. Its `set` only updates, so the store stays empty forever.
- `Idb` (`idb.dfy`): the IndexedDB adapter's key logic over an abstract
  object store, keyed by five string slots. Keys are ordered as IndexedDB
  orders array keys.

Each adapter is a class whose methods are proved against value-level
functions (`Lookup`, `Put`, `Invalidated`, …). The lemmas about those
functions state the properties.

Assumptions:

- Clock readings are integer parameters. `swr` takes three of them: `now` for
  the revalidation test, `storedAt` for the entry written, and `returnedAt`
  for the fresh response. The source reads the clock three times.
- The fetch is an input outcome, `Fetched(data)` or `Threw(error)`.
- Hooks are modelled as a trace of the calls made, not of their effects.
- remeda `intersection(a, b)` is taken to be the elements of `a`, in order,
  that occur in `b`. remeda `equals` is taken to be deep equality.

Facts about the code that the lemmas make precise:

- No adapter invalidates exactly the keys that extend the partial key
  segment by segment:
  - The memory adapter matches string prefixes of the joined key
    (packages/swr-loader/src/adapters/memory.ts:28), so `['a']` also hits
    `['ab']`.
  - Both Zustand adapters use the intersection test
    (packages/swr-loader/src/adapters/zustand.ts:41). It passes keys that
    share no segment with the partial key, and fails `['a', 'a']` under
    `['a']`.
  - IndexedDB selects every key at or above the given key
    (src/adapters/idb.ts:61).
- An entry with `updatedAt = 0` is revalidated only when the clock reads
  more than `maxAge` (src/swr.utils.ts:51).
- The memory adapter's separator `" 03"`
  (packages/swr-loader/src/adapters/memory.ts:4) can occur inside a segment.
  So distinct keys can be stored under one string.
- The application's Zustand adapter never inserts
  (src/adapters/zustand.ts:29-36), so its store stays empty.

## Model

| member | source | states |
|---|---|---|
| `SwrTypes.ParseErrorBehaviour` | packages/swr-loader/src/swr.types.ts:8 | a string is an error behaviour iff it is `throw` or `serve-stale`, and it reads back as that literal |
| `SwrTypes.ErrorBehaviourLiteralRoundTrip` | packages/swr-loader/src/swr.types.ts:3-8 | every error behaviour is exactly one of the two distinct literals |
| `SwrTypes.ParseStatus` | packages/swr-loader/src/swr.types.ts:18 | a string is a status iff it is `fresh`, `cached` or `stale` |
| `SwrTypes.StatusLiteralRoundTrip` | packages/swr-loader/src/swr.types.ts:12-18 | every status is exactly one of three pairwise distinct literals |
| `SwrTypes.Response.WithStatus` | packages/swr-loader/src/swr.types.ts:20-27 | the status variant of a response adds exactly a status: dropping it gives back the same `updatedAt` and data |
| `Swr.FreshnessBoundary` | src/swr.utils.ts:51 | an entry exactly `maxAge` old is not revalidated; one unit older is |
| `Swr.InvalidatedEntryRevalidates` | src/swr.utils.ts:51 | an entry with `updatedAt = 0` is revalidated iff the clock reads more than `maxAge` |
| `Swr.CachedOf` | src/swr.utils.ts:49 | `cached` is absent iff the adapter returned nothing, else the adapter's entry tagged `cached` |
| `Swr.FreshOf` | src/swr.utils.ts:50-79 | `fresh` rejects only in `throw` mode after a failed revalidation, with the fetch's own error. It is null only in `serve-stale` mode after a failed fetch with no entry, so in `throw` mode it is never null (the `HandledSWRData` type of packages/swr-loader/src/swr.types.ts:10, 33). `cached` means no revalidation and the stored entry. `fresh` means the fetched data stamped with the return-time reading. `stale` means a failed fetch in `serve-stale` mode and the unchanged old entry |
| `Swr.WriteOf` | src/swr.utils.ts:54-63 | an entry is written iff revalidation was needed and the fetch succeeded, and it is `{updatedAt: storedAt, data}` |
| `Swr.ShouldServeStaleData` | src/swr.utils.ts:39-40 | stale data is asked for exactly when the error behaviour is spelled `serve-stale` |
| `Swr.NeedsRevalidation` | src/swr.utils.ts:51 | there is no entry, or the entry expired (at `updatedAt + maxAge`) strictly before `now` |
| `Swr.TraceOf` | src/swr.utils.ts:44-64 | each hook is called at most once, in the order `beforeGet`, `afterGet`, `beforeSet`, `afterSet`. Each is called iff it is configured and its step is reached: `beforeSet` iff revalidating, `afterSet` iff revalidating with a successful fetch, given the fetched data. There are at most four calls |
| `Swr.HookOrder` | src/swr.utils.ts:44-64 | with every hook configured, the trace is `BeforeGet(key)`, `AfterGet(entry)`, then `BeforeSet(key)` iff revalidating, then `AfterSet(data)` iff an entry is written, carrying the written data |
| `Swr.MutateThenSwrServesCached` | src/swr.utils.ts:84-93 | after `mutate(k, d)` at time t, `swr` on k within `maxAge` serves d tagged `cached` in both fields and writes nothing |
| `Swr.InvalidateThenSwrRevalidates` | src/swr.utils.ts:95 | after `invalidate(p)` on the memory adapter, every stored key that extends p segment-wise is revalidated once the clock reads more than `maxAge` |
| `Swr.Loader.constructor` | src/swr.utils.ts:42 | the coordinator over one adapter and one hooks configuration; no observer calls yet |
| `Swr.Loader.Swr` | src/swr.utils.ts:43-82 | the result is `CachedOf`/`FreshOf` of the entry read. The store is unchanged unless `WriteOf` gives an entry, which is then put under the key and nothing else changes. The observer calls are `TraceOf`, and the result inhabits its declared type |
| `Swr.Loader.Mutate` | src/swr.utils.ts:84-93 | the store is the old store with `{updatedAt: now, data}` put under the key; no read, no fetch, no observer call |
| `Swr.Loader.Invalidate` | src/swr.utils.ts:95 | exactly the memory adapter's invalidation |
| `Memory.JoinKeepsPrefix` | packages/swr-loader/src/adapters/memory.ts:11-28 | for any separator, a segment prefix of a key joins to a string prefix of the joined key |
| `Memory.SegmentPrefixMatches` | packages/swr-loader/src/adapters/memory.ts:25-30 | every key with the partial key as a segment prefix passes the `startsWith` filter |
| `Memory.StringPrefixOverMatches` | packages/swr-loader/src/adapters/memory.ts:28 | the filter also matches `['ab']` under `['a']`, which is not a segment prefix |
| `Memory.DistinctKeysCollide` | packages/swr-loader/src/adapters/memory.ts:4 | with the separator `" 03"`, the distinct keys `['page 03']` and `['page', '']` are stored under one string |
| `Memory.Lookup` | packages/swr-loader/src/adapters/memory.ts:11-13 | an entry is found iff the joined key is in the map, and it is the entry stored under that string |
| `Memory.Put` | packages/swr-loader/src/adapters/memory.ts:15-24 | after `set(k, e)`, `get(k)` returns e. Every key with a different joined string reads as before. Only that string is added to the keys, and the size grows by one exactly when it was absent |
| `Memory.Invalidated` | packages/swr-loader/src/adapters/memory.ts:25-38 | no entry is removed and no data changes; `updatedAt` becomes 0 exactly on strings that start with the joined prefix |
| `Memory.InvalidateHitsSegmentPrefixes` | packages/swr-loader/src/adapters/memory.ts:25-38 | an entry under a key extending the prefix segment-wise reads back with its data and `updatedAt = 0` |
| `Memory.MemoryAdapter.constructor` | packages/swr-loader/src/adapters/memory.ts:7 | the map starts empty |
| `Memory.MemoryAdapter.Get` | packages/swr-loader/src/adapters/memory.ts:10-14 | the entry under the joined key, or nothing |
| `Memory.MemoryAdapter.Set` | packages/swr-loader/src/adapters/memory.ts:15-24 | the map becomes `Put` of the old map: the existing entry is updated, or a new one inserted |
| `Memory.MemoryAdapter.Invalidate` | packages/swr-loader/src/adapters/memory.ts:25-38 | the loop over the filtered keys leaves exactly `Invalidated` of the old map |
| `Memory.MemoryAdapter.Reset` | packages/swr-loader/src/adapters/memory.ts:39-41 | the map is empty and every later `get` returns nothing |
| `ZustandStore.Equals` | packages/swr-loader/src/adapters/zustand.ts:20 | equal keys are exactly the element-wise equal ones |
| `ZustandStore.Intersection` | packages/swr-loader/src/adapters/zustand.ts:41 | the result holds exactly the segments of the key that occur in the partial key, and is no longer than the key |
| `ZustandStore.HasCommonStart` | packages/swr-loader/src/adapters/zustand.ts:40-42 | the common-start test passes iff the intersection is a prefix of the partial key |
| `ZustandStore.ExtensionHasCommonStart` | packages/swr-loader/src/adapters/zustand.ts:41 | the partial key followed by segments that do not occur in it passes the test |
| `ZustandStore.DisjointKeyHasCommonStart` | packages/swr-loader/src/adapters/zustand.ts:41 | a key that shares no segment with the partial key passes the test as well |
| `ZustandStore.RepeatedSegmentMissesCommonStart` | packages/swr-loader/src/adapters/zustand.ts:41 | `['a', 'a']` fails the test under `['a']`, although `['a']` is its segment prefix |
| `ZustandStore.FindIndex` | packages/swr-loader/src/adapters/zustand.ts:28 | the index of the first item with an equal key, or none iff no item has it |
| `ZustandStore.Lookup` | packages/swr-loader/src/adapters/zustand.ts:19-24 | nothing iff no item has the key, else `updatedAt` and data of the first item that has it |
| `ZustandStore.Upsert` | packages/swr-loader/src/adapters/zustand.ts:26-36 | the list grows by one exactly when no item had the key. Every old position keeps its key, items with other keys are untouched, and some item carries the key with the written data and timestamp |
| `ZustandStore.UpsertProperties` | packages/swr-loader/src/adapters/zustand.ts:25-36 | after the published `set(k, e)`, `get(k)` returns e and every other key reads as before. The length grows by at most one, items with other keys are untouched, and key uniqueness is kept |
| `ZustandStore.UpdateExisting` | src/adapters/zustand.ts:29-36 | same length, and every position keeps its key. Items with other keys are untouched. The list is unchanged when no item has the key; otherwise some item carries the key with the written data and timestamp |
| `ZustandStore.UpdateExistingProperties` | src/adapters/zustand.ts:25-37 | the update-only `set` keeps the length and leaves the list unchanged for an absent key. A present key reads back e, and other keys read as before |
| `ZustandStore.InvalidateMatching` | packages/swr-loader/src/adapters/zustand.ts:38-48 | length, order, keys and data unchanged; `updatedAt` is 0 exactly on items passing the common-start test |
| `ZustandStore.InvalidateHitsExtensions` | packages/swr-loader/src/adapters/zustand.ts:38-48 | an item keyed by the partial key plus new segments is invalidated with its data kept |
| `Zustand.ZustandAdapter.constructor` | packages/swr-loader/src/adapters/zustand.ts:14-16 | the store starts with an empty list |
| `Zustand.ZustandAdapter.Get` | packages/swr-loader/src/adapters/zustand.ts:19-24 | the result is `Lookup` of the list |
| `Zustand.ZustandAdapter.Set` | packages/swr-loader/src/adapters/zustand.ts:25-37 | the list becomes `Upsert` of the old list: the key reads back e, it grows by at most one, and uniqueness is kept |
| `Zustand.ZustandAdapter.Invalidate` | packages/swr-loader/src/adapters/zustand.ts:38-49 | the loop leaves exactly `InvalidateMatching` of the old list |
| `Zustand.ZustandAdapter.Reset` | packages/swr-loader/src/adapters/zustand.ts:50-52 | the list is empty and every `get` returns nothing |
| `ZustandUpdateOnly.ZustandUpdateOnlyAdapter.constructor` | src/adapters/zustand.ts:14-16 | the store starts with an empty list |
| `ZustandUpdateOnly.ZustandUpdateOnlyAdapter.Get` | src/adapters/zustand.ts:19-24 | the result is `Lookup` of the list |
| `ZustandUpdateOnly.ZustandUpdateOnlyAdapter.Set` | src/adapters/zustand.ts:25-37 | the list becomes `UpdateExisting` of the old one: same length, and unchanged when the key is absent |
| `ZustandUpdateOnly.ZustandUpdateOnlyAdapter.Invalidate` | src/adapters/zustand.ts:38-49 | the loop leaves exactly `InvalidateMatching` of the old list |
| `ZustandUpdateOnly.ZustandUpdateOnlyAdapter.Reset` | src/adapters/zustand.ts:50-52 | the list is empty |
| `ZustandUpdateOnly.Session` | src/adapters/zustand.ts:13-54 | for any sequence of calls on a new adapter, the list is still empty at the end and every `get` returned nothing |
| `Idb.GetCacheKeysObj` | src/adapters/idb.ts:15-25 | rejects exactly the key with no first segment, with that error. Otherwise the slots are the key cut to five segments, or padded to five with `''` |
| `Idb.NormaliseKey` | src/adapters/idb.ts:42-43 | throws exactly for keys longer than five. Otherwise the result has length five, begins with the key and is `''` after it |
| `Idb.NormalisedKeyIsKeyPath` | src/adapters/idb.ts:41-56 | for keys of one to five segments, `get` looks up exactly the tuple `set` stores under |
| `Idb.CompareKeys` | src/adapters/idb.ts:61 | the key order used by the range is three-valued, and yields 0 exactly on equal keys |
| `Idb.ExtensionAtOrAbove` | src/adapters/idb.ts:61 | every key that extends the bound segment-wise lies in `lowerBound(bound)` |
| `Idb.LowerBoundOverSelects` | src/adapters/idb.ts:61 | the range also holds `['b','','','','']` for the bound `['a']`, which is not an extension of it |
| `Idb.InLowerBound` | src/adapters/idb.ts:61 | a closed lower bound: the bound itself and every key ordered after it |
| `Idb.Lookup` | src/adapters/idb.ts:43-49 | throws exactly for keys longer than five. Otherwise it finds a value iff the key padded with `''` to five is stored, and returns that value's timestamp and data |
| `Idb.Put` | src/adapters/idb.ts:51-57 | fails exactly on the empty key. Otherwise the value, with its slots, lands under the key's five slots. Every other record is kept as it was, so every key that does not normalise to those slots reads as before. Every value stays under its own key path, and the store grows by at most one |
| `Idb.PutThenLookup` | src/adapters/idb.ts:41-57 | for keys of one to five segments, `get` after `set(k, e)` returns e's data and `updatedAt` |
| `Idb.TrailingEmptySegmentsCollide` | src/adapters/idb.ts:43 | after `set(['a'], e)`, `get(['a', ''])` returns e |
| `Idb.LongKeyStoredButUnreadable` | src/adapters/idb.ts:18-24 | a key longer than five is stored under its first five segments, but `get` with it throws |
| `Idb.Invalidated` | src/adapters/idb.ts:58-69 | keys, slots and data unchanged; `updatedAt` is 0 exactly on keys in `lowerBound(bound)`; key paths stay consistent |
| `Idb.InvalidateHitsExtensions` | src/adapters/idb.ts:58-69 | an entry set under a key of at most five segments that extends the bound reads back with `updatedAt = 0` and its data |
| `Idb.LongKeyEscapesItsInvalidation` | src/adapters/idb.ts:58-69 | an entry set under a key longer than five is left untouched by `invalidate` with that same key |
| `Idb.Cleared` | src/adapters/idb.ts:70-73 | exactly the entries below the bound remain, unchanged |
| `Idb.IdbAdapter.constructor` | src/adapters/idb.ts:31-38 | the adapter sees the store as earlier sessions left it |
| `Idb.IdbAdapter.Get` | src/adapters/idb.ts:41-50 | the result is `Lookup`: the error, nothing, or `{data, updatedAt}` of the normalised key's value |
| `Idb.IdbAdapter.Set` | src/adapters/idb.ts:51-57 | on the empty key, the error and an unchanged store; otherwise the store becomes `Put` of the old one |
| `Idb.IdbAdapter.Invalidate` | src/adapters/idb.ts:58-69 | the get/update/put loop over the range leaves exactly `Invalidated` of the old store |
| `Idb.IdbAdapter.Clear` | src/adapters/idb.ts:70-73 | the store becomes `Cleared` of the old one |
| `Idb.IdbAdapter.Reset` | src/adapters/idb.ts:74-77 | the store is empty and every `get` that does not throw returns nothing |

## Left out

- Promises and scheduling. Each adapter operation is one atomic step, and
  callers do not interleave. The unawaited `adapter.set` in `swr` is taken to
  complete before `fresh` settles. The memory adapter's `set` has no `await`
  inside, so it does complete then.
- Aliasing of stored objects. The memory adapter's `get` returns the stored
  object itself, and its `set` and `invalidate` mutate that object. The stale
  response is copied only when the fetch fails, so a concurrent write could
  show through it. Sequentially, the copy equals the entry read.
- Adapters other than the in-memory one behind the coordinator. The
  coordinator is bound to the memory adapter because there is no interface
  type. The other adapters are modelled on their own, with the same
  round-trip lemmas.
- `clear` on the memory adapter and both Zustand adapters. The adapter type
  requires it (src/swr.utils.ts:27), but these adapters do not implement it.
- Storage errors. The memory adapter has none. IndexedDB's malformed-key
  errors are modelled as results. Failures of the database itself
  (`openDB`, upgrade, transactions) are not modelled.
- `structuredClone` failures in the published Zustand adapter. `set`
  (packages/swr-loader/src/adapters/zustand.ts:27) and `invalidate` (:47)
  throw a `DataCloneError` on data that cannot be cloned, such as a
  function. In `invalidate`, the in-place `item.updatedAt = 0` at :45 has
  already run by then, so the store ends up invalidated while the call
  rejects. Here the data is any value, and cloning always succeeds.
- `Date.now()`, `new Date().getTime()` and numbers. They are integer
  parameters and integers. A floating-point, infinite or NaN `maxAge` is not
  modelled.
- `fetchFn` is an input outcome, not a call.
- What the hooks do. A hook that throws is not modelled; a throwing
  `beforeSet` would land in the fetch's catch. The hooks' arguments are cut
  down to the key, the entry read, or the fetched data.
- remeda `equals` and `intersection`. Their definitions are assumptions. If
  `intersection` keeps only as many copies as the other list has,
  `ZustandStore.RepeatedSegmentMissesCommonStart` does not hold.
- Zustand internals: `createStore`, subscriptions, and the copy that
  `structuredClone` makes. They are plain reassignments of the list.
- The update-only Zustand adapter's guard `if (!cachedData) return`. The
  list is always an array, so the guard never fires.
- The IndexedDB `Array.isArray` check. Keys are sequences of strings here,
  so that check cannot fail.
- `Object.assign` onto the caller's `newCache` object.
- IndexedDB string order. Strings are compared by character. IndexedDB
  compares UTF-16 code units, which orders characters outside the Basic
  Multilingual Plane differently.
- The order in which `invalidate` visits matched keys. It does not matter
  to the result.
- The React component that renders `SWRData` (src/components/SWR.tsx), the
  example application, and the build configuration.
