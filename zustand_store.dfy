/**
 * The store shape shared by the two Zustand adapters: a list of items,
 * each with its own key, plus the list operations both adapters use.
 *
 * `Equals` and `Intersection` stand for the `equals` and `intersection`
 * functions of the remeda library, which is not part of this model; their
 * definitions here are assumptions (deep equality, and the elements of the
 * first list, in order, that occur in the second).
 */
module ZustandStore {
  import opened SwrTypes

  /** One element of the store's `cache` list. */
  datatype CacheItem<T> = CacheItem(key: CacheKey, data: T, updatedAt: int)

  /** remeda `equals` on two keys: same length and the same segment at every position. */
  function Equals(a: CacheKey, b: CacheKey): (r: bool)
    ensures r <==> a == b
  {
    |a| == |b| && forall i :: 0 <= i < |a| ==> a[i] == b[i]
  }

  /** remeda `intersection(key, other)`: the segments of `key`, in order, that occur in `other`. */
  function Intersection(key: CacheKey, other: CacheKey): (r: CacheKey)
    ensures |r| <= |key|
    ensures forall x :: x in r <==> x in key && x in other
  {
    if key == [] then []
    else
      assert forall x :: x in key <==> x == key[0] || x in key[1..];
      (if key[0] in other then [key[0]] else []) + Intersection(key[1..], other)
  }

  /**
   * The adapters' "common start" test: no element of the intersection
   * differs from the partial key's segment at the same index (an index
   * past the partial key's end reads `undefined`, which differs from
   * every string).
   */
  function HasCommonStart(key: CacheKey, partialCacheKey: CacheKey): (r: bool)
    // the test holds exactly when the intersection is a prefix of the partial key
    ensures r <==> var common := Intersection(key, partialCacheKey);
      |common| <= |partialCacheKey| && partialCacheKey[..|common|] == common
  {
    var common := Intersection(key, partialCacheKey);
    NoMismatchIsPrefix(common, partialCacheKey);
    !(exists i :: 0 <= i < |common| && Mismatch(common[i], i, partialCacheKey))
  }

  /** The callback `(k, i) => k !== partialCacheKey[i]`. */
  predicate Mismatch(k: string, i: nat, partialCacheKey: CacheKey)
  {
    i >= |partialCacheKey| || k != partialCacheKey[i]
  }

  /** No element of `common` mismatches its position in `partialCacheKey` exactly when `common` is a prefix of it. */
  lemma NoMismatchIsPrefix(common: CacheKey, partialCacheKey: CacheKey)
    ensures !(exists i :: 0 <= i < |common| && Mismatch(common[i], i, partialCacheKey)) <==>
      |common| <= |partialCacheKey| && partialCacheKey[..|common|] == common
  {
    if |common| > |partialCacheKey| {
      var i := |partialCacheKey|;
      assert 0 <= i < |common| && Mismatch(common[i], i, partialCacheKey);
    } else if partialCacheKey[..|common|] != common {
      var i :| 0 <= i < |common| && partialCacheKey[..|common|][i] != common[i];
      assert 0 <= i < |common| && Mismatch(common[i], i, partialCacheKey);
    }
  }

  lemma {:induction false} IntersectionConcat(a: CacheKey, b: CacheKey, other: CacheKey)
    ensures Intersection(a + b, other) == Intersection(a, other) + Intersection(b, other)
  {
    if a == [] {
      assert a + b == b;
    } else {
      var head := if a[0] in other then [a[0]] else [];
      assert (a + b)[0] == a[0];
      assert (a + b)[1..] == a[1..] + b;
      IntersectionConcat(a[1..], b, other);
      calc {
        Intersection(a + b, other);
        head + Intersection(a[1..] + b, other);
        head + (Intersection(a[1..], other) + Intersection(b, other));
        (head + Intersection(a[1..], other)) + Intersection(b, other);
        Intersection(a, other) + Intersection(b, other);
      }
    }
  }

  lemma {:induction false} IntersectionOfContained(a: CacheKey, other: CacheKey)
    requires forall x :: x in a ==> x in other
    ensures Intersection(a, other) == a
  {
    if a != [] {
      IntersectionOfContained(a[1..], other);
      assert [a[0]] + a[1..] == a;
    }
  }

  lemma {:induction false} IntersectionOfDisjoint(a: CacheKey, other: CacheKey)
    requires forall x :: x in a ==> x !in other
    ensures Intersection(a, other) == []
  {
    if a != [] {
      IntersectionOfDisjoint(a[1..], other);
    }
  }

  /** A key made of the partial key followed by segments absent from it passes the test. */
  lemma ExtensionHasCommonStart(partialCacheKey: CacheKey, rest: CacheKey)
    requires forall x :: x in rest ==> x !in partialCacheKey
    ensures HasCommonStart(partialCacheKey + rest, partialCacheKey)
  {
    IntersectionConcat(partialCacheKey, rest, partialCacheKey);
    IntersectionOfContained(partialCacheKey, partialCacheKey);
    IntersectionOfDisjoint(rest, partialCacheKey);
    assert Intersection(partialCacheKey + rest, partialCacheKey) == partialCacheKey;
  }

  /** A key that shares no segment with the partial key passes the test too (the intersection is empty). */
  lemma DisjointKeyHasCommonStart(key: CacheKey, partialCacheKey: CacheKey)
    requires forall x :: x in key ==> x !in partialCacheKey
    ensures HasCommonStart(key, partialCacheKey)
  {
    IntersectionOfDisjoint(key, partialCacheKey);
  }

  /** A key that repeats a segment of the partial key fails the test although the partial key is its prefix. */
  lemma RepeatedSegmentMissesCommonStart()
    ensures !HasCommonStart(["a", "a"], ["a"])
  {
    assert ["a", "a"][1..] == ["a"];
    assert Intersection([], ["a"]) == [];
    assert Intersection(["a"], ["a"]) == ["a"];
    var common := Intersection(["a", "a"], ["a"]);
    assert common == ["a", "a"];
    assert Mismatch(common[1], 1, ["a"]);
  }

  /** `Array.prototype.find` by key: the index of the first item whose key equals `key`. */
  function FindIndex<T>(cache: seq<CacheItem<T>>, key: CacheKey): (r: Option<nat>)
    ensures r.Some? ==> r.value < |cache| && cache[r.value].key == key
    ensures r.Some? ==> forall j :: 0 <= j < r.value ==> cache[j].key != key
    ensures r.None? <==> forall j :: 0 <= j < |cache| ==> cache[j].key != key
  {
    if cache == [] then None
    else if Equals(cache[0].key, key) then Some(0)
    else match FindIndex(cache[1..], key)
      case None => None
      case Some(i) => Some(i + 1)
  }

  /** What `get` returns: timestamp and data of the first item with an equal key, or nothing. */
  function Lookup<T>(cache: seq<CacheItem<T>>, key: CacheKey): (r: Option<Response<T>>)
    ensures r.None? <==> forall j :: 0 <= j < |cache| ==> cache[j].key != key
    ensures r.Some? ==> exists i :: (0 <= i < |cache| && cache[i].key == key &&
      r.value == Response(cache[i].updatedAt, cache[i].data) &&
      forall j :: 0 <= j < i ==> cache[j].key != key)
  {
    match FindIndex(cache, key)
    case None => None
    case Some(i) => Some(Response(cache[i].updatedAt, cache[i].data))
  }

  /** The first match of a key depends only on the keys in the list, and items past the end of the shorter list that carry other keys are never found. */
  lemma FindIndexByKeys<T>(a: seq<CacheItem<T>>, b: seq<CacheItem<T>>, key: CacheKey)
    requires |a| <= |b|
    requires forall j :: 0 <= j < |a| ==> a[j].key == b[j].key
    requires forall j :: |a| <= j < |b| ==> b[j].key != key
    ensures FindIndex(a, key) == FindIndex(b, key)
  {
  }

  /** No key occurs twice in the list. */
  predicate UniqueKeys<T>(cache: seq<CacheItem<T>>)
  {
    forall i, j :: 0 <= i < j < |cache| ==> cache[i].key != cache[j].key
  }

  /** The list after a `set` that updates the first item with the key in place, or appends a new item. */
  function Upsert<T>(cache: seq<CacheItem<T>>, key: CacheKey, e: Response<T>): (r: seq<CacheItem<T>>)
    // the list grows by one exactly when no item had the key; existing positions keep their keys
    ensures |r| == if forall j :: 0 <= j < |cache| ==> cache[j].key != key then |cache| + 1 else |cache|
    ensures forall j :: 0 <= j < |cache| ==> r[j].key == cache[j].key
    ensures forall j :: 0 <= j < |cache| && cache[j].key != key ==> r[j] == cache[j]
    // some item now carries the key with the written data and timestamp
    ensures exists j :: 0 <= j < |r| && r[j] == CacheItem(key, e.data, e.updatedAt)
  {
    match FindIndex(cache, key)
    case Some(i) => cache[i := cache[i].(data := e.data, updatedAt := e.updatedAt)]
    case None =>
      var r := cache + [CacheItem(key, e.data, e.updatedAt)];
      assert r[|cache|] == CacheItem(key, e.data, e.updatedAt);
      r
  }

  /** After an upsert the key reads back the written response, every other key reads as before, and nothing else moves. */
  lemma UpsertProperties<T>(cache: seq<CacheItem<T>>, key: CacheKey, e: Response<T>)
    ensures Lookup(Upsert(cache, key, e), key) == Some(e)
    ensures forall other :: other != key ==> Lookup(Upsert(cache, key, e), other) == Lookup(cache, other)
    ensures |cache| <= |Upsert(cache, key, e)| <= |cache| + 1
    ensures forall j :: 0 <= j < |cache| && cache[j].key != key ==> Upsert(cache, key, e)[j] == cache[j]
    ensures UniqueKeys(cache) ==> UniqueKeys(Upsert(cache, key, e))
  {
    var r := Upsert(cache, key, e);
    forall j | 0 <= j < |cache|
      ensures cache[j].key == r[j].key
    {
    }
    forall other | other != key
      ensures Lookup(r, other) == Lookup(cache, other)
    {
      FindIndexByKeys(cache, r, other);
    }
    if FindIndex(cache, key).Some? {
      FindIndexByKeys(cache, r, key);
    } else {
      assert r[|cache|].key == key;
    }
  }

  /** The list after an `update-only` set: the first item with the key is updated; an absent key changes nothing. */
  function UpdateExisting<T>(cache: seq<CacheItem<T>>, key: CacheKey, e: Response<T>): (r: seq<CacheItem<T>>)
    ensures |r| == |cache|
    ensures forall j :: 0 <= j < |cache| ==> r[j].key == cache[j].key
    ensures forall j :: 0 <= j < |cache| && cache[j].key != key ==> r[j] == cache[j]
    ensures (forall j :: 0 <= j < |cache| ==> cache[j].key != key) ==> r == cache
    ensures (exists j :: 0 <= j < |cache| && cache[j].key == key) ==>
      exists j :: 0 <= j < |r| && r[j] == CacheItem(key, e.data, e.updatedAt)
  {
    match FindIndex(cache, key)
    case Some(i) => cache[i := cache[i].(data := e.data, updatedAt := e.updatedAt)]
    case None => cache
  }

  /** An update-only set never changes the length, leaves an absent key's list as it is, and reads back a present key. */
  lemma UpdateExistingProperties<T>(cache: seq<CacheItem<T>>, key: CacheKey, e: Response<T>)
    ensures |UpdateExisting(cache, key, e)| == |cache|
    ensures Lookup(cache, key).None? ==> UpdateExisting(cache, key, e) == cache
    ensures Lookup(cache, key).Some? ==> Lookup(UpdateExisting(cache, key, e), key) == Some(e)
    ensures forall other :: other != key ==> Lookup(UpdateExisting(cache, key, e), other) == Lookup(cache, other)
  {
    var r := UpdateExisting(cache, key, e);
    forall other | other != key
      ensures Lookup(r, other) == Lookup(cache, other)
    {
      FindIndexByKeys(cache, r, other);
    }
    FindIndexByKeys(cache, r, key);
  }

  /** The list after `invalidate`: items passing the common-start test get timestamp 0; nothing else changes. */
  function InvalidateMatching<T>(cache: seq<CacheItem<T>>, partialCacheKey: CacheKey): (r: seq<CacheItem<T>>)
    ensures |r| == |cache|
    ensures forall i :: 0 <= i < |r| ==> r[i].key == cache[i].key && r[i].data == cache[i].data
    ensures forall i :: 0 <= i < |r| ==>
      r[i].updatedAt == if HasCommonStart(cache[i].key, partialCacheKey) then 0 else cache[i].updatedAt
  {
    seq(|cache|, i requires 0 <= i < |cache| =>
      if HasCommonStart(cache[i].key, partialCacheKey) then cache[i].(updatedAt := 0) else cache[i])
  }

  /** An item whose key is the partial key followed by new segments is invalidated, keeping its data. */
  lemma InvalidateHitsExtensions<T>(cache: seq<CacheItem<T>>, partialCacheKey: CacheKey, rest: CacheKey, i: nat)
    requires i < |cache| && cache[i].key == partialCacheKey + rest
    requires forall x :: x in rest ==> x !in partialCacheKey
    ensures InvalidateMatching(cache, partialCacheKey)[i] == cache[i].(updatedAt := 0)
  {
    ExtensionHasCommonStart(partialCacheKey, rest);
  }
}
