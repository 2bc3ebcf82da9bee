/**
 * The IndexedDB adapter's key logic over an abstract object store. Each
 * stored value carries its key in five string slots (the store's key
 * path); keys are ordered as IndexedDB orders array keys of strings.
 */
module Idb {
  import opened SwrTypes

  /** The errors the adapter throws on a malformed key. */
  datatype IdbError =
    | FirstCacheKeyNotString   // 'First cache key must be a string'
    | InvalidArrayLength       // the RangeError of `Array(n)` with n < 0

  datatype Result<T> = Ok(value: T) | Err(error: IdbError)

  /** The five key slots added to every stored value. */
  datatype ObjectWithCacheKeys = ObjectWithCacheKeys(
    cacheKey1: string, cacheKey2: string, cacheKey3: string, cacheKey4: string, cacheKey5: string)
  {
    /** The store's key path: the five slots, in order. */
    function KeyPath(): (r: seq<string>)
      ensures |r| == 5
    {
      [cacheKey1, cacheKey2, cacheKey3, cacheKey4, cacheKey5]
    }
  }

  /** A stored value: the response plus the slots it is indexed by. */
  datatype StoredValue<T> = StoredValue(updatedAt: int, data: T, keys: ObjectWithCacheKeys)

  /** `n` empty-string placeholders. */
  function Padding(n: nat): (r: seq<string>)
    ensures |r| == n
    ensures forall i :: 0 <= i < n ==> r[i] == ""
  {
    seq(n, _ => "")
  }

  /** `key[i] ?? ''`. */
  function Slot(key: CacheKey, i: nat): string
  {
    if i < |key| then key[i] else ""
  }

  /**
   * `getCacheKeysObj`: rejects a key without a first segment; otherwise the
   * key cut to five segments or padded to five with empty strings.
   */
  function GetCacheKeysObj(key: CacheKey): (r: Result<ObjectWithCacheKeys>)
    ensures r.Err? <==> key == []
    ensures r.Err? ==> r.error == FirstCacheKeyNotString
    ensures r.Ok? ==> r.value.KeyPath() == if |key| >= 5 then key[..5] else key + Padding(5 - |key|)
  {
    if |key| == 0 then Err(FirstCacheKeyNotString)
    else
      var r := ObjectWithCacheKeys(Slot(key, 0), Slot(key, 1), Slot(key, 2), Slot(key, 3), Slot(key, 4));
      assert r.KeyPath() == if |key| >= 5 then key[..5] else key + Padding(5 - |key|);
      Ok(r)
  }

  /** The key `get` looks up: the key padded with empty strings to length five; a longer key throws. */
  function NormaliseKey(key: CacheKey): (r: Result<seq<string>>)
    ensures r.Err? <==> |key| > 5
    ensures r.Ok? ==> |r.value| == 5 && r.value[..|key|] == key
    ensures r.Ok? ==> forall i :: |key| <= i < 5 ==> r.value[i] == ""
  {
    if |key| > 5 then Err(InvalidArrayLength)
    else
      assert (key + Padding(5 - |key|))[..|key|] == key;
      Ok(key + Padding(5 - |key|))
  }

  /** For keys of one to five segments `get` looks up exactly the tuple `set` stores under. */
  lemma NormalisedKeyIsKeyPath(key: CacheKey)
    requires 1 <= |key| <= 5
    ensures NormaliseKey(key) == Ok(GetCacheKeysObj(key).value.KeyPath())
  {
    if |key| == 5 {
      assert key[..5] == key == key + Padding(0);
    }
  }

  /** IndexedDB's comparison of two string keys: code unit by code unit, a proper prefix first. */
  function CompareStrings(a: string, b: string): (r: int)
    ensures -1 <= r <= 1
    ensures r == 0 <==> a == b
  {
    if a == [] then (if b == [] then 0 else -1)
    else if b == [] then 1
    else if a[0] < b[0] then -1
    else if a[0] > b[0] then 1
    else
      assert a == [a[0]] + a[1..] && b == [b[0]] + b[1..];
      CompareStrings(a[1..], b[1..])
  }

  /** IndexedDB's comparison of two array keys: element by element, a proper prefix first. */
  function CompareKeys(a: seq<string>, b: seq<string>): (r: int)
    ensures -1 <= r <= 1
    ensures r == 0 <==> a == b
  {
    if a == [] then (if b == [] then 0 else -1)
    else if b == [] then 1
    else
      var c := CompareStrings(a[0], b[0]);
      if c != 0 then c
      else
        assert a == [a[0]] + a[1..] && b == [b[0]] + b[1..];
        CompareKeys(a[1..], b[1..])
  }

  /** `IDBKeyRange.lowerBound(bound)` (closed): the stored keys at or above the bound. */
  function InLowerBound(key: seq<string>, bound: CacheKey): (r: bool)
    ensures r <==> key == bound || CompareKeys(key, bound) == 1
  {
    CompareKeys(key, bound) >= 0
  }

  /** A key that extends the bound segment-wise is at or above it. */
  lemma {:induction false} ExtensionAtOrAbove(key: seq<string>, bound: CacheKey)
    requires IsSegmentPrefix(bound, key)
    ensures InLowerBound(key, bound)
  {
    if bound != [] {
      assert key[0] == key[..|bound|][0] == bound[0];
      assert key[1..][..|bound| - 1] == key[..|bound|][1..] == bound[1..];
      ExtensionAtOrAbove(key[1..], bound[1..]);
    }
  }

  /** A proper segment prefix of a key is below it. */
  lemma {:induction false} ProperPrefixBelow(prefix: seq<string>, key: CacheKey)
    requires IsSegmentPrefix(prefix, key) && |prefix| < |key|
    ensures !InLowerBound(prefix, key)
  {
    if prefix != [] {
      assert key[0] == key[..|prefix|][0] == prefix[0];
      assert key[1..][..|prefix| - 1] == key[..|prefix|][1..] == prefix[1..];
      ProperPrefixBelow(prefix[1..], key[1..]);
    }
  }

  /** The range also holds keys that do not extend the bound: any key ordered after it. */
  lemma LowerBoundOverSelects()
    ensures InLowerBound(["b", "", "", "", ""], ["a"])
    ensures !IsSegmentPrefix(["a"], ["b", "", "", "", ""])
  {
    assert CompareStrings("b", "a") == 1;
    assert ["b", "", "", "", ""][..1] != ["a"] by { assert ["b", "", "", "", ""][..1][0] == "b"; }
  }

  /** Every stored value sits under its own key path, as an in-line key store keeps it. */
  predicate KeyPathsMatch<T>(store: map<seq<string>, StoredValue<T>>)
  {
    forall k :: k in store ==> k == store[k].keys.KeyPath()
  }

  /** What `get` returns for a key: the normalised key's data and timestamp, nothing, or the thrown error. */
  function Lookup<T>(store: map<seq<string>, StoredValue<T>>, key: CacheKey): (r: Result<Option<Response<T>>>)
    ensures r.Err? <==> |key| > 5
    ensures r.Err? ==> r.error == InvalidArrayLength
    ensures r.Ok? ==> (r.value.Some? <==> key + Padding(5 - |key|) in store)
    ensures r.Ok? && r.value.Some? ==>
      var v := store[key + Padding(5 - |key|)];
      r.value.value == Response(v.updatedAt, v.data)
  {
    match NormaliseKey(key)
    case Err(e) => Err(e)
    case Ok(k) => Ok(if k in store then Some(Response(store[k].updatedAt, store[k].data)) else None)
  }

  /** The store after `set`: the value with its slots added, put under its key path, replacing what was there. */
  function Put<T>(store: map<seq<string>, StoredValue<T>>, key: CacheKey, e: Response<T>): (r: Result<map<seq<string>, StoredValue<T>>>)
    ensures r.Err? <==> key == []
    ensures r.Ok? ==> KeyPathsMatch(store) ==> KeyPathsMatch(r.value)
    ensures r.Ok? ==> |r.value| <= |store| + 1
    // the value lands under the key's five slots, and every other record is kept as it was
    ensures r.Ok? ==> var keys := GetCacheKeysObj(key).value;
      keys.KeyPath() in r.value && r.value[keys.KeyPath()] == StoredValue(e.updatedAt, e.data, keys)
    ensures r.Ok? ==> forall k :: k != GetCacheKeysObj(key).value.KeyPath() ==>
      (k in r.value <==> k in store) && (k in store ==> r.value[k] == store[k])
    ensures r.Ok? ==> forall other :: NormaliseKey(other) != Ok(GetCacheKeysObj(key).value.KeyPath()) ==>
      Lookup(r.value, other) == Lookup(store, other)
  {
    match GetCacheKeysObj(key)
    case Err(err) => Err(err)
    case Ok(keys) => Ok(store[keys.KeyPath() := StoredValue(e.updatedAt, e.data, keys)])
  }

  /** A key of one to five segments reads back what `set` wrote under it. */
  lemma PutThenLookup<T>(store: map<seq<string>, StoredValue<T>>, key: CacheKey, e: Response<T>)
    requires 1 <= |key| <= 5
    ensures Put(store, key, e).Ok?
    ensures Lookup(Put(store, key, e).value, key) == Ok(Some(e))
  {
    NormalisedKeyIsKeyPath(key);
  }

  /** Keys that differ only by trailing empty segments share one entry. */
  lemma TrailingEmptySegmentsCollide<T>(store: map<seq<string>, StoredValue<T>>, e: Response<T>)
    ensures Put(store, ["a"], e).Ok?
    ensures Lookup(Put(store, ["a"], e).value, ["a", ""]) == Ok(Some(e))
  {
    assert NormaliseKey(["a", ""]).value == ["a", "", "", "", ""];
    assert GetCacheKeysObj(["a"]).value.KeyPath() == ["a", "", "", "", ""];
  }

  /** A key of more than five segments is stored under its first five, but reading it back throws. */
  lemma LongKeyStoredButUnreadable<T>(store: map<seq<string>, StoredValue<T>>, key: CacheKey, e: Response<T>)
    requires |key| > 5
    ensures Put(store, key, e).Ok?
    ensures key[..5] in Put(store, key, e).value
    ensures Lookup(Put(store, key, e).value, key) == Err(InvalidArrayLength)
  {
  }

  /** The store after `invalidate`: every entry in the range gets timestamp 0; nothing is removed and no data changes. */
  function Invalidated<T>(store: map<seq<string>, StoredValue<T>>, bound: CacheKey): (r: map<seq<string>, StoredValue<T>>)
    ensures r.Keys == store.Keys
    ensures forall k :: k in r ==> r[k].data == store[k].data && r[k].keys == store[k].keys
    ensures forall k :: k in r ==> r[k].updatedAt == if InLowerBound(k, bound) then 0 else store[k].updatedAt
    ensures KeyPathsMatch(store) ==> KeyPathsMatch(r)
  {
    map k | k in store :: if InLowerBound(k, bound) then store[k].(updatedAt := 0) else store[k]
  }

  /** An entry `set` wrote under a key extending the bound is invalidated, when that key has at most five segments. */
  lemma InvalidateHitsExtensions<T>(store: map<seq<string>, StoredValue<T>>, key: CacheKey, e: Response<T>, bound: CacheKey)
    requires 1 <= |key| <= 5
    requires IsSegmentPrefix(bound, key)
    ensures Put(store, key, e).Ok?
    ensures Lookup(Invalidated(Put(store, key, e).value, bound), key) == Ok(Some(Response(0, e.data)))
  {
    var path := GetCacheKeysObj(key).value.KeyPath();
    assert path[..|key|] == key;
    assert path[..|bound|] == key[..|bound|];
    ExtensionAtOrAbove(path, bound);
    NormalisedKeyIsKeyPath(key);
  }

  /** An entry `set` wrote under a key of more than five segments escapes `invalidate` with that same key. */
  lemma LongKeyEscapesItsInvalidation<T>(store: map<seq<string>, StoredValue<T>>, key: CacheKey, e: Response<T>)
    requires |key| > 5
    ensures Put(store, key, e).Ok?
    ensures Invalidated(Put(store, key, e).value, key)[key[..5]] == StoredValue(e.updatedAt, e.data, GetCacheKeysObj(key).value)
  {
    assert key[..5][..5] == key[..5];
    ProperPrefixBelow(key[..5], key);
  }

  /** The store after `clear`: exactly the entries below the bound remain, unchanged. */
  function Cleared<T>(store: map<seq<string>, StoredValue<T>>, bound: CacheKey): (r: map<seq<string>, StoredValue<T>>)
    ensures forall k :: k in r <==> k in store && !InLowerBound(k, bound)
    ensures forall k :: k in r ==> r[k] == store[k]
  {
    map k | k in store && !InLowerBound(k, bound) :: store[k]
  }

  class IdbAdapter<T> {
    /** The object store's contents. */
    var store: map<seq<string>, StoredValue<T>>

    ghost predicate Valid()
      reads this
    {
      KeyPathsMatch(store)
    }

    /** Opening the database finds whatever an earlier session left in the store. */
    constructor (persisted: map<seq<string>, StoredValue<T>>)
      requires KeyPathsMatch(persisted)
      ensures Valid() && store == persisted
    {
      store := persisted;
    }

    method Get(cacheKey: CacheKey) returns (r: Result<Option<Response<T>>>)
      ensures r == Lookup(store, cacheKey)
    {
      if |cacheKey| > 5 {
        return Err(InvalidArrayLength);
      }
      var normalisedKey := cacheKey + Padding(5 - |cacheKey|);
      if normalisedKey !in store {
        return Ok(None);
      }
      var cachedData := store[normalisedKey];
      r := Ok(Some(Response(cachedData.updatedAt, cachedData.data)));
    }

    method Set(cacheKey: CacheKey, newCache: Response<T>) returns (r: Result<()>)
      requires Valid()
      modifies this
      ensures Valid()
      ensures r.Err? <==> Put(old(store), cacheKey, newCache).Err?
      ensures r.Err? ==> r.error == FirstCacheKeyNotString && store == old(store)
      ensures r.Ok? ==> store == Put(old(store), cacheKey, newCache).value
    {
      var cacheKeys := GetCacheKeysObj(cacheKey);
      if cacheKeys.Err? {
        return Err(cacheKeys.error);
      }
      var value := StoredValue(newCache.updatedAt, newCache.data, cacheKeys.value);
      store := store[value.keys.KeyPath() := value];
      r := Ok(());
    }

    /** Each key in the range is read, its timestamp zeroed, and the value put back under its own key path. */
    method Invalidate(cacheKey: CacheKey)
      requires Valid()
      modifies this
      ensures Valid()
      ensures store == Invalidated(old(store), cacheKey)
    {
      var matches := set k | k in store && InLowerBound(k, cacheKey);
      var remaining := matches;
      while remaining != {}
        invariant remaining <= matches
        invariant store.Keys == old(store).Keys
        invariant forall k :: k in store ==>
          store[k] == if k in matches - remaining then old(store)[k].(updatedAt := 0) else old(store)[k]
        invariant KeyPathsMatch(store)
        decreases remaining
      {
        var key :| key in remaining;
        if key in store {
          var value := store[key];
          store := store[value.keys.KeyPath() := value.(updatedAt := 0)];
        }
        remaining := remaining - {key};
      }
    }

    method Clear(key: CacheKey)
      requires Valid()
      modifies this
      ensures Valid()
      ensures store == Cleared(old(store), key)
    {
      store := map k | k in store && !InLowerBound(k, key) :: store[k];
    }

    method Reset()
      modifies this
      ensures Valid()
      ensures store == map[]
      ensures forall key :: Lookup(store, key).Ok? ==> Lookup(store, key) == Ok(None)
    {
      store := map[];
    }
  }
}
