/** `LRUCache`: a cache of at most `capacity` entries that evicts the least
    recently used one, plus pinned entries that only an explicit `erase`
    removes. The entry list is a sequence, most recently used first; the access
    map sends each listed key to its position in that sequence, which stands in
    for the source's list iterator. Values are shared read-only in the source;
    here they are plain values. The mutex is not part of this model: each
    operation is one atomic step. */
module LRUCaches {
  import opened Wrappers

  /** The sequence without its element at position `i` (`std::list::erase`). */
  function RemoveAt<T>(s: seq<T>, i: nat): (r: seq<T>)
    requires i < |s|
    ensures |r| == |s| - 1
    ensures forall j :: 0 <= j < i ==> r[j] == s[j]
    ensures forall j :: i <= j < |r| ==> r[j] == s[j + 1]
  {
    s[..i] + s[i + 1..]
  }

  /** Keeps the first `capacity` entries: the effect of one `pop_back` when the
      list has grown one past its capacity. */
  function Truncated<K, V>(entries: seq<(K, V)>, capacity: nat): (r: seq<(K, V)>)
    requires |entries| <= capacity + 1
    ensures |r| <= capacity
    ensures |entries| <= capacity ==> r == entries
    ensures |entries| > capacity ==> r == entries[..capacity]
  {
    if |entries| > capacity then entries[..|entries| - 1] else entries
  }

  /** The access map sends exactly the listed keys to their positions. */
  ghost predicate Indexes<K, V>(data: seq<(K, V)>, accessMap: map<K, nat>)
  {
    && (forall k :: k in accessMap ==> accessMap[k] < |data| && data[accessMap[k]].0 == k)
    && (forall i :: 0 <= i < |data| ==> data[i].0 in accessMap && accessMap[data[i].0] == i)
  }

  /** Positions after `splice` of position `i` to the front: the ones before `i` move back by one. */
  function SplicedPositions<K>(accessMap: map<K, nat>, i: nat): map<K, nat>
  {
    map k | k in accessMap :: if accessMap[k] < i then accessMap[k] + 1 else accessMap[k]
  }

  /** Positions after `emplace_front`: all move back by one. */
  function PushedPositions<K>(accessMap: map<K, nat>): map<K, nat>
  {
    map k | k in accessMap :: accessMap[k] + 1
  }

  /** Positions after erasing `key`, which sat at position `i`: the ones after it move up by one. */
  function ErasedPositions<K>(accessMap: map<K, nat>, key: K, i: nat): map<K, nat>
  {
    map k | k in accessMap && k != key :: if accessMap[k] > i then accessMap[k] - 1 else accessMap[k]
  }

  /** After the splice, every mapped key sits at its new position. */
  lemma SplicedKeysAtPositions<K, V>(data: seq<(K, V)>, accessMap: map<K, nat>, i: nat, d: seq<(K, V)>, m: map<K, nat>)
    requires Indexes(data, accessMap) && i < |data|
    requires d == [data[i]] + RemoveAt(data, i) && m == SplicedPositions(accessMap, i)[data[i].0 := 0]
    ensures forall k :: k in m ==> m[k] < |d| && d[m[k]].0 == k
  {
    forall k | k in m
      ensures m[k] < |d| && d[m[k]].0 == k
    {
      if k != data[i].0 {
        var p := accessMap[k];
        if p < i {
          assert d[p + 1] == data[p];
        } else {
          assert p != i;
          assert d[p] == data[p];
        }
      }
    }
  }

  /** After the splice, every position's key is mapped to that position. */
  lemma SplicedPositionsOfKeys<K, V>(data: seq<(K, V)>, accessMap: map<K, nat>, i: nat, d: seq<(K, V)>, m: map<K, nat>)
    requires Indexes(data, accessMap) && i < |data|
    requires d == [data[i]] + RemoveAt(data, i) && m == SplicedPositions(accessMap, i)[data[i].0 := 0]
    ensures forall j :: 0 <= j < |d| ==> d[j].0 in m && m[d[j].0] == j
  {
    forall j | 0 <= j < |d|
      ensures d[j].0 in m && m[d[j].0] == j
    {
      if j > 0 {
        var p := if j <= i then j - 1 else j;
        assert d[j] == data[p];
        assert accessMap[data[p].0] == p;
        assert data[p].0 != data[i].0;
      }
    }
  }

  lemma SpliceKeepsIndex<K, V>(data: seq<(K, V)>, accessMap: map<K, nat>, i: nat)
    requires Indexes(data, accessMap) && i < |data|
    ensures Indexes([data[i]] + RemoveAt(data, i), SplicedPositions(accessMap, i)[data[i].0 := 0])
  {
    var d := [data[i]] + RemoveAt(data, i);
    var m := SplicedPositions(accessMap, i)[data[i].0 := 0];
    SplicedKeysAtPositions(data, accessMap, i, d, m);
    SplicedPositionsOfKeys(data, accessMap, i, d, m);
  }

  lemma PushKeepsIndex<K, V>(data: seq<(K, V)>, accessMap: map<K, nat>, entry: (K, V))
    requires Indexes(data, accessMap) && entry.0 !in accessMap
    ensures Indexes([entry] + data, PushedPositions(accessMap)[entry.0 := 0])
  {
    var d := [entry] + data;
    var m := PushedPositions(accessMap)[entry.0 := 0];
    forall k | k in m
      ensures m[k] < |d| && d[m[k]].0 == k
    {
      if k != entry.0 {
        assert d[accessMap[k] + 1] == data[accessMap[k]];
      }
    }
    forall j | 0 <= j < |d|
      ensures d[j].0 in m && m[d[j].0] == j
    {
      if j > 0 {
        assert d[j] == data[j - 1];
      }
    }
  }

  lemma PopKeepsIndex<K, V>(data: seq<(K, V)>, accessMap: map<K, nat>)
    requires Indexes(data, accessMap) && |data| > 0
    ensures Indexes(data[..|data| - 1], accessMap - {data[|data| - 1].0})
  {
    var d := data[..|data| - 1];
    var m := accessMap - {data[|data| - 1].0};
    forall k | k in m
      ensures m[k] < |d| && d[m[k]].0 == k
    {
      assert accessMap[k] != |data| - 1;
    }
  }

  lemma EraseKeepsIndex<K, V>(data: seq<(K, V)>, accessMap: map<K, nat>, key: K)
    requires Indexes(data, accessMap) && key in accessMap
    ensures Indexes(RemoveAt(data, accessMap[key]), ErasedPositions(accessMap, key, accessMap[key]))
  {
    var i := accessMap[key];
    var d := RemoveAt(data, i);
    var m := ErasedPositions(accessMap, key, i);
    forall k | k in m
      ensures m[k] < |d| && d[m[k]].0 == k
    {
      var p := accessMap[k];
      assert p != i;
      if p > i {
        assert d[p - 1] == data[p];
      } else {
        assert d[p] == data[p];
      }
    }
    forall j | 0 <= j < |d|
      ensures d[j].0 in m && m[d[j].0] == j
    {
      var p := if j < i then j else j + 1;
      assert d[j] == data[p];
      assert accessMap[data[p].0] == p;
    }
  }

  /** A key is listed iff the access map has it. */
  lemma ListedIffIndexed<K, V>(data: seq<(K, V)>, accessMap: map<K, nat>, key: K)
    requires Indexes(data, accessMap)
    ensures key in accessMap <==> exists i :: 0 <= i < |data| && data[i].0 == key
  {
    if key in accessMap {
      assert data[accessMap[key]].0 == key;
    }
  }

  class LRUCache<K(==), V> {
    var capacity: nat
    /** `_data`: the entries, most recently used first. */
    var data: seq<(K, V)>
    var pinnedMap: map<K, V>
    var accessMap: map<K, nat>

    /** The list holds at most `capacity` entries with distinct keys, the access
        map indexes it, and no key is both pinned and listed. */
    ghost predicate Valid()
      reads this
    {
      && |data| <= capacity
      && Indexes(data, accessMap)
      && (forall k :: k in pinnedMap ==> k !in accessMap)
    }

    constructor (capacity: nat)
      ensures Valid()
      ensures this.capacity == capacity && data == [] && pinnedMap == map[] && accessMap == map[]
    {
      this.capacity := capacity;
      data := [];
      pinnedMap := map[];
      accessMap := map[];
    }

    /** Moves the listed entry of `key` to the front. */
    method MoveToFront(key: K)
      requires Valid() && key in accessMap
      modifies this`data, this`accessMap
      ensures Valid()
      ensures data == [old(data[accessMap[key]])] + RemoveAt(old(data), old(accessMap[key]))
      ensures data[0].0 == key && accessMap.Keys == old(accessMap.Keys)
    {
      var i := accessMap[key];
      SpliceKeepsIndex(data, accessMap, i);
      data := [data[i]] + RemoveAt(data, i);
      accessMap := SplicedPositions(accessMap, i)[key := 0];
    }

    /** Puts a new entry at the front and drops the last one if that exceeds the capacity. */
    method PushFront(key: K, value: V)
      requires Valid() && key !in accessMap && key !in pinnedMap
      modifies this`data, this`accessMap
      ensures Valid()
      ensures data == Truncated([(key, value)] + old(data), capacity)
      ensures capacity > 0 ==> key in accessMap
    {
      PushKeepsIndex(data, accessMap, (key, value));
      data := [(key, value)] + data;
      accessMap := PushedPositions(accessMap)[key := 0];
      if |data| > capacity {
        PopKeepsIndex(data, accessMap);
        accessMap := accessMap - {data[|data| - 1].0};
        data := data[..|data| - 1];
      }
    }

    /** `tryEmplace`: returns the cached value if the key is pinned or listed
        (a listed entry becomes the most recently used); otherwise stores the
        new value at the front and returns it as emplaced too. */
    method TryEmplace(key: K, value: V) returns (emplaced: Option<V>, entry: V)
      requires Valid()
      modifies this`data, this`accessMap
      ensures Valid()
      ensures old(key in pinnedMap) ==>
        emplaced == None && entry == old(pinnedMap[key]) && data == old(data)
      ensures old(key !in pinnedMap && key in accessMap) ==>
        && emplaced == None && entry == old(data[accessMap[key]].1)
        && data == [(key, entry)] + RemoveAt(old(data), old(accessMap[key]))
      ensures old(key !in pinnedMap && key !in accessMap) ==>
        && emplaced == Some(value) && entry == value
        && data == Truncated([(key, value)] + old(data), capacity)
      ensures capacity > 0 ==> Contains(key)
    {
      if key in pinnedMap {
        return None, pinnedMap[key];
      }
      if key in accessMap {
        var cached := data[accessMap[key]].1;
        MoveToFront(key);
        return None, cached;
      }
      PushFront(key, value);
      return Some(value), value;
    }

    /** `tryEmplacePinned`: like `tryEmplace`, but the entry ends up pinned; a
        listed entry leaves the list. */
    method TryEmplacePinned(key: K, value: V) returns (emplaced: Option<V>, entry: V)
      requires Valid()
      modifies this`data, this`accessMap, this`pinnedMap
      ensures Valid()
      ensures old(key in pinnedMap) ==>
        && emplaced == None && entry == old(pinnedMap[key])
        && data == old(data) && pinnedMap == old(pinnedMap)
      ensures old(key !in pinnedMap && key in accessMap) ==>
        && emplaced == None && entry == old(data[accessMap[key]].1)
        && pinnedMap == old(pinnedMap)[key := entry]
        && data == RemoveAt(old(data), old(accessMap[key]))
      ensures old(key !in pinnedMap && key !in accessMap) ==>
        && emplaced == Some(value) && entry == value
        && pinnedMap == old(pinnedMap)[key := value] && data == old(data)
      ensures key in pinnedMap && Contains(key)
    {
      if key in pinnedMap {
        return None, pinnedMap[key];
      }
      if key in accessMap {
        var i := accessMap[key];
        var cached := data[i].1;
        pinnedMap := pinnedMap[key := cached];
        EraseKeepsIndex(data, accessMap, key);
        data := RemoveAt(data, i);
        accessMap := ErasedPositions(accessMap, key, i);
        return None, cached;
      }
      pinnedMap := pinnedMap[key := value];
      return Some(value), value;
    }

    /** `operator[]`: the cached value, if any; a listed entry becomes the most recently used. */
    method Get(key: K) returns (r: Option<V>)
      requires Valid()
      modifies this`data, this`accessMap
      ensures Valid()
      ensures old(key in pinnedMap) ==> r == Some(old(pinnedMap[key])) && data == old(data)
      ensures old(key !in pinnedMap && key in accessMap) ==>
        && r == Some(old(data[accessMap[key]].1))
        && data == [(key, r.value)] + RemoveAt(old(data), old(accessMap[key]))
      ensures old(key !in pinnedMap && key !in accessMap) ==> r == None && data == old(data)
    {
      if key in pinnedMap {
        return Some(pinnedMap[key]);
      }
      if key !in accessMap {
        return None;
      }
      MoveToFront(key);
      r := Some(data[0].1);
    }

    /** `insert` of a key that is neither listed nor pinned. */
    method Insert(key: K, value: V)
      requires Valid() && key !in accessMap && key !in pinnedMap
      modifies this`data, this`accessMap
      ensures Valid()
      ensures data == Truncated([(key, value)] + old(data), capacity)
    {
      PushFront(key, value);
    }

    /** `setCapacity`: evicts least recently used entries until the list fits. */
    method SetCapacity(nofElements: nat)
      requires Valid()
      modifies this`capacity, this`data, this`accessMap
      ensures Valid() && capacity == nofElements
      ensures |old(data)| <= nofElements ==> data == old(data)
      ensures |old(data)| > nofElements ==> data == old(data)[..nofElements]
    {
      capacity := nofElements;
      while |data| > capacity
        invariant capacity == nofElements
        invariant Indexes(data, accessMap) && (forall k :: k in pinnedMap ==> k !in accessMap)
        invariant |data| >= capacity ==> data == old(data)[..|data|]
        invariant |data| < capacity ==> data == old(data)
        decreases |data|
      {
        PopKeepsIndex(data, accessMap);
        accessMap := accessMap - {data[|data| - 1].0};
        data := data[..|data| - 1];
      }
    }

    /** `contains`: the key is pinned or listed. */
    function Contains(key: K): (r: bool)
      requires Valid()
      reads this
      ensures r <==> key in pinnedMap || exists i :: 0 <= i < |data| && data[i].0 == key
    {
      ListedIffIndexed(data, accessMap, key);
      key in pinnedMap || key in accessMap
    }

    /** `erase`: removes a pinned entry, or else a listed one, or nothing. */
    method Erase(key: K)
      requires Valid()
      modifies this`data, this`accessMap, this`pinnedMap
      ensures Valid()
      ensures old(key in pinnedMap) ==> pinnedMap == old(pinnedMap) - {key} && data == old(data)
      ensures old(key !in pinnedMap && key in accessMap) ==>
        pinnedMap == old(pinnedMap) && data == RemoveAt(old(data), old(accessMap[key]))
      ensures old(key !in pinnedMap && key !in accessMap) ==>
        pinnedMap == old(pinnedMap) && data == old(data)
      ensures !Contains(key)
    {
      if key in pinnedMap {
        pinnedMap := pinnedMap - {key};
        return;
      }
      if key !in accessMap {
        return;
      }
      var i := accessMap[key];
      EraseKeepsIndex(data, accessMap, key);
      data := RemoveAt(data, i);
      accessMap := ErasedPositions(accessMap, key, i);
    }

    /** `clear`: empties the list and keeps the pinned entries. */
    method Clear()
      requires Valid()
      modifies this`data, this`accessMap
      ensures Valid() && data == [] && accessMap == map[]
    {
      data := [];
      accessMap := map[];
    }
  }
}
