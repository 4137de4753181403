/**
 The cache of parsed queries: a list of nodes in order of use, and a map from
 keys to nodes of the list.
 */
module QueryCache {
  import opened Graphs
  import opened Counting

  type Key = string

  /** A node of the list; the handle is what an iterator to it refers to. */
  datatype Node<Value> = Node(handle: nat, key: Key, value: Value)

  /** Keys with their values, most recently used first. */
  type Uses<Value> = seq<(Key, Value)>

  /* ---------- what the cache does to its entries ---------- */

  predicate HasKey<Value>(s: Uses<Value>, key: Key) {
    exists i :: 0 <= i < |s| && s[i].0 == key
  }

  function Remove<Value>(s: Uses<Value>, key: Key): (r: Uses<Value>)
    ensures |r| <= |s| && !HasKey(r, key)
    ensures forall k :: k != key ==> (HasKey(s, k) <==> HasKey(r, k))
  {
    if s == [] then []
    else
      var rest := Remove(s[1..], key);
      RemoveFirst(s, key, rest);
      if s[0].0 == key then rest else [s[0]] + rest
  }

  lemma RemoveFirst<Value>(s: Uses<Value>, key: Key, rest: Uses<Value>)
    requires s != [] && !HasKey(rest, key)
    requires forall k :: k != key ==> (HasKey(s[1..], k) <==> HasKey(rest, k))
    ensures !HasKey(if s[0].0 == key then rest else [s[0]] + rest, key)
    ensures forall k :: k != key ==> (HasKey(s, k) <==> HasKey(if s[0].0 == key then rest else [s[0]] + rest, k))
  {
    var r := if s[0].0 == key then rest else [s[0]] + rest;
    if s[0].0 != key {
      assert r[1..] == rest;
      HasKeyFirst(r, key);
    }
    forall k | k != key ensures HasKey(s, k) <==> HasKey(r, k) {
      HasKeyFirst(s, k);
      if s[0].0 != key {
        HasKeyFirst(r, k);
      }
    }
  }

  lemma HasKeyFirst<Value>(s: Uses<Value>, k: Key)
    requires s != []
    ensures HasKey(s, k) <==> s[0].0 == k || HasKey(s[1..], k)
  {
    if HasKey(s, k) && s[0].0 != k {
      var i :| 0 <= i < |s| && s[i].0 == k;
      assert s[1..][i - 1].0 == k;
    }
    if HasKey(s[1..], k) {
      var i :| 0 <= i < |s[1..]| && s[1..][i].0 == k;
      assert s[i + 1].0 == k;
    }
  }

  /** The number of entries that stay when there are n. */
  function Limit(n: nat, maxSize: nat, elasticity: nat): (m: nat)
    ensures m <= n
  {
    if maxSize == 0 || n < maxSize + elasticity || n <= maxSize then n else maxSize
  }

  /** A new key, and what is evicted for it. */
  function Inserted<Value>(s: Uses<Value>, key: Key, value: Value, maxSize: nat, elasticity: nat): Uses<Value> {
    ([(key, value)] + s)[..Limit(|s| + 1, maxSize, elasticity)]
  }

  /* ---------- the order of use ---------- */

  /** All keys ever used, by their last use. */
  function LastUses(history: seq<Key>): (r: seq<Key>) {
    if history == [] then []
    else [Last(history)] + Without(LastUses(Init(history)), Last(history))
  }

  function Without(s: seq<Key>, key: Key): (r: seq<Key>)
    ensures |r| <= |s|
  {
    if s == [] then [] else if s[0] == key then Without(s[1..], key) else [s[0]] + Without(s[1..], key)
  }

  function KeysOf<Value>(s: Uses<Value>): (r: seq<Key>)
    ensures |r| == |s| && forall i :: 0 <= i < |s| ==> r[i] == s[i].0
  {
    seq(|s|, i requires 0 <= i < |s| => s[i].0)
  }

  lemma {:induction false} WithoutPrefix(s: seq<Key>, n: nat, key: Key)
    requires n <= |s|
    ensures Without(s[..n], key) <= Without(s, key)
    decreases |s|
  {
    if n > 0 {
      assert s[..n][0] == s[0] && s[..n][1..] == s[1..][..n - 1];
      WithoutPrefix(s[1..], n - 1, key);
    }
  }

  lemma {:induction false} KeysRemove<Value>(s: Uses<Value>, key: Key)
    ensures KeysOf(Remove(s, key)) == Without(KeysOf(s), key)
    decreases |s|
  {
    if s != [] {
      KeysRemove(s[1..], key);
      assert KeysOf(s)[1..] == KeysOf(s[1..]);
      if s[0].0 != key {
        assert KeysOf([s[0]] + Remove(s[1..], key)) == [s[0].0] + KeysOf(Remove(s[1..], key));
      }
    }
  }

  /** A hit keeps the cached keys the most recently used ones. */
  lemma HitKeepsRecent<Value>(s: Uses<Value>, history: seq<Key>, key: Key, value: Value)
    requires KeysOf(s) <= LastUses(history)
    ensures KeysOf([(key, value)] + Remove(s, key)) <= LastUses(history + [key])
  {
    var all, n := LastUses(history), |s|;
    assert KeysOf(s) == all[..n];
    KeysRemove(s, key);
    WithoutPrefix(all, n, key);
    assert Init(history + [key]) == history && Last(history + [key]) == key;
    assert KeysOf([(key, value)] + Remove(s, key)) == [key] + Without(all[..n], key);
  }

  /** So does an insertion, whatever is evicted: eviction keeps the most recently used keys. */
  lemma InsertKeepsRecent<Value>(s: Uses<Value>, history: seq<Key>, key: Key, value: Value, maxSize: nat, elasticity: nat)
    requires KeysOf(s) <= LastUses(history) && !HasKey(s, key)
    ensures KeysOf(Inserted(s, key, value, maxSize, elasticity)) <= LastUses(history + [key])
  {
    HitKeepsRecent(s, history, key, value);
    RemoveNothing(s, key);
    var all := [(key, value)] + s;
    var r := Inserted(s, key, value, maxSize, elasticity);
    assert KeysOf(r) == KeysOf(all)[..|r|];
  }

  lemma {:induction false} RemoveNothing<Value>(s: Uses<Value>, key: Key)
    requires !HasKey(s, key)
    ensures Remove(s, key) == s
    decreases |s|
  {
    if s != [] {
      HasKeyFirst(s, key);
      RemoveNothing(s[1..], key);
    }
  }

  /* ---------- the cache ---------- */

  class SyncedLRUCache<Value(==)> {
    const maxSize: nat
    const elasticity: nat
    var lruList: seq<Node<Value>>
    var cache: map<Key, nat>
    /** The handle the next node gets. */
    var next: nat

    /** Every map entry refers to a node of the list, and that has the key. */
    ghost predicate Valid()
      reads this
    {
      Sound(lruList, cache, next)
    }

    /** The list has one node for each key of the map, and no other. */
    ghost predicate Exact()
      reads this
    {
      OneNodeEach(lruList, cache)
    }

    /** As many keys as pruning after every insertion allows. */
    ghost predicate Bounded()
      reads this
    {
      maxSize == 0 || |cache| <= Most(maxSize, elasticity)
    }

    ghost function Entries(): Uses<Value>
      reads this
    {
      EntriesOf(lruList)
    }

    constructor (maxSize: nat, elasticity: nat)
      ensures Valid() && Exact() && Bounded() && lruList == [] && cache == map[] && this.maxSize == maxSize && this.elasticity == elasticity
    {
      this.maxSize := maxSize;
      this.elasticity := elasticity;
      lruList := [];
      cache := map[];
      next := 0;
    }

    /** Evicts the nodes that were not used for the longest time. */
    method Prune() returns (count: nat)
      requires Valid()
      modifies this
      ensures Valid() && next == old(next) && lruList <= old(lruList) && (old(lruList) != [] ==> lruList != [])
      ensures maxSize == 0 || |old(cache)| < maxSize + elasticity ==> lruList == old(lruList) && cache == old(cache)
      ensures |old(cache)| <= maxSize ==> lruList == old(lruList) && cache == old(cache)
      ensures maxSize > 0 && |old(cache)| >= maxSize + elasticity && |old(cache)| > maxSize ==> |cache| == maxSize
      ensures KeptKeys(old(lruList), |lruList|, old(cache), cache)
      ensures old(Exact()) && maxSize > 0 && |old(lruList)| >= maxSize + elasticity && |old(lruList)| > maxSize ==> |lruList| == maxSize
      ensures count == |old(lruList)| - |lruList|
      ensures old(Exact()) ==> Exact() && |lruList| == Limit(|old(lruList)|, maxSize, elasticity)
    {
      hide Sound, OneNodeEach, KeptKeys;
      ghost var list, keys, exact := lruList, cache, Exact();
      AllKeysKept(list, keys);
      if exact {
        SoundExact(lruList, cache, next);
      }
      if maxSize == 0 || |cache| < maxSize + elasticity {
        return 0;
      }
      count := 0;
      while |cache| > maxSize
        invariant Valid() && next == old(next) && lruList <= list && count == |list| - |lruList| && (list != [] ==> lruList != [])
        invariant |keys| <= maxSize ==> lruList == list && cache == keys
        invariant |keys| > maxSize ==> |cache| >= maxSize
        invariant KeptKeys(list, |lruList|, keys, cache)
        invariant exact ==> Exact() && |cache| == |lruList| && |lruList| >= (if |list| <= maxSize then |list| else maxSize)
        decreases |lruList|
      {
        NodesSuffice(lruList, cache, next);
        PopBack(lruList, cache, next);
        RemovedOne(cache, Last(lruList).key);
        KeptNext(list, |lruList|, keys, cache);
        cache := cache - {Last(lruList).key};
        lruList := Init(lruList);
        count := count + 1;
        if exact {
          SoundExact(lruList, cache, next);
        }
      }
    }

    /** Adds a node in front; it is not evicted. List and map keep the same keys exactly when the key is new. */
    method Insert(key: Key, value: Value) returns (r: Value)
      requires Valid()
      modifies this
      ensures Valid() && r == value && lruList != [] && lruList[0].key == key && lruList[0].value == value
      ensures old(Exact()) && key !in old(cache) ==>
                Exact() && Entries() == Inserted(old(Entries()), key, value, maxSize, elasticity)
      ensures old(Exact() && Bounded()) ==> (Exact() <==> key !in old(cache))
      ensures old(Bounded()) ==> Bounded()
      ensures old(Bounded()) && key in old(cache) ==> lruList == [lruList[0]] + old(lruList) && cache.Keys == old(cache).Keys
      ensures forall i :: 0 < i < |lruList| ==> lruList[i] in old(lruList)
      ensures maxSize == 0 || |old(cache)| + 1 < maxSize + elasticity ==> lruList == [lruList[0]] + old(lruList)
      ensures var front := Node(old(next), key, value);
              && lruList[0] == front && next == old(next) + 1 && lruList <= [front] + old(lruList)
              && KeptKeys([front] + old(lruList), |lruList|, old(cache)[key := front.handle], cache)
    {
      hide Sound, OneNodeEach, EntriesOf, Inserted, Limit, KeptKeys;
      ghost var before, keys, counter, exact := lruList, cache, next, Exact();
      PushFront(lruList, cache, next, key, value);
      if exact {
        SoundExact(before, keys, next);
      }
      GrowsByOne(cache, key, next);
      if key in cache {
        Replaced(cache, key, next);
      }
      lruList := [Node(next, key, value)] + lruList;
      cache := cache[key := next];
      next := next + 1;
      ghost var pushed := lruList;
      var count := Prune();
      r := value;
      InsertedIs(before, pushed, lruList, key, value, maxSize, elasticity);
      if exact && key in keys && lruList == pushed {
        TwoNodes(before, keys, lruList, cache, counter, key);
      }
    }

    /** The value of a key, whose node moves to the front. */
    method Lookup(key: Key) returns (r: Option<Value>)
      requires Valid()
      modifies this
      ensures Valid() && cache == old(cache) && next == old(next) && (old(Exact()) ==> Exact()) && (old(Bounded()) ==> Bounded())
      ensures key !in cache ==> r == None && lruList == old(lruList)
      ensures key in cache ==> r.Some? && lruList != [] && lruList[0].key == key && lruList[0].value == r.value
      ensures key in cache ==> MovedToFront(old(lruList), cache[key], lruList)
      ensures key in cache && old(Exact()) ==> Entries() == [(key, r.value)] + Remove(old(Entries()), key)
    {
      if key !in cache {
        return None;
      }
      hide Sound, OneNodeEach, EntriesOf, Remove, ToFront, RefersTo, MovedToFront;
      NodeOf(lruList, cache, next, key);
      var i := Find(lruList, cache[key], key);
      ghost var exact := Exact();
      Spliced(lruList, cache, next, i);
      if exact {
        SplicedExact(lruList, cache, i);
      }
      r := Some(lruList[i].value);
      Moved(lruList, i);
      lruList := ToFront(lruList, i);
    }
  }

  /** The size that pruning after every insertion allows. */
  function Most(maxSize: nat, elasticity: nat): nat {
    if elasticity == 0 then maxSize else maxSize + elasticity - 1
  }

  /** Every map entry refers to a node of the list, and that has the key. */
  ghost predicate Sound<Value>(list: seq<Node<Value>>, cache: map<Key, nat>, next: nat) {
    && (forall i :: 0 <= i < |list| ==> list[i].handle < next)
    && (forall i, j :: 0 <= i < j < |list| ==> list[i].handle != list[j].handle)
    && (forall k :: k in cache ==> RefersTo(list, cache[k], k))
  }

  ghost predicate OneNodeEach<Value>(list: seq<Node<Value>>, cache: map<Key, nat>) {
    && (forall i :: 0 <= i < |list| ==> list[i].key in cache)
    && (forall i, j :: 0 <= i < j < |list| ==> list[i].key != list[j].key)
  }

  ghost predicate RefersTo<Value>(list: seq<Node<Value>>, handle: nat, k: Key) {
    exists i :: 0 <= i < |list| && list[i].handle == handle && list[i].key == k
  }

  function EntriesOf<Value>(list: seq<Node<Value>>): (r: Uses<Value>)
    ensures |r| == |list| && forall i :: 0 <= i < |list| ==> r[i] == (list[i].key, list[i].value)
  {
    seq(|list|, i requires 0 <= i < |list| => (list[i].key, list[i].value))
  }

  function ListKeys<Value>(list: seq<Node<Value>>): (r: set<Key>)
    ensures forall k :: k in r <==> exists i :: 0 <= i < |list| && list[i].key == k
  {
    set i | 0 <= i < |list| :: list[i].key
  }

  lemma {:induction false} ListKeysSize<Value>(list: seq<Node<Value>>)
    ensures |ListKeys(list)| <= |list|
    ensures (forall i, j :: 0 <= i < j < |list| ==> list[i].key != list[j].key) ==> |ListKeys(list)| == |list|
    decreases |list|
  {
    if list != [] {
      ListKeysSize(Init(list));
      assert ListKeys(list) == ListKeys(Init(list)) + {Last(list).key};
    }
  }

  /** There are at least as many nodes as map entries. */
  lemma NodesSuffice<Value>(list: seq<Node<Value>>, cache: map<Key, nat>, next: nat)
    requires Sound(list, cache, next)
    ensures |cache| <= |list|
  {
    ListKeysSize(list);
    forall k | k in cache.Keys ensures k in ListKeys(list) {
      assert RefersTo(list, cache[k], k);
    }
    SubsetCard(cache.Keys, ListKeys(list));
    assert |cache| == |cache.Keys|;
  }

  lemma ExactSize<Value>(list: seq<Node<Value>>, cache: map<Key, nat>)
    requires OneNodeEach(list, cache) && forall k :: k in cache ==> RefersTo(list, cache[k], k)
    ensures |cache| == |list|
  {
    ListKeysSize(list);
    forall k ensures k in cache.Keys <==> k in ListKeys(list) {
      if k in cache {
        assert RefersTo(list, cache[k], k);
      }
    }
    assert cache.Keys == ListKeys(list);
    assert |cache| == |cache.Keys|;
  }

  lemma PopBack<Value>(list: seq<Node<Value>>, cache: map<Key, nat>, next: nat)
    requires Sound(list, cache, next) && list != []
    ensures Sound(Init(list), cache - {Last(list).key}, next)
    ensures OneNodeEach(list, cache) ==> OneNodeEach(Init(list), cache - {Last(list).key})
  {
    forall k | k in cache && k != Last(list).key ensures RefersTo(Init(list), cache[k], k) {
      assert RefersTo(list, cache[k], k);
      var i :| 0 <= i < |list| && list[i].handle == cache[k] && list[i].key == k;
      assert Init(list)[i] == list[i];
    }
  }

  lemma PushFront<Value>(list: seq<Node<Value>>, cache: map<Key, nat>, next: nat, key: Key, value: Value)
    requires Sound(list, cache, next)
    ensures Sound([Node(next, key, value)] + list, cache[key := next], next + 1)
    ensures OneNodeEach(list, cache) && key !in cache ==> OneNodeEach([Node(next, key, value)] + list, cache[key := next])
  {
    var r := [Node(next, key, value)] + list;
    assert r[0].handle == next && r[0].key == key;
    var m := cache[key := next];
    forall k | k in m ensures RefersTo(r, m[k], k) {
      if k != key {
        assert RefersTo(list, cache[k], k);
        var i :| 0 <= i < |list| && list[i].handle == cache[k] && list[i].key == k;
        assert r[i + 1] == list[i];
      }
    }
  }

  function ToFront<T>(s: seq<T>, i: nat): (r: seq<T>)
    requires i < |s|
    ensures |r| == |s| && r[0] == s[i]
    ensures forall j :: 0 <= j < i ==> r[j + 1] == s[j]
    ensures forall j :: i < j < |s| ==> r[j] == s[j]
  {
    [s[i]] + s[..i] + s[i + 1..]
  }

  /** The node of the handle is in front, and the others are as before. */
  ghost predicate MovedToFront<Value>(before: seq<Node<Value>>, handle: nat, after: seq<Node<Value>>) {
    exists i: nat :: i < |before| && before[i].handle == handle && after == ToFront(before, i)
  }

  lemma Moved<Value>(list: seq<Node<Value>>, i: nat)
    requires i < |list|
    ensures MovedToFront(list, list[i].handle, ToFront(list, i))
  {
  }

  lemma Spliced<Value>(list: seq<Node<Value>>, cache: map<Key, nat>, next: nat, i: nat)
    requires Sound(list, cache, next) && i < |list|
    ensures Sound(ToFront(list, i), cache, next)
  {
    var r := ToFront(list, i);
    forall k | k in cache ensures RefersTo(r, cache[k], k) {
      assert RefersTo(list, cache[k], k);
      var j :| 0 <= j < |list| && list[j].handle == cache[k] && list[j].key == k;
      assert r[if j < i then j + 1 else if j == i then 0 else j] == list[j];
    }
  }

  lemma SplicedExact<Value>(list: seq<Node<Value>>, cache: map<Key, nat>, i: nat)
    requires OneNodeEach(list, cache) && i < |list|
    ensures OneNodeEach(ToFront(list, i), cache)
    ensures EntriesOf(ToFront(list, i)) == [(list[i].key, list[i].value)] + Remove(EntriesOf(list), list[i].key)
  {
    hide *;
    SplicedOnce(list, cache, i);
    OneRemoved(list, i);
    SplicedEntries(list, i);
  }

  lemma SplicedOnce<Value>(list: seq<Node<Value>>, cache: map<Key, nat>, i: nat)
    requires OneNodeEach(list, cache) && i < |list|
    ensures OneNodeEach(ToFront(list, i), cache) && DistinctKeys(list)
  {
    var r := ToFront(list, i);
    forall j: nat | j < |list| ensures r[j] == list[if j == 0 then i else if j <= i then j - 1 else j] {
    }
    hide ToFront;
  }

  lemma SplicedEntries<Value>(list: seq<Node<Value>>, i: nat)
    requires i < |list|
    ensures EntriesOf(ToFront(list, i)) == [(list[i].key, list[i].value)] + EntriesOf(list[..i] + list[i + 1..])
  {
    EntriesFirst(ToFront(list, i));
    assert ToFront(list, i)[1..] == list[..i] + list[i + 1..];
  }

  predicate DistinctKeys<Value>(list: seq<Node<Value>>) {
    forall i, j :: 0 <= i < j < |list| ==> list[i].key != list[j].key
  }

  lemma {:induction false} OneRemoved<Value>(list: seq<Node<Value>>, i: nat)
    requires i < |list| && DistinctKeys(list)
    ensures Remove(EntriesOf(list), list[i].key) == EntriesOf(list[..i] + list[i + 1..])
    decreases |list|
  {
    hide *;
    EntriesFirst(list);
    TailKeys(list);
    if i == 0 {
      FirstRemoved(list);
    } else {
      OneRemoved(list[1..], i - 1);
      LaterRemoved(list, i);
    }
  }

  lemma EntriesFirst<Value>(list: seq<Node<Value>>)
    requires list != []
    ensures EntriesOf(list) == [(list[0].key, list[0].value)] + EntriesOf(list[1..])
  {
  }

  lemma TailKeys<Value>(list: seq<Node<Value>>)
    requires list != [] && DistinctKeys(list)
    ensures DistinctKeys(list[1..]) && forall i :: 0 < i < |list| ==> list[0].key != list[i].key
  {
  }

  lemma FirstRemoved<Value>(list: seq<Node<Value>>)
    requires list != [] && forall i :: 0 < i < |list| ==> list[0].key != list[i].key
    ensures Remove(EntriesOf(list), list[0].key) == EntriesOf(list[..0] + list[1..])
  {
    hide Remove;
    EntriesFirst(list);
    RemoveNothing(EntriesOf(list[1..]), list[0].key);
    RemoveHead((list[0].key, list[0].value), EntriesOf(list[1..]), list[0].key);
    assert list[..0] + list[1..] == list[1..];
  }

  lemma RemoveHead<Value>(e: (Key, Value), rest: Uses<Value>, key: Key)
    ensures Remove([e] + rest, key) == if e.0 == key then Remove(rest, key) else [e] + Remove(rest, key)
  {
    assert ([e] + rest)[1..] == rest;
  }

  lemma LaterRemoved<Value>(list: seq<Node<Value>>, i: nat)
    requires 0 < i < |list| && list[0].key != list[i].key
    requires Remove(EntriesOf(list[1..]), list[1..][i - 1].key) == EntriesOf(list[1..][..i - 1] + list[1..][i - 1 + 1..])
    ensures Remove(EntriesOf(list), list[i].key) == EntriesOf(list[..i] + list[i + 1..])
  {
    hide *;
    var rest := list[1..][..i - 1] + list[1..][i..];
    SliceParts(list, i);
    EntriesFirst(list);
    RemoveHead((list[0].key, list[0].value), EntriesOf(list[1..]), list[i].key);
    EntriesFirst([list[0]] + rest);
  }

  lemma SliceParts<T>(s: seq<T>, i: nat)
    requires 0 < i < |s|
    ensures s[1..][i - 1] == s[i] && s[..i] + s[i + 1..] == [s[0]] + (s[1..][..i - 1] + s[1..][i..])
    ensures ([s[0]] + (s[1..][..i - 1] + s[1..][i..]))[1..] == s[1..][..i - 1] + s[1..][i..]
  {
  }

  lemma SoundExact<Value>(list: seq<Node<Value>>, cache: map<Key, nat>, next: nat)
    requires Sound(list, cache, next) && OneNodeEach(list, cache)
    ensures |cache| == |list|
  {
    ExactSize(list, cache);
  }

  lemma NodeOf<Value>(list: seq<Node<Value>>, cache: map<Key, nat>, next: nat, key: Key)
    requires Sound(list, cache, next) && key in cache
    ensures RefersTo(list, cache[key], key)
  {
  }

  /** The position of the node a handle refers to. */
  method Find<Value(==)>(list: seq<Node<Value>>, handle: nat, key: Key) returns (i: nat)
    requires RefersTo(list, handle, key)
    ensures i < |list| && list[i].handle == handle && list[i].key == key
  {
    i :| i < |list| && list[i].handle == handle && list[i].key == key;
  }

  lemma GrowsByOne(cache: map<Key, nat>, key: Key, handle: nat)
    ensures |cache[key := handle]| == if key in cache then |cache| else |cache| + 1
  {
    assert cache[key := handle].Keys == cache.Keys + {key};
    assert |cache.Keys| == |cache| && |cache[key := handle].Keys| == |cache[key := handle]|;
  }

  lemma RemovedOne(cache: map<Key, nat>, key: Key)
    ensures |cache - {key}| >= |cache| - 1
  {
    assert (cache - {key}).Keys == cache.Keys - {key};
    assert |cache.Keys| == |cache| && |(cache - {key}).Keys| == |cache - {key}|;
  }

  lemma DroppedKeys<Value>(list: seq<Node<Value>>, n: nat)
    requires 0 < n <= |list|
    ensures ListKeys(list[n - 1..]) == ListKeys(list[n..]) + {list[n - 1].key}
  {
    var a, b, last := list[n - 1..], list[n..], list[n - 1];
    assert a == [last] + b;
    forall k ensures k in ListKeys(a) <==> k in ListKeys(b) + {last.key} {
      if k in ListKeys(b) {
        var i :| 0 <= i < |b| && b[i].key == k;
        assert a[i + 1].key == k;
      }
      if k == last.key {
        assert a[0].key == k;
      }
    }
  }

  /** The map without the keys of the nodes from the n-th on. */
  ghost predicate KeptKeys<Value>(list: seq<Node<Value>>, n: nat, keys: map<Key, nat>, cache: map<Key, nat>) {
    && n <= |list| && (forall k :: k in cache <==> k in keys && k !in ListKeys(list[n..]))
    && (forall k :: k in cache ==> cache[k] == keys[k])
  }

  lemma AllKeysKept<Value>(list: seq<Node<Value>>, keys: map<Key, nat>)
    ensures KeptKeys(list, |list|, keys, keys)
  {
    assert list[|list|..] == [];
  }

  lemma KeptNext<Value>(list: seq<Node<Value>>, n: nat, keys: map<Key, nat>, cache: map<Key, nat>)
    requires 0 < n && KeptKeys(list, n, keys, cache)
    ensures KeptKeys(list, n - 1, keys, cache - {list[n - 1].key})
  {
    DroppedKeys(list, n);
    hide ListKeys;
  }

  lemma Replaced(cache: map<Key, nat>, key: Key, handle: nat)
    requires key in cache
    ensures cache[key := handle].Keys == cache.Keys
  {
  }

  /** A node in front of one with the same key. */
  lemma TwoNodes<Value>(before: seq<Node<Value>>, keys: map<Key, nat>, list: seq<Node<Value>>, cache: map<Key, nat>, next: nat, key: Key)
    requires Sound(before, keys, next) && key in keys && |list| == |before| + 1 && list[1..] == before && list[0].key == key
    ensures !OneNodeEach(list, cache)
  {
    var i :| 0 <= i < |before| && before[i].handle == keys[key] && before[i].key == key;
    assert list[i + 1] == before[i];
  }

  lemma FrontKey<Value>(list: seq<Node<Value>>, cache: map<Key, nat>)
    requires OneNodeEach(list, cache) && list != []
    ensures list[0].key in cache
  {
  }

  lemma InsertedIs<Value>(before: seq<Node<Value>>, pushed: seq<Node<Value>>, list: seq<Node<Value>>, key: Key, value: Value,
                          maxSize: nat, elasticity: nat)
    requires |pushed| == |before| + 1 && pushed[1..] == before && pushed[0].key == key && pushed[0].value == value
    requires list <= pushed
    ensures forall i :: 0 < i < |list| ==> list[i] in before
    ensures |list| == Limit(|pushed|, maxSize, elasticity) ==>
              EntriesOf(list) == Inserted(EntriesOf(before), key, value, maxSize, elasticity)
  {
    assert list == pushed[..|list|];
    forall i | 0 < i < |list| ensures list[i] in before {
      assert list[i] == before[i - 1];
    }
    assert EntriesOf(pushed) == [(key, value)] + EntriesOf(before);
    assert EntriesOf(list) == EntriesOf(pushed)[..|list|];
  }

  /** Moving a node to the front brings no other. */
  lemma MovedWithin<Value>(before: seq<Node<Value>>, handle: nat, after: seq<Node<Value>>)
    requires MovedToFront(before, handle, after)
    ensures forall j :: 0 <= j < |after| ==> after[j] in before
  {
    var i: nat :| i < |before| && before[i].handle == handle && after == ToFront(before, i);
    forall j | 0 <= j < |after| ensures after[j] in before {
      assert after[j] == before[if j == 0 then i else if j <= i then j - 1 else j];
    }
  }

  /* ---------- parsing through the cache ---------- */

  /** Every node holds what parsing its key gives. */
  ghost predicate Faithful<Value>(c: SyncedLRUCache<Value>, parse: Key -> Value)
    reads c
  {
    forall i :: 0 <= i < |c.lruList| ==> c.lruList[i].value == parse(c.lruList[i].key)
  }

  /** What one use of a key does to the entries. */
  function Used<Value>(s: Uses<Value>, key: Key, value: Value, maxSize: nat, elasticity: nat): Uses<Value> {
    if HasKey(s, key) then [(key, value)] + Remove(s, key) else Inserted(s, key, value, maxSize, elasticity)
  }

  /** The parsed query, from the cache or newly parsed. */
  method ParseSparqlQuery<Value(==)>(c: SyncedLRUCache<Value>, parse: Key -> Value, text: Key) returns (q: Value)
    requires c.Valid() && Faithful(c, parse)
    modifies c
    ensures c.Valid() && Faithful(c, parse) && q == parse(text)
    ensures c.lruList != [] && c.lruList[0].key == text && c.lruList[0].value == q
    ensures text in old(c.cache) ==> c.cache == old(c.cache) && c.next == old(c.next)
    ensures text !in old(c.cache) ==> c.lruList[0].handle == old(c.next) && c.next == old(c.next) + 1
    ensures old(c.Exact()) ==> c.Exact() && c.Entries() == Used(old(c.Entries()), text, q, c.maxSize, c.elasticity)
    ensures old(c.Bounded()) ==> c.Bounded()
  {
    hide Sound, OneNodeEach, EntriesOf, Inserted, Remove, HasKey, Most, MovedToFront;
    ghost var exact := c.Exact();
    if exact {
      KeysAre(c.lruList, c.cache, c.next, text);
    }
    ghost var before := c.lruList;
    var found := c.Lookup(text);
    if found.None? {
      q := c.Insert(text, parse(text));
    } else {
      q := found.value;
      MovedWithin(before, c.cache[text], c.lruList);
    }
  }

  lemma KeysAre<Value>(list: seq<Node<Value>>, cache: map<Key, nat>, next: nat, key: Key)
    requires Sound(list, cache, next) && OneNodeEach(list, cache)
    ensures HasKey(EntriesOf(list), key) <==> key in cache
  {
    if key in cache {
      assert RefersTo(list, cache[key], key);
      var i :| 0 <= i < |list| && list[i].handle == cache[key] && list[i].key == key;
      assert EntriesOf(list)[i].0 == key;
    }
  }

  /** The entries after a run of uses, the last one last. */
  function AfterUses<Value>(history: seq<Key>, parse: Key -> Value, maxSize: nat, elasticity: nat): Uses<Value> {
    if history == [] then []
    else Used(AfterUses(Init(history), parse, maxSize, elasticity), Last(history), parse(Last(history)), maxSize, elasticity)
  }

  /** Whatever was used in whatever order, the cache holds the most recently used keys, with their results, and not too many. */
  lemma {:induction false} MostRecentKept<Value>(history: seq<Key>, parse: Key -> Value, maxSize: nat, elasticity: nat)
    ensures KeysOf(AfterUses(history, parse, maxSize, elasticity)) <= LastUses(history)
    ensures maxSize > 0 ==>
              |AfterUses(history, parse, maxSize, elasticity)| <= if elasticity == 0 then maxSize else maxSize + elasticity - 1
    ensures |AfterUses(history, parse, maxSize, elasticity)| >= if |LastUses(history)| < maxSize then |LastUses(history)| else maxSize
    ensures maxSize == 0 ==> KeysOf(AfterUses(history, parse, maxSize, elasticity)) == LastUses(history)
    decreases |history|
  {
    if history != [] {
      var before, key := Init(history), Last(history);
      MostRecentKept(before, parse, maxSize, elasticity);
      var s := AfterUses(before, parse, maxSize, elasticity);
      assert before + [key] == history;
      UseKeepsRecent(s, before, key, parse(key), maxSize, elasticity);
      UseKeepsEnough(s, before, key, parse(key), maxSize, elasticity);
    }
  }

  predicate NoRepeats(s: seq<Key>) {
    forall i, j :: 0 <= i < j < |s| ==> s[i] != s[j]
  }

  /** Without one key there is at most one entry less. */
  lemma {:induction false} WithoutOne(s: seq<Key>, key: Key)
    requires NoRepeats(s)
    ensures NoRepeats(Without(s, key)) && key !in Without(s, key) && |Without(s, key)| >= |s| - 1
    ensures forall k :: k in Without(s, key) ==> k in s
    ensures key !in s ==> Without(s, key) == s
    decreases |s|
  {
    if s != [] {
      NoRepeatsRest(s);
      WithoutOne(s[1..], key);
      NoRepeatsFirst(s[0], Without(s[1..], key));
      hide NoRepeats;
    }
  }

  lemma NoRepeatsRest(s: seq<Key>)
    requires NoRepeats(s) && s != []
    ensures NoRepeats(s[1..]) && s[0] !in s[1..] && s == [s[0]] + s[1..]
  {
  }

  lemma NoRepeatsFirst(x: Key, s: seq<Key>)
    ensures NoRepeats(s) && x !in s ==> NoRepeats([x] + s)
  {
  }

  lemma {:induction false} UsesDistinct(history: seq<Key>)
    ensures NoRepeats(LastUses(history))
    decreases |history|
  {
    if history != [] {
      UsesDistinct(Init(history));
      WithoutOne(LastUses(Init(history)), Last(history));
    }
  }

  /** The cache never holds fewer keys than were used, or than it may always keep. */
  lemma UseKeepsEnough<Value>(s: Uses<Value>, history: seq<Key>, key: Key, value: Value, maxSize: nat, elasticity: nat)
    requires KeysOf(s) <= LastUses(history)
    requires |s| >= if |LastUses(history)| < maxSize then |LastUses(history)| else maxSize
    ensures var r := Used(s, key, value, maxSize, elasticity);
            |r| >= if |LastUses(history + [key])| < maxSize then |LastUses(history + [key])| else maxSize
  {
    hide *;
    UsesDistinct(history);
    PrefixDistinct(KeysOf(s), LastUses(history));
    WithoutOne(KeysOf(s), key);
    KeysRemove(s, key);
    UsedIs(s, key, value, maxSize, elasticity);
    InsertedSize(s, key, value, maxSize, elasticity);
    if !HasKey(s, key) {
      RemoveNothing(s, key);
    }
    if KeysOf(s) == LastUses(history) {
      AllKept(s, history, key, value);
      SameLength(s, history, key, value);
    }
  }

  lemma PrefixDistinct(s: seq<Key>, t: seq<Key>)
    requires s <= t && NoRepeats(t)
    ensures NoRepeats(s) && (|s| == |t| ==> s == t)
  {
  }

  lemma InsertedSize<Value>(s: Uses<Value>, key: Key, value: Value, maxSize: nat, elasticity: nat)
    ensures |Inserted(s, key, value, maxSize, elasticity)| >= if |s| + 1 < maxSize then |s| + 1 else maxSize
  {
  }

  lemma SameLength<Value>(s: Uses<Value>, history: seq<Key>, key: Key, value: Value)
    requires KeysOf([(key, value)] + Remove(s, key)) == LastUses(history + [key])
    ensures |LastUses(history + [key])| == |Remove(s, key)| + 1
  {
  }

  lemma UseKeepsRecent<Value>(s: Uses<Value>, history: seq<Key>, key: Key, value: Value, maxSize: nat, elasticity: nat)
    requires KeysOf(s) <= LastUses(history)
    ensures KeysOf(Used(s, key, value, maxSize, elasticity)) <= LastUses(history + [key])
    ensures maxSize > 0 && |s| <= Most(maxSize, elasticity) ==> |Used(s, key, value, maxSize, elasticity)| <= Most(maxSize, elasticity)
    ensures maxSize == 0 && KeysOf(s) == LastUses(history) ==>
              KeysOf(Used(s, key, value, maxSize, elasticity)) == LastUses(history + [key])
  {
    hide *;
    UsedIs(s, key, value, maxSize, elasticity);
    if HasKey(s, key) {
      HitKeepsRecent(s, history, key, value);
      RemoveShort(s, key);
      if KeysOf(s) == LastUses(history) {
        AllKept(s, history, key, value);
      }
    } else {
      InsertKeepsRecent(s, history, key, value, maxSize, elasticity);
      RemoveNothing(s, key);
      if KeysOf(s) == LastUses(history) {
        AllKept(s, history, key, value);
      }
    }
  }

  lemma UsedIs<Value>(s: Uses<Value>, key: Key, value: Value, maxSize: nat, elasticity: nat)
    ensures HasKey(s, key) ==> Used(s, key, value, maxSize, elasticity) == [(key, value)] + Remove(s, key)
    ensures !HasKey(s, key) ==> Used(s, key, value, maxSize, elasticity) == Inserted(s, key, value, maxSize, elasticity)
    ensures maxSize > 0 && |s| <= Most(maxSize, elasticity) ==> |Inserted(s, key, value, maxSize, elasticity)| <= Most(maxSize, elasticity)
    ensures maxSize == 0 ==> Inserted(s, key, value, maxSize, elasticity) == [(key, value)] + s
    ensures |[(key, value)] + Remove(s, key)| == |Remove(s, key)| + 1
  {
    hide Remove, HasKey;
  }

  lemma AllKept<Value>(s: Uses<Value>, history: seq<Key>, key: Key, value: Value)
    requires KeysOf(s) == LastUses(history)
    ensures KeysOf([(key, value)] + Remove(s, key)) == LastUses(history + [key])
  {
    KeysRemove(s, key);
    assert Init(history + [key]) == history && Last(history + [key]) == key;
    hide Remove;
    assert KeysOf([(key, value)] + Remove(s, key)) == [key] + Without(KeysOf(s), key);
  }

  lemma {:induction false} RemoveShort<Value>(s: Uses<Value>, key: Key)
    requires HasKey(s, key)
    ensures |Remove(s, key)| < |s|
    decreases |s|
  {
    HasKeyFirst(s, key);
    if s[0].0 != key {
      RemoveShort(s[1..], key);
    }
  }

  /**
   Two callers that both miss a key and then both insert it leave a node that no
   key refers to: the list and the map no longer hold the same keys.
   */
  method RacingInserts<Value(==)>(c: SyncedLRUCache<Value>, key: Key, first: Value, second: Value)
    requires c.Valid() && c.Exact() && c.Bounded() && key !in c.cache
    modifies c
    ensures c.Valid() && !c.Exact() && c.Bounded() && |c.lruList| == |c.cache| + 1
  {
    hide Sound, OneNodeEach;
    var r := c.Insert(key, first);
    SoundExact(c.lruList, c.cache, c.next);
    FrontKey(c.lruList, c.cache);
    ghost var keys := c.cache;
    r := c.Insert(key, second);
    assert |keys.Keys| == |keys| && |c.cache.Keys| == |c.cache|;
  }
}
