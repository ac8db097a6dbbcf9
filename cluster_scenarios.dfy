/**
 * Whole-cache behaviours: several ClusteredCache objects, one per node,
 * over one shared store, each call going through the class methods.
 */
module ClusterScenarios {
  import opened Wrappers
  import opened CacheEntries
  import opened RedisStore
  import opened ValueCodec
  import opened ClusterSemantics
  import opened ClusteredCaches
  import CacheFactory

  /**
   * put then get returns the value and size is 1; remove then get returns
   * null and size is 0.
   */
  method PutGetRemove(store: Store, codec: Codec, name: string, nodeId: string, key: string, v: Value)
    returns (got: Value, sizeAfterPut: nat, afterRemove: Value, sizeAfterRemove: nat)
    requires store.Valid() && store.records == map[]
    requires Faithful(codec, AnySerializable, v) && Encode(codec, v).Some?
    modifies store
    ensures got == v && sizeAfterPut == 1
    ensures afterRemove == Null && sizeAfterRemove == 0
  {
    var cache := new ClusteredCache(CacheFactory.CacheSpec(CacheFactory.GenericRoute, name, 50, 50000, nodeId, true), store, codec);
    var e := NewEntry(name, nodeId, 50000, key, Encode(codec, v));
    var _ := cache.Put(key, v);
    assert store.records == map[e.key := e];
    SingleRecord(e);
    ghost var order;
    got, order := cache.Get(key);
    assert order[0] in {e};
    RoundTrip(codec, AnySerializable, v);
    sizeAfterPut := cache.Size();
    var _ := cache.Remove(key);
    assert store.records == map[];
    afterRemove, order := cache.Get(key);
    NoLocalIds(store.records, NodeCacheName(name, nodeId));
    sizeAfterRemove := cache.Size();
  }

  /**
   * On an ordinary cache, when no other record carries the logical key,
   * get returns what put stored, whatever else the store holds.
   */
  method PutThenGet(cache: ClusteredCache, key: string, v: Value) returns (got: Value)
    requires cache.Valid() && !cache.IsSingletonCrossClusterCache()
    requires forall id :: id in cache.store.records && id != StorageKey(cache.name, cache.nodeId, key) ==>
      cache.store.records[id].clusteredCacheKey != LogicalKey(cache.name, key)
    requires Faithful(cache.codec, cache.ValueType(), v) && Encode(cache.codec, v).Some?
    modifies cache.store
    ensures got == v
  {
    var e := NewEntry(cache.name, cache.nodeId, cache.maxLifetime, key, Encode(cache.codec, v));
    PutThenRead(cache.store.records, false, e);
    var _ := cache.Put(key, v);
    ghost var order;
    got, order := cache.Get(key);
    assert order[0] in {e};
    RoundTrip(cache.codec, cache.ValueType(), v);
  }

  /**
   * When no other node holds the logical key, get after remove finds
   * nothing, whatever else the store holds.
   */
  method RemoveThenGet(cache: ClusteredCache, key: string) returns (got: Value)
    requires cache.Valid()
    requires forall id :: id in cache.store.records && id != StorageKey(cache.name, cache.nodeId, key) ==>
      cache.store.records[id].clusteredCacheKey != LogicalKey(cache.name, key)
    modifies cache.store
    ensures got == Null
  {
    RemoveThenRead(cache.store.records, cache.name, cache.nodeId, key);
    var _ := cache.Remove(key);
    ghost var order;
    got, order := cache.Get(key);
  }

  /**
   * After a put, purging another node leaves size() at 1; purging the
   * local node brings it to 0.
   */
  method PurgeByNode(store: Store, codec: Codec, name: string, nodeId: string, other: string, key: string, v: Value)
    returns (sizeAfterOtherPurge: nat, sizeAfterOwnPurge: nat)
    requires store.Valid() && store.records == map[]
    requires other != nodeId
    modifies store
    ensures sizeAfterOtherPurge == 1 && sizeAfterOwnPurge == 0
  {
    var cache := new ClusteredCache(CacheFactory.CacheSpec(CacheFactory.GenericRoute, name, 50, 50000, nodeId, true), store, codec);
    var e := NewEntry(name, nodeId, 50000, key, Encode(codec, v));
    var _ := cache.Put(key, v);
    assert store.records == map[e.key := e];
    SingleRecord(e);
    ghost var before := store.records;
    cache.PurgeClusteredNodeCaches(other);
    PurgeOtherNodeKeepsLocal(before, name, nodeId, other);
    sizeAfterOtherPurge := cache.Size();
    ghost var middle := store.records;
    cache.PurgeClusteredNodeCaches(nodeId);
    PurgeEmptiesPartition(middle, NodeCacheName(name, nodeId));
    sizeAfterOwnPurge := cache.Size();
  }

  /**
   * Two nodes each put a one-element list under the same key of an
   * ordinary cache: get on either node merges both lists (in the store's
   * order); once the local node is purged, get sees only the remote list.
   */
  method LocalAndRemoteListsMerge(store: Store, codec: Codec, valueType: ValueKind, name: string,
                                  local: string, remote: string, key: string, a1: Value, a2: Value)
    returns (merged: Value, afterPurge: Value)
    requires store.Valid() && store.records == map[]
    requires local != remote
    requires Faithful(codec, valueType, Items([a1])) && Encode(codec, Items([a1])).Some?
    requires Faithful(codec, valueType, Items([a2])) && Encode(codec, Items([a2])).Some?
    modifies store
    ensures merged == Items([a1, a2]) || merged == Items([a2, a1])
    ensures afterPurge == Items([a2])
  {
    var kind := CacheFactory.CacheKind.Declared(valueType);
    var cacheLocal := new ClusteredCache(CacheFactory.CacheSpec(kind, name, -1, 50000, local, true), store, codec);
    var cacheRemote := new ClusteredCache(CacheFactory.CacheSpec(kind, name, -1, 50000, remote, true), store, codec);
    var eL := NewEntry(name, local, 50000, key, Encode(codec, Items([a1])));
    var eR := NewEntry(name, remote, 50000, key, Encode(codec, Items([a2])));
    var _ := cacheLocal.Put(key, Items([a1]));
    var _ := cacheRemote.Put(key, Items([a2]));
    SameKeyDistinctNodes(name, local, remote, key);
    assert store.records == map[eL.key := eL, eR.key := eR];
    TwoRecords(eL, eR);
    RoundTrip(codec, valueType, Items([a1]));
    RoundTrip(codec, valueType, Items([a2]));
    ghost var order;
    merged, order := cacheLocal.Get(key);
    MergedPair(codec, valueType, order, eL, eR, a1, a2);
    ghost var before := store.records;
    cacheLocal.PurgeClusteredNodeCaches(local);
    PurgeLeavesRemote(before, name, local, remote, eL, eR);
    SingleRecord(eR);
    afterPurge, order := cacheLocal.Get(key);
    assert order[0] in {eR};
  }

  /**
   * In a singleton cache the last writer wins: after node A and then node B
   * put the same key, whatever the store held before, one record remains
   * and a get on A returns B's value.
   */
  method SingletonLastWriterWins(store: Store, codec: Codec, name: string, nodeA: string, nodeB: string,
                                 key: string, v1: Value, v2: Value)
    returns (got: Value, ghost records: nat)
    requires store.Valid()
    requires Faithful(codec, Roster, v2) && Encode(codec, v2).Some?
    modifies store
    ensures got == v2 && records == 1
  {
    var cacheA := new ClusteredCache(CacheFactory.CacheSpec(CacheFactory.StringRoster, name, -1, 50000, nodeA, true), store, codec);
    var cacheB := new ClusteredCache(CacheFactory.CacheSpec(CacheFactory.StringRoster, name, -1, 50000, nodeB, true), store, codec);
    var _ := cacheA.Put(key, v1);
    ghost var before := store.records;
    var _ := cacheB.Put(key, v2);
    var eB := NewEntry(name, nodeB, 50000, key, Encode(codec, v2));
    PutSingletonLeavesOne(before, eB);
    records := |FindByClusteredCacheKey(store.records, LogicalKey(name, key))|;
    ghost var order;
    got, order := cacheA.Get(key);
    assert order[0] in {eB};
    RoundTrip(codec, Roster, v2);
  }

  /** After one put into an empty store, keySet is the key and entrySet the one pair. */
  method PutThenViews(store: Store, codec: Codec, name: string, nodeId: string, key: string, v: Value)
    returns (keys: Option<set<string>>, pairs: Option<set<(string, Value)>>)
    requires store.Valid() && store.records == map[]
    requires Faithful(codec, AnySerializable, v) && Encode(codec, v).Some?
    modifies store
    ensures keys == Some({key})
    ensures pairs == Some({(key, v)})
  {
    var cache := new ClusteredCache(CacheFactory.CacheSpec(CacheFactory.GenericRoute, name, 50, 50000, nodeId, true), store, codec);
    var e := NewEntry(name, nodeId, 50000, key, Encode(codec, v));
    var _ := cache.Put(key, v);
    assert store.records == map[e.key := e];
    SingleRecord(e);
    NewEntryShape(name, nodeId, 50000, key, Encode(codec, v));
    RoundTrip(codec, AnySerializable, v);
    assert e.nodeCacheName == NodeCacheName(name, nodeId);
    ghost var local := FindByNodeCacheName(store.records, NodeCacheName(name, nodeId));
    assert local == {e};
    assert (set x | x in local :: x.clusteredCacheKey[|name|..]) == {key};
    assert (set x | x in local :: (x.clusteredCacheKey[|name|..], Decode(codec, AnySerializable, x.value))) == {(key, v)};
    keys := cache.KeySet();
    pairs := cache.EntrySet();
  }

  /**
   * A read over two records whose values decode to one-element lists is
   * the two elements, in one order or the other.
   */
  lemma MergedPair(c: Codec, kind: ValueKind, order: seq<CacheEntry>, e1: CacheEntry, e2: CacheEntry, a1: Value, a2: Value)
    requires Enumerates(order, {e1, e2}) && e1 != e2
    requires Decode(c, kind, e1.value) == Items([a1]) && Decode(c, kind, e2.value) == Items([a2])
    ensures |order| == 2
    ensures Merge(Decoded(c, kind, order)) == [a1, a2] || Merge(Decoded(c, kind, order)) == [a2, a1]
  {
    EnumerationSize(order, {e1, e2});
    assert order[0] in {e1, e2} && order[1] in {e1, e2} && order[0] != order[1];
    if order[0] == e1 {
      assert Decoded(c, kind, order) == [Items([a1]), Items([a2])];
      TwoSingletonListsMerge(a1, a2);
    } else {
      assert Decoded(c, kind, order) == [Items([a2]), Items([a1])];
      TwoSingletonListsMerge(a2, a1);
    }
  }

  /** Purging the local node of a two-node store leaves the remote record alone. */
  lemma PurgeLeavesRemote(r: Records, name: string, local: string, remote: string, eL: CacheEntry, eR: CacheEntry)
    requires r == map[eL.key := eL, eR.key := eR]
    requires eL.nodeCacheName == NodeCacheName(name, local) && eR.nodeCacheName == NodeCacheName(name, remote)
    requires local != remote
    ensures PurgeResult(r, NodeCacheName(name, local)) == map[eR.key := eR]
  {
    NodeCacheNameInjective(name, local, remote);
  }

  /** A store holding two records under one logical key finds both. */
  lemma TwoRecords(e1: CacheEntry, e2: CacheEntry)
    requires e1.key != e2.key && e1.clusteredCacheKey == e2.clusteredCacheKey
    ensures FindByClusteredCacheKey(map[e1.key := e1, e2.key := e2], e1.clusteredCacheKey) == {e1, e2}
    ensures e1 != e2
  {
    var r := map[e1.key := e1, e2.key := e2];
    assert r[e1.key] == e1 && r[e2.key] == e2;
    assert r.Values == {e1, e2};
  }

  /** A store holding one record finds exactly that record. */
  lemma SingleRecord(e: CacheEntry)
    ensures FindByClusteredCacheKey(map[e.key := e], e.clusteredCacheKey) == {e}
    ensures FindByNodeCacheName(map[e.key := e], e.nodeCacheName) == {e}
    ensures LocalIds(map[e.key := e], e.nodeCacheName) == {e.key}
  {
    assert map[e.key := e].Values == {e} by {
      assert map[e.key := e][e.key] == e;
    }
  }
}
