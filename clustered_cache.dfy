/**
 * RedisClusteredCache: one cache instance per (cache name, node), holding
 * configuration only; every entry lives in the shared store. The methods
 * turn map calls into store reads, writes and deletes, and are stated
 * against the functions of ClusterSemantics.
 */
module ClusteredCaches {
  import opened Wrappers
  import opened CacheEntries
  import opened RedisStore
  import opened ValueCodec
  import CacheFactory
  import opened ClusterSemantics

  class ClusteredCache {
    var name: string
    var maxCacheSize: int
    var maxLifetime: int
    const nodeId: string
    const nodePurgable: bool
    const kind: CacheFactory.CacheKind
    const codec: Codec
    const store: Store
    var nodeCacheName: string

    /** The cached partition name always follows the cache name and node id. */
    ghost predicate Valid()
      reads this, store
    {
      nodeCacheName == NodeCacheName(name, nodeId) && store.Valid()
    }

    /**
     * A cache configured by createCache, writing into the given shared
     * store. Supplying the store stands for the application context the
     * source looks up (and fails without).
     */
    constructor (spec: CacheFactory.CacheSpec, store: Store, codec: Codec)
      requires store.Valid()
      ensures Valid()
      ensures name == spec.name && maxCacheSize == spec.maxSize && maxLifetime == spec.maxLifetime
      ensures nodeId == spec.nodeId && nodePurgable == spec.nodePurgable && kind == spec.kind
      ensures this.store == store && this.codec == codec
    {
      name := spec.name;
      maxCacheSize := spec.maxSize;
      maxLifetime := spec.maxLifetime;
      nodeId := spec.nodeId;
      nodePurgable := spec.nodePurgable;
      kind := spec.kind;
      this.store := store;
      this.codec := codec;
      nodeCacheName := spec.name + spec.nodeId;
    }

    /** Only roster and local-room caches keep one record per logical key. */
    function IsSingletonCrossClusterCache(): (singleton: bool)
      ensures singleton <==> kind == CacheFactory.StringRoster || kind == CacheFactory.StringLocalMUCRoom
    {
      CacheFactory.IsSingletonCrossClusterCache(kind)
    }

    /** Whether purgeClusteredNodeCaches and clear may delete anything at all. */
    function IsNodeCachePurgeable(): (purgeable: bool)
      ensures purgeable <==> nodePurgable
    {
      nodePurgable
    }

    /** The declared value type, the target of every decode. */
    function ValueType(): ValueKind {
      CacheFactory.ValueKindOf(kind)
    }

    method SetName(newName: string)
      requires Valid()
      modifies this
      ensures Valid()
      ensures name == newName && nodeCacheName == NodeCacheName(newName, nodeId)
      ensures maxCacheSize == old(maxCacheSize) && maxLifetime == old(maxLifetime)
    {
      name := newName;
      nodeCacheName := newName + nodeId;
    }

    method SetMaxCacheSize(maxSize: int)
      requires Valid()
      modifies this
      ensures Valid()
      ensures maxCacheSize == maxSize
      ensures name == old(name) && nodeCacheName == old(nodeCacheName) && maxLifetime == old(maxLifetime)
    {
      maxCacheSize := maxSize;
    }

    method SetMaxLifetime(lifetime: int)
      requires Valid()
      modifies this
      ensures Valid()
      ensures maxLifetime == lifetime
      ensures name == old(name) && nodeCacheName == old(nodeCacheName) && maxCacheSize == old(maxCacheSize)
    {
      maxLifetime := lifetime;
    }

    /**
     * createSafeRedisCacheEntry: the record for (key, value). A failed
     * encoding keeps every key and leaves the value absent.
     */
    function CreateSafeRedisCacheEntry(key: string, value: Value): (e: CacheEntry)
      reads this
      ensures e.key == StorageKey(name, nodeId, key)
      ensures e.clusteredCacheKey == LogicalKey(name, key)
      ensures e.cacheName == name && e.nodeCacheName == nodeCacheName
      ensures e.value == Encode(codec, value) && e.expiration == maxLifetime
      ensures TimeToLive(e) == if maxLifetime < 0 then None else Some(maxLifetime as nat)
      ensures nodeCacheName == NodeCacheName(name, nodeId) ==>
        e == NewEntry(name, nodeId, maxLifetime, key, Encode(codec, value)) && WrittenBy(e, name, nodeId)
    {
      NewEntryShape(name, nodeId, maxLifetime, key, Encode(codec, value));
      CacheEntry(name + nodeId + key, name + key, name, nodeCacheName, Encode(codec, value), maxLifetime)
    }

    function DeserializedValue(stored: Option<string>): Value
      reads this
    {
      Decode(codec, ValueType(), stored)
    }

    /*** Reads ***/

    /**
     * get: every node's record of the logical key. None gives null, one
     * gives its decoded value, several give one list of their decoded
     * values with collections spliced in, in the (unspecified) order the
     * store returns them, reported as `order`.
     */
    method Get(key: string) returns (v: Value, ghost order: seq<CacheEntry>)
      requires Valid()
      ensures Enumerates(order, FindByClusteredCacheKey(store.records, LogicalKey(name, key)))
      ensures |FindByClusteredCacheKey(store.records, LogicalKey(name, key))| == |order|
      ensures |order| == 0 ==> v == Null
      ensures |order| == 1 ==> v == DeserializedValue(order[0].value)
      ensures |order| > 1 ==> v == Items(Merge(Decoded(codec, ValueType(), order)))
      ensures |FindByClusteredCacheKey(store.records, LogicalKey(name, key))| == 0 ==> v == Null
      ensures |FindByClusteredCacheKey(store.records, LogicalKey(name, key))| == 1 ==>
        forall e :: e in FindByClusteredCacheKey(store.records, LogicalKey(name, key)) ==> v == DeserializedValue(e.value)
      ensures |FindByClusteredCacheKey(store.records, LogicalKey(name, key))| > 1 ==>
        && v.Items?
        && forall x :: x in v.elements <==>
             exists e :: e in FindByClusteredCacheKey(store.records, LogicalKey(name, key)) && x in Spread(DeserializedValue(e.value))
    {
      var entries := FindByClusteredCacheKey(store.records, name + key);
      if |entries| == 0 {
        v, order := Null, [];
        return;
      }
      if |entries| == 1 {
        var e :| e in entries;
        assert entries == {e} by {
          assert |entries - {e}| == 0;
        }
        v, order := DeserializedValue(e.value), [e];
        return;
      }
      var items;
      items, order := MergeValues(entries);
      v := Items(items);
      forall x
        ensures x in items <==> exists e :: e in entries && x in Spread(DeserializedValue(e.value))
      {
        MergedReadMembers(codec, ValueType(), order, entries, x);
      }
    }

    /** The loop of get over several records: decode each and splice collections in. */
    method MergeValues(entries: set<CacheEntry>) returns (items: seq<Value>, ghost order: seq<CacheEntry>)
      ensures Enumerates(order, entries) && |order| == |entries|
      ensures items == Merge(Decoded(codec, ValueType(), order))
    {
      items := [];
      var remaining := entries;
      ghost var done: set<CacheEntry> := {};
      order := [];
      while remaining != {}
        invariant remaining <= entries
        invariant done !! remaining && done + remaining == entries
        invariant Enumerates(order, done)
        invariant items == Merge(Decoded(codec, ValueType(), order))
        decreases remaining
      {
        var e :| e in remaining;
        var val := DeserializedValue(e.value);
        if val.Items? {
          items := items + val.elements;
        } else {
          items := items + [val];
        }
        MergeDecodedStep(codec, ValueType(), order, e);
        EnumeratesStep(order, done, e);
        order := order + [e];
        done := done + {e};
        remaining := remaining - {e};
      }
      EnumerationSize(order, entries);
    }

    /*** Writes ***/

    /**
     * put: on a singleton cache every record of the logical key, from any
     * node, is deleted first; then the local record is saved. Returns the
     * value given.
     */
    method Put(key: string, value: Value) returns (r: Value)
      requires Valid()
      modifies store
      ensures Valid()
      ensures r == value
      ensures store.records == PutResult(old(store.records), IsSingletonCrossClusterCache(),
                                         NewEntry(name, nodeId, maxLifetime, key, Encode(codec, value)))
    {
      if IsSingletonCrossClusterCache() {
        var found := FindByClusteredCacheKey(store.records, name + key);
        DeleteLogicalKey(store.records, name + key);
        store.DeleteAll(found);
      }
      store.Save(CreateSafeRedisCacheEntry(key, value));
      r := value;
    }

    /**
     * putAll: nothing for a null or empty map; otherwise one record saved
     * per pair, without the singleton delete. Records outside the written
     * ids keep their values.
     */
    method PutAll(m: Option<map<string, Value>>)
      requires Valid()
      modifies store
      ensures Valid()
      ensures m.None? ==> store.records == old(store.records)
      ensures m.Some? ==> forall k :: k in m.value ==>
        StorageKey(name, nodeId, k) in store.records &&
        store.records[StorageKey(name, nodeId, k)] == NewEntry(name, nodeId, maxLifetime, k, Encode(codec, m.value[k]))
      ensures m.Some? ==> forall id :: id !in PutAllIds(name, nodeId, m.value) ==>
        FindById(store.records, id) == FindById(old(store.records), id)
    {
      if m.Some? && |m.value| > 0 {
        var pairs := m.value;
        var pending := pairs.Keys;
        while pending != {}
          invariant Valid()
          invariant pending <= pairs.Keys
          invariant forall k :: k in pairs && k !in pending ==>
            StorageKey(name, nodeId, k) in store.records &&
            store.records[StorageKey(name, nodeId, k)] == NewEntry(name, nodeId, maxLifetime, k, Encode(codec, pairs[k]))
          invariant forall id :: id !in PutAllIds(name, nodeId, pairs) ==>
            FindById(store.records, id) == FindById(old(store.records), id)
          decreases pending
        {
          var k :| k in pending;
          store.Save(CreateSafeRedisCacheEntry(k, pairs[k]));
          forall k' | k' in pairs && k' !in pending - {k} && k' != k
            ensures StorageKey(name, nodeId, k') != StorageKey(name, nodeId, k)
          {
            StorageKeyInjective(name, nodeId, k', k);
          }
          pending := pending - {k};
        }
      }
    }

    /**
     * remove: only the local record of the key; its decoded value if it
     * was there, null (and no change) otherwise.
     */
    method Remove(key: string) returns (v: Value)
      requires Valid()
      modifies store
      ensures Valid()
      ensures store.records == RemoveResult(old(store.records), name, nodeId, key)
      ensures StorageKey(name, nodeId, key) in old(store.records) ==>
        v == DeserializedValue(old(store.records)[StorageKey(name, nodeId, key)].value)
      ensures StorageKey(name, nodeId, key) !in old(store.records) ==> v == Null && store.records == old(store.records)
    {
      var id := name + nodeId + key;
      var found := FindById(store.records, id);
      if found.Some? {
        store.DeleteById(id);
        v := DeserializedValue(found.value.value);
      } else {
        v := Null;
      }
    }

    /**
     * purgeClusteredNodeCaches: deletes exactly the records of the given
     * node's partition of this cache, unless the cache is not purgeable or
     * is a singleton cache, in which case nothing changes.
     */
    method PurgeClusteredNodeCaches(node: string)
      requires Valid()
      modifies store
      ensures Valid()
      ensures IsNodeCachePurgeable() && !IsSingletonCrossClusterCache() ==>
        store.records == PurgeResult(old(store.records), NodeCacheName(name, node))
      ensures !IsNodeCachePurgeable() || IsSingletonCrossClusterCache() ==> store.records == old(store.records)
    {
      if nodePurgable && !IsSingletonCrossClusterCache() {
        var entries := FindByNodeCacheName(store.records, name + node);
        DeleteNodePartition(store.records, name + node);
        store.DeleteAll(entries);
      }
    }

    /** clear: the purge of the local node, with the same guards. */
    method Clear()
      requires Valid()
      modifies store
      ensures Valid()
      ensures IsNodeCachePurgeable() && !IsSingletonCrossClusterCache() ==>
        store.records == PurgeResult(old(store.records), nodeCacheName)
      ensures !IsNodeCachePurgeable() || IsSingletonCrossClusterCache() ==> store.records == old(store.records)
    {
      PurgeClusteredNodeCaches(nodeId);
    }

    /*** Counts ***/

    /** size: the number of this node's records in this cache (counted by example). */
    function Size(): (n: nat)
      reads this, store
      ensures n == |LocalIds(store.records, NodeCacheName(name, nodeId))|
    {
      var probe := Probe(None, None, None, Some(name + nodeId), None);
      assert MatchingIds(store.records, probe) == LocalIds(store.records, NodeCacheName(name, nodeId));
      Count(store.records, probe)
    }

    /** isEmpty: no record of this node in this cache. */
    function IsEmpty(): (b: bool)
      reads this, store
      ensures b <==> Size() == 0
      ensures b <==> forall id :: id in store.records ==> store.records[id].nodeCacheName != NodeCacheName(name, nodeId)
    {
      var probe := Probe(None, None, None, Some(name + nodeId), None);
      assert MatchingIds(store.records, probe) == LocalIds(store.records, NodeCacheName(name, nodeId));
      NoLocalIds(store.records, NodeCacheName(name, nodeId));
      Count(store.records, probe) == 0
    }

    /** containsKey: some node, any node, holds a record of the logical key. */
    function ContainsKey(key: string): (b: bool)
      reads this, store
      ensures b <==> exists id :: id in store.records && store.records[id].clusteredCacheKey == LogicalKey(name, key)
    {
      var probe := Probe(None, Some(name + key), None, None, None);
      assert forall id :: id in store.records ==>
        (id in MatchingIds(store.records, probe) <==> store.records[id].clusteredCacheKey == LogicalKey(name, key));
      Count(store.records, probe) != 0
    }

    /**
     * containsValue: some record of this cache holds the value as the JSON
     * writer renders it; when that writer fails, any record of this cache.
     */
    function ContainsValue(value: Value): (b: bool)
      reads this, store
      ensures codec.writeJson(value).Some? ==>
        (b <==> exists id :: id in store.records && store.records[id].cacheName == name && store.records[id].value == codec.writeJson(value))
      ensures codec.writeJson(value).None? ==>
        (b <==> exists id :: id in store.records && store.records[id].cacheName == name)
    {
      var probe := Probe(None, None, Some(name), None, codec.writeJson(value));
      assert forall id :: id in store.records ==>
        (id in MatchingIds(store.records, probe) <==>
          store.records[id].cacheName == name && (codec.writeJson(value).Some? ==> store.records[id].value == codec.writeJson(value)));
      Count(store.records, probe) != 0
    }

    /*** Views ***/

    /** values: the decoded value of every record of this cache, across all nodes. */
    method Values() returns (vs: seq<Value>, ghost order: seq<CacheEntry>)
      requires Valid()
      ensures Enumerates(order, FindByCacheName(store.records, name))
      ensures |vs| == |FindByCacheName(store.records, name)|
      ensures vs == Decoded(codec, ValueType(), order)
      ensures forall x :: x in vs <==> exists e :: e in FindByCacheName(store.records, name) && x == DeserializedValue(e.value)
    {
      var entries := FindByCacheName(store.records, name);
      vs := [];
      order := [];
      var remaining := entries;
      ghost var done: set<CacheEntry> := {};
      while remaining != {}
        invariant remaining <= entries
        invariant done !! remaining && done + remaining == entries
        invariant Enumerates(order, done)
        invariant vs == Decoded(codec, ValueType(), order)
        decreases remaining
      {
        var e :| e in remaining;
        vs := vs + [DeserializedValue(e.value)];
        EnumeratesStep(order, done, e);
        DecodedStep(codec, ValueType(), order, e);
        order := order + [e];
        done := done + {e};
        remaining := remaining - {e};
      }
      EnumerationSize(order, entries);
      forall x
        ensures x in vs <==> exists e :: e in entries && x == DeserializedValue(e.value)
      {
        DecodedMembers(codec, ValueType(), order, entries, x);
      }
    }

    /**
     * keySet: the entry keys of this node's records, each its logical key
     * with the first |name| characters dropped; None where that drop fails.
     */
    method KeySet() returns (keys: Option<set<string>>)
      ensures keys == KeySetOf(store.records, name, NodeCacheName(name, nodeId))
    {
      var entries := FindByNodeCacheName(store.records, name + nodeId);
      var acc: set<string> := {};
      var remaining := entries;
      ghost var done: set<CacheEntry> := {};
      while remaining != {}
        invariant done !! remaining && done + remaining == entries
        invariant forall e :: e in done ==> |name| <= |e.clusteredCacheKey|
        invariant acc == set e | e in done :: e.clusteredCacheKey[|name|..]
        decreases remaining
      {
        var e :| e in remaining;
        var stripped := StripName(name, e.clusteredCacheKey);
        if stripped.None? {
          assert e in FindByNodeCacheName(store.records, NodeCacheName(name, nodeId));
          return None;
        }
        acc := acc + {stripped.value};
        done := done + {e};
        remaining := remaining - {e};
      }
      assert done == entries;
      keys := Some(acc);
    }

    /** entrySet: (entry key, decoded value) for each of this node's records. */
    method EntrySet() returns (pairs: Option<set<(string, Value)>>)
      ensures pairs == EntrySetOf(store.records, name, NodeCacheName(name, nodeId), codec, ValueType())
    {
      var entries := FindByNodeCacheName(store.records, name + nodeId);
      var acc: set<(string, Value)> := {};
      var remaining := entries;
      ghost var done: set<CacheEntry> := {};
      while remaining != {}
        invariant done !! remaining && done + remaining == entries
        invariant forall e :: e in done ==> |name| <= |e.clusteredCacheKey|
        invariant acc == set e | e in done :: (e.clusteredCacheKey[|name|..], Decode(codec, ValueType(), e.value))
        decreases remaining
      {
        var e :| e in remaining;
        var stripped := StripName(name, e.clusteredCacheKey);
        if stripped.None? {
          assert e in FindByNodeCacheName(store.records, NodeCacheName(name, nodeId));
          return None;
        }
        acc := acc + {(stripped.value, DeserializedValue(e.value))};
        done := done + {e};
        remaining := remaining - {e};
      }
      assert done == entries;
      pairs := Some(acc);
    }
  }
}
