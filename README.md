# Redis-backed clustered cache, modelled in Dafny

This project models the Redis clustered cache of the TIM+ cluster plugin.
All cluster members share one Redis store, and every cache entry is kept there as a
`RedisCacheEntry` record. Each record carries:

- an id: cache name + node id + entry key;
- a logical key: cache name + entry key;
- the cache name;
- a node partition name: cache name + node id;
- the serialized value;
- an expiration in milliseconds.

The model covers three parts of the repository:

- `RedisClusteredCache`, the cache class.
  - `size`, `isEmpty`, `keySet`, `entrySet` and `remove` see only the local node's records.
  - `get`, `values`, `containsKey` and `containsValue` see the records of every node;
    `get` merges every node's record of a key.
  - `put` and `putAll` write the local node's record. On a "singleton" cache, `put` first
    deletes every node's record of the key, so one record per logical key remains.
  - `purgeClusteredNodeCaches(node)` deletes the records of whichever node it is given.
- `RedisDelegatedClusterCacheFactory.createCache`, which picks the cache class
  from the cache name. Its roster and local-room classes turn on the singleton policy.
- `RedisCacheEntry`, as a datatype.

Modules:

- `Wrappers`: `Option`.
- `CacheEntries`: the record, its time to live, and the query-by-example probe.
- `RedisStore`: the shared store.
  - Records are a map from id to record.
  - The repository's finders are set-valued functions, and counting by example is `Count`.
  - The class `Store` holds the save and delete operations.
- `ValueCodec`: values, declared value types, and the encode/decode dispatch of the cache.
  - The Jackson and Externalizable/Base64 conversions are a `Codec` parameter.
  - The round trip is stated under the hypothesis `Faithful`.
- `CacheFactory`: the name dispatch of `createCache`, and which kinds are singleton caches.
- `ClusterSemantics`: the pure meaning of each cache operation.
  - The key scheme and its injectivity.
  - What put, remove and purge leave in the store.
  - How `get` merges several records.
  - What `keySet` and `entrySet` return.
- `ClusteredCaches`: the class `ClusteredCache`. Its methods change the shared store in
  place and are proved against `ClusterSemantics`.
- `ClusterScenarios`: several caches, one per node, over one store, each driven through
  the class, mirroring the behaviours the repository's tests check.

The store returns collections in no fixed order. The methods that iterate over one
therefore pick the next record nondeterministically. They report the order they used as
a ghost sequence (`order`), and their results are stated in terms of it.

## Model

| member | source | states |
|---|---|---|
| CacheEntries.TimeToLive | src/main/java/org/directtruststandards/timplus/cluster/cache/RedisCacheEntry.java:23-44 | a record never expires exactly when its expiration is negative, and otherwise lives for its expiration; `CreateSafeRedisCacheEntry` ties it to the cache's configured lifetime |
| CacheEntries.ProbeWildcards | src/main/java/org/jivesoftware/util/cache/RedisClusteredCache.java:201-202 | a probe of null fields matches every record, and the expiration carried by a probe never decides a match |
| RedisStore.Count | src/main/java/org/jivesoftware/util/cache/RedisClusteredCache.java:201-202 | counting by example is zero exactly when no record matches the probe |
| RedisStore.Store.constructor | src/main/java/org/directtruststandards/timplus/cluster/cache/RedisCacheRepository.java:14 | a new store is empty and well keyed |
| RedisStore.Store.Save | src/main/java/org/directtruststandards/timplus/cluster/cache/RedisCacheRepository.java:14 | saving replaces the record with the same id and leaves every other id as it was |
| RedisStore.Store.DeleteById | src/main/java/org/directtruststandards/timplus/cluster/cache/RedisCacheRepository.java:14 | deleting by id removes that id only |
| RedisStore.Store.DeleteAll | src/main/java/org/directtruststandards/timplus/cluster/cache/RedisCacheRepository.java:14 | deleting records removes exactly their ids |
| ValueCodec.Encode | src/main/java/org/jivesoftware/util/cache/RedisClusteredCache.java:336-348 | an Externalizable value is written by its external writer, any other value as JSON; a failing writer gives no stored value |
| ValueCodec.Decode | src/main/java/org/jivesoftware/util/cache/RedisClusteredCache.java:359-383 | a missing stored value or a failing reader gives null; otherwise the reader chosen by the declared type (external or JSON) gives the value |
| ValueCodec.RoundTrip | src/main/java/org/jivesoftware/util/cache/RedisClusteredCache.java:332-383 | for a codec faithful to the declared type, a stored value decodes back to the value put, and a value whose serialization failed reads back as null |
| CacheFactory.IsSingletonCrossClusterCache | src/main/java/org/directtruststandards/timplus/cluster/cache/RedisDelegatedClusterCacheFactory.java:140-171 | a kind is a singleton cache exactly when it is the roster or the local-room kind |
| CacheFactory.Dispatch | src/main/java/org/directtruststandards/timplus/cluster/cache/RedisDelegatedClusterCacheFactory.java:52-100 | the factory never picks a declared-elsewhere class; it picks the local-room kind iff the name is no switch label and starts with the local-room base name, and the generic kind iff the name is no label and does not |
| CacheFactory.CreateCache | src/main/java/org/directtruststandards/timplus/cluster/cache/RedisDelegatedClusterCacheFactory.java:48-103 | createCache always yields a cache of the dispatched kind that carries name, sizes, lifetime, node and purge flag unchanged |
| CacheFactory.ClientRouteNames | src/main/java/org/directtruststandards/timplus/cluster/cache/RedisDelegatedClusterCacheFactory.java:54-58 | both client-route names select the String to ClientRoute cache |
| CacheFactory.FixedNames | src/main/java/org/directtruststandards/timplus/cluster/cache/RedisDelegatedClusterCacheFactory.java:60-89 | with distinct labels, each remaining label selects its own cache class |
| CacheFactory.SingletonNames | src/main/java/org/directtruststandards/timplus/cluster/cache/RedisDelegatedClusterCacheFactory.java:80-96 | createCache yields a singleton cache exactly for the roster name (when it is not an earlier label) and for unlabelled names starting with the local-room base |
| CacheFactory.LocalRoomCacheNotPurgeable | src/test/java/org/directtruststandards/timplus/cluster/cache/RedisDelegatedClusterCacheFactory_createCacheTest.java:63-67 | a local-room name created with purging off gives a singleton local-room cache that is not purgeable |
| ClusterSemantics.StorageKeyInjective | src/main/java/org/jivesoftware/util/cache/RedisClusteredCache.java:350 | within one cache and node, two entry keys share a record id iff they are equal |
| ClusterSemantics.NodeCacheNameInjective | src/main/java/org/jivesoftware/util/cache/RedisClusteredCache.java:83 | within one cache, two nodes share a partition name iff they are the same node |
| ClusterSemantics.SameKeyDistinctNodes | src/main/java/org/jivesoftware/util/cache/RedisClusteredCache.java:350 | one entry key written by two nodes lands in one record iff the nodes are equal |
| ClusterSemantics.DistinctNodesDistinctIds | src/main/java/org/jivesoftware/util/cache/RedisClusteredCache.java:350 | with prefix-free node ids, no record id of one node is a record id of another, whatever the keys |
| ClusterSemantics.NewEntryShape | src/main/java/org/jivesoftware/util/cache/RedisClusteredCache.java:350-355 | a written record has the id, logical key, cache name and partition of its cache and node, and stripping the cache name from its logical key gives back the entry key |
| ClusterSemantics.DeleteLogicalKey | src/main/java/org/jivesoftware/util/cache/RedisClusteredCache.java:272 | deleting what the logical-key finder returns removes exactly the records with that logical key |
| ClusterSemantics.PutOrdinaryFrame | src/main/java/org/jivesoftware/util/cache/RedisClusteredCache.java:275 | on an ordinary cache put stores its record and every other id keeps its record |
| ClusterSemantics.PutSingletonLeavesOne | src/main/java/org/jivesoftware/util/cache/RedisClusteredCache.java:267-278 | on a singleton cache exactly one record of the logical key remains, the new one; records of other logical keys stay, and nothing else is left |
| ClusterSemantics.PutThenRead | src/main/java/org/jivesoftware/util/cache/RedisClusteredCache.java:267-278 | when no other record carries the logical key, after a put under either policy a read of the key finds exactly the new record |
| ClusterSemantics.RemoveThenRead | src/main/java/org/jivesoftware/util/cache/RedisClusteredCache.java:281-292 | when no record but the local one carries the logical key, after a remove a read of the key finds nothing |
| ClusterSemantics.RemoveSparesOtherNodes | src/main/java/org/jivesoftware/util/cache/RedisClusteredCache.java:281-292 | with prefix-free node ids, remove never touches a record another node wrote |
| ClusterSemantics.PurgeResult | src/main/java/org/jivesoftware/util/cache/RedisClusteredCache.java:301-310 | purging keeps exactly the records outside the node's partition, unchanged |
| ClusterSemantics.DeleteNodePartition | src/main/java/org/jivesoftware/util/cache/RedisClusteredCache.java:306-308 | deleting what the partition finder returns is the purge |
| ClusterSemantics.PurgeOtherNodeKeepsLocal | src/test/java/org/jivesoftware/util/cache/RedisClusteredCache_cacheOperationsTest.java:253-257 | purging another node keeps every local record, so the local count is unchanged |
| ClusterSemantics.PurgeEmptiesPartition | src/main/java/org/jivesoftware/util/cache/RedisClusteredCache.java:301-310 | after purging a node, it holds no record in the cache |
| ClusterSemantics.NoLocalIds | src/main/java/org/jivesoftware/util/cache/RedisClusteredCache.java:206-211 | the local count is zero iff no record belongs to the node's partition |
| ClusterSemantics.MergeAppend | src/main/java/org/jivesoftware/util/cache/RedisClusteredCache.java:253-260 | merging a concatenation is concatenating the merges |
| ClusterSemantics.MergeLength | src/main/java/org/jivesoftware/util/cache/RedisClusteredCache.java:253-260 | a merged read has one element per scalar and one per element of each collection |
| ClusterSemantics.MergeMembers | src/main/java/org/jivesoftware/util/cache/RedisClusteredCache.java:253-260 | a value is in a merged read iff it is a scalar read or an element of a collection read |
| ClusterSemantics.TwoSingletonListsMerge | src/test/java/org/jivesoftware/util/cache/RedisClusteredCache_cacheObjectTypesTest.java:119-125 | two one-element lists merge into a two-element list |
| ClusterSemantics.MergedReadMembers | src/main/java/org/jivesoftware/util/cache/RedisClusteredCache.java:243-262 | whatever order the store returns records in, the merged read holds exactly what their decoded values contribute |
| ClusterSemantics.DecodedMembers | src/main/java/org/jivesoftware/util/cache/RedisClusteredCache.java:164-166 | whatever order the store returns records in, the read holds exactly their decoded values |
| ClusterSemantics.Decoded | src/main/java/org/jivesoftware/util/cache/RedisClusteredCache.java:253-256 | reading a sequence of records decodes each, in order |
| ClusterSemantics.EnumerationSize | src/main/java/org/jivesoftware/util/cache/RedisClusteredCache.java:243-249 | a duplicate-free enumeration of a collection of records has its size |
| ClusterSemantics.StripName | src/main/java/org/jivesoftware/util/cache/RedisClusteredCache.java:193 | substring(name length) succeeds iff the logical key is at least as long as the name, and then undoes the prefixing |
| ClusterSemantics.StripLogicalKey | src/main/java/org/jivesoftware/util/cache/RedisClusteredCache.java:193 | stripping the name from a logical key gives back the entry key |
| ClusterSemantics.KeySetRecoversKeys | src/main/java/org/jivesoftware/util/cache/RedisClusteredCache.java:187-196 | when the node's records were written by this cache, keySet succeeds and holds exactly the keys whose record ids the node holds |
| ClusterSemantics.PutKeepsWrittenBy | src/main/java/org/jivesoftware/util/cache/RedisClusteredCache.java:267-278 | a put keeps every local record in the shape the cache writes |
| ClusterSemantics.PutThenKeySet | src/test/java/org/jivesoftware/util/cache/RedisClusteredCache_cacheOperationsTest.java:202-215 | after put(k, v) keySet contains k |
| ClusteredCaches.ClusteredCache.constructor | src/main/java/org/jivesoftware/util/cache/RedisClusteredCache.java:66-89 | a cache keeps its configuration and derives its partition name from name and node |
| ClusteredCaches.ClusteredCache.IsSingletonCrossClusterCache | src/main/java/org/jivesoftware/util/cache/RedisClusteredCache.java:96-99 | only roster and local-room caches are singleton caches |
| ClusteredCaches.ClusteredCache.IsNodeCachePurgeable | src/main/java/org/jivesoftware/util/cache/RedisClusteredCache.java:326-330 | reports the purge flag given at creation; the purge methods change nothing when it is off |
| ClusteredCaches.ClusteredCache.SetName | src/main/java/org/jivesoftware/util/cache/RedisClusteredCache.java:108-114 | renaming also moves the partition name, and nothing else changes |
| ClusteredCaches.ClusteredCache.SetMaxCacheSize | src/main/java/org/jivesoftware/util/cache/RedisClusteredCache.java:124-127 | sets the size limit only |
| ClusteredCaches.ClusteredCache.SetMaxLifetime | src/main/java/org/jivesoftware/util/cache/RedisClusteredCache.java:136-139 | sets the lifetime only |
| ClusteredCaches.ClusteredCache.CreateSafeRedisCacheEntry | src/main/java/org/jivesoftware/util/cache/RedisClusteredCache.java:332-357 | the record carries the id, logical key, names, lifetime and encoded value (null on failure) of this cache and node, and its time to live is the configured lifetime, or none when that is negative |
| ClusteredCaches.ClusteredCache.Get | src/main/java/org/jivesoftware/util/cache/RedisClusteredCache.java:241-263 | no record gives null, one gives its decoded value, several give a list holding exactly the decoded scalars and the elements of the decoded collections of all records (as the merge in the store's order) |
| ClusteredCaches.ClusteredCache.MergeValues | src/main/java/org/jivesoftware/util/cache/RedisClusteredCache.java:251-260 | the loop visits every record once and builds their merge |
| ClusteredCaches.ClusteredCache.Put | src/main/java/org/jivesoftware/util/cache/RedisClusteredCache.java:267-278 | returns the value put and leaves the store as PutResult says |
| ClusteredCaches.ClusteredCache.PutAll | src/main/java/org/jivesoftware/util/cache/RedisClusteredCache.java:314-324 | a null map changes nothing; otherwise every pair's record is stored and every other id keeps its record |
| ClusteredCaches.ClusteredCache.Remove | src/main/java/org/jivesoftware/util/cache/RedisClusteredCache.java:281-292 | removes only the local record of the key and returns its decoded value, or null with no change |
| ClusteredCaches.ClusteredCache.PurgeClusteredNodeCaches | src/main/java/org/jivesoftware/util/cache/RedisClusteredCache.java:301-310 | a purgeable, non-singleton cache drops exactly the node's partition; any other cache changes nothing |
| ClusteredCaches.ClusteredCache.Clear | src/main/java/org/jivesoftware/util/cache/RedisClusteredCache.java:295-298 | clear is the purge of the local node |
| ClusteredCaches.ClusteredCache.Size | src/main/java/org/jivesoftware/util/cache/RedisClusteredCache.java:199-203 | the number of local records of this cache |
| ClusteredCaches.ClusteredCache.IsEmpty | src/main/java/org/jivesoftware/util/cache/RedisClusteredCache.java:206-211 | empty iff size is zero iff the node holds no record of this cache |
| ClusteredCaches.ClusteredCache.ContainsKey | src/main/java/org/jivesoftware/util/cache/RedisClusteredCache.java:214-219 | true iff some node holds a record of the logical key |
| ClusteredCaches.ClusteredCache.ContainsValue | src/main/java/org/jivesoftware/util/cache/RedisClusteredCache.java:222-237 | true iff some record of this cache holds the JSON form of the value; when that form cannot be produced, iff the cache has any record |
| ClusteredCaches.ClusteredCache.Values | src/main/java/org/jivesoftware/util/cache/RedisClusteredCache.java:160-169 | one decoded value per record of this cache on every node, and exactly the decoded values of those records |
| ClusteredCaches.ClusteredCache.KeySet | src/main/java/org/jivesoftware/util/cache/RedisClusteredCache.java:187-196 | the stripped keys of the local records, or failure when a logical key is shorter than the name |
| ClusteredCaches.ClusteredCache.EntrySet | src/main/java/org/jivesoftware/util/cache/RedisClusteredCache.java:173-183 | the (stripped key, decoded value) pairs of the local records, with the same failure case |
| ClusterScenarios.PutGetRemove | src/test/java/org/jivesoftware/util/cache/RedisClusteredCache_cacheOperationsTest.java:37-50 | put then get returns the value with size 1; remove then get returns null with size 0 |
| ClusterScenarios.PutThenGet | src/main/java/org/jivesoftware/util/cache/RedisClusteredCache.java:241-278 | on an ordinary cache in any store where no other record carries the logical key, get returns the value put |
| ClusterScenarios.RemoveThenGet | src/main/java/org/jivesoftware/util/cache/RedisClusteredCache.java:241-292 | in any store where no other node holds the logical key, get after remove returns null |
| ClusterScenarios.PurgeByNode | src/test/java/org/jivesoftware/util/cache/RedisClusteredCache_cacheOperationsTest.java:243-262 | after a put, purging another node leaves size 1 and purging the own node leaves 0 |
| ClusterScenarios.LocalAndRemoteListsMerge | src/test/java/org/jivesoftware/util/cache/RedisClusteredCache_cacheObjectTypesTest.java:103-132 | two nodes' one-element lists under one key read back as both elements; after the local purge, only the remote list |
| ClusterScenarios.SingletonLastWriterWins | src/main/java/org/directtruststandards/timplus/cluster/cache/RedisDelegatedClusterCacheFactory.java:140-151 | on a roster cache, after two nodes write one key, one record remains and every node reads the last value |
| ClusterScenarios.PutThenViews | src/test/java/org/jivesoftware/util/cache/RedisClusteredCache_cacheOperationsTest.java:169-216 | after one put, keySet is exactly the key and entrySet exactly the pair |
| ClusterScenarios.MergedPair | src/test/java/org/jivesoftware/util/cache/RedisClusteredCache_cacheObjectTypesTest.java:123-125 | two records holding one-element lists read as both elements, in either order |
| ClusterScenarios.PurgeLeavesRemote | src/test/java/org/jivesoftware/util/cache/RedisClusteredCache_cacheObjectTypesTest.java:127-131 | purging the local node of a two-node store leaves just the remote record |

## Left out

- Serialization internals: Jackson, Java serialization and Base64 are the `Codec` parameter. Their correctness is the `Faithful` hypothesis, not proved.
- Recovering the declared value type by reflection on the generic superclass: each cache carries its value type explicitly.
- The Spring application context and the repository lookup: the store is passed to the constructor. The source throws when the context is missing; the model cannot express a missing context.
- Redis expiry over time: the expiration is stored and `TimeToLive` interprets it, but records never disappear by themselves.
- Concurrency between nodes: calls are modelled as interleaved, one at a time.
- Logging, and the statistics stubs `getCacheSize` (-1), `getCacheHits` and `getCacheMisses` (0). These are constants with nothing to prove.
- The plain getters (`getName`, `getMaxCacheSize`, `getMaxLifetime`): they read a field.
- `deleteByNodeCacheName` of the repository: the cache never calls it.
- The values of the cache-name constants of the host server: they are not part of this model. They are the `CacheNames` parameter, and `DistinctLabels` states the Java rule that switch labels differ.
- Java `null` keys, names and node ids: keys and names are strings, and a null map given to `putAll` is `None`.
- ClusteredCaches.ClusteredCache.Size: the source narrows the long count to `int`, and the model returns the unbounded count.
- The four-argument constructor the tests use is not part of this model. Caches are built from a `CacheSpec`, and the scenarios pass `nodePurgable` explicitly.
- The class comment mentions a local cache consulted first. The code has no local cache, and the model follows the code: every read goes to the store.
- `RedisCacheEntry.java` declares five fields, but the cache builds and queries records with six (it also sets and reads a clustered cache key). The model follows the cache's usage.
- ClusterSemantics.RemoveSparesOtherNodes: ids are plain concatenations, so one node's id can coincide with another node's id for a different key. The lemma therefore assumes prefix-free node ids (true of distinct ids of equal length).
