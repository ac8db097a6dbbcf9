/**
 * The clustered cache's behaviour on the shared record map, as values:
 * the key scheme, the record a cache writes, what put, remove and purge do
 * to the map, the merge of several nodes' values on read, and the views.
 * The ClusteredCache class states its methods against these functions.
 */
module ClusterSemantics {
  import opened Wrappers
  import opened CacheEntries
  import opened RedisStore
  import opened ValueCodec

  /*** Key scheme ***/

  /** The record id: cache name, node id and entry key, concatenated. */
  function StorageKey(name: string, nodeId: string, key: string): string {
    name + nodeId + key
  }

  /** The logical key shared by every node's copy of an entry. */
  function LogicalKey(name: string, key: string): string {
    name + key
  }

  /** The partition of one node within one cache. */
  function NodeCacheName(name: string, nodeId: string): string {
    name + nodeId
  }

  lemma PrefixCancel(p: string, a: string, b: string)
    requires p + a == p + b
    ensures a == b
  {
    assert a == (p + a)[|p|..];
    assert b == (p + b)[|p|..];
  }

  lemma SuffixCancel(a: string, b: string, s: string)
    requires a + s == b + s
    ensures a == b
  {
    assert |a| == |b|;
    assert a == (a + s)[..|a|];
    assert b == (b + s)[..|b|];
  }

  /** Two strings that begin the same string are comparable by prefix. */
  lemma {:induction false} CommonPrefix(a: string, b: string, x: string, y: string)
    requires a + x == b + y
    ensures a <= b || b <= a
  {
    if |a| <= |b| {
      assert a == (a + x)[..|a|];
      assert b[..|a|] == (b + y)[..|a|];
    } else {
      assert b == (b + y)[..|b|];
      assert a[..|b|] == (a + x)[..|b|];
    }
  }

  /** Node ids are prefix-free: neither is a prefix of the other (true of distinct ids of equal length). */
  predicate PrefixFree(n1: string, n2: string) {
    !(n1 <= n2) && !(n2 <= n1)
  }

  /** Within one cache on one node, distinct entry keys get distinct record ids. */
  lemma StorageKeyInjective(name: string, nodeId: string, k1: string, k2: string)
    ensures StorageKey(name, nodeId, k1) == StorageKey(name, nodeId, k2) <==> k1 == k2
  {
    if StorageKey(name, nodeId, k1) == StorageKey(name, nodeId, k2) {
      PrefixCancel(name + nodeId, k1, k2);
    }
  }

  /** Within one cache, distinct nodes own distinct partitions. */
  lemma NodeCacheNameInjective(name: string, n1: string, n2: string)
    ensures NodeCacheName(name, n1) == NodeCacheName(name, n2) <==> n1 == n2
  {
    if NodeCacheName(name, n1) == NodeCacheName(name, n2) {
      PrefixCancel(name, n1, n2);
    }
  }

  /** The same entry key written by two distinct nodes lands in two records. */
  lemma SameKeyDistinctNodes(name: string, n1: string, n2: string, key: string)
    ensures StorageKey(name, n1, key) == StorageKey(name, n2, key) <==> n1 == n2
  {
    if StorageKey(name, n1, key) == StorageKey(name, n2, key) {
      assert name + n1 + key == name + (n1 + key);
      assert name + n2 + key == name + (n2 + key);
      PrefixCancel(name, n1 + key, n2 + key);
      SuffixCancel(n1, n2, key);
    }
  }

  /** With prefix-free node ids, no id of one node is an id of another, whatever the keys. */
  lemma DistinctNodesDistinctIds(name: string, n1: string, n2: string, k1: string, k2: string)
    requires PrefixFree(n1, n2)
    ensures StorageKey(name, n1, k1) != StorageKey(name, n2, k2)
  {
    if StorageKey(name, n1, k1) == StorageKey(name, n2, k2) {
      assert name + n1 + k1 == name + (n1 + k1);
      assert name + n2 + k2 == name + (n2 + k2);
      PrefixCancel(name, n1 + k1, n2 + k2);
      CommonPrefix(n1, n2, k1, k2);
      assert false;
    }
  }

  /*** The record a cache writes ***/

  /** createSafeRedisCacheEntry, given the outcome of encoding the value. */
  function NewEntry(name: string, nodeId: string, maxLifetime: int, key: string, encoded: Option<string>): CacheEntry {
    CacheEntry(StorageKey(name, nodeId, key), LogicalKey(name, key), name, NodeCacheName(name, nodeId), encoded, maxLifetime)
  }

  /** The shape of every record the cache named `name` on node `nodeId` writes. */
  ghost predicate WrittenBy(e: CacheEntry, name: string, nodeId: string) {
    && e.cacheName == name
    && e.nodeCacheName == NodeCacheName(name, nodeId)
    && name <= e.clusteredCacheKey
    && e.key == StorageKey(name, nodeId, e.clusteredCacheKey[|name|..])
  }

  /** The written record carries the scheme's three keys, and its entry key can be recovered. */
  lemma NewEntryShape(name: string, nodeId: string, maxLifetime: int, key: string, encoded: Option<string>)
    ensures WrittenBy(NewEntry(name, nodeId, maxLifetime, key, encoded), name, nodeId)
    ensures NewEntry(name, nodeId, maxLifetime, key, encoded).clusteredCacheKey[|name|..] == key
  {
    assert (name + key)[|name|..] == key;
  }

  /*** put ***/

  /** The map without the records of one logical key. */
  function WithoutLogicalKey(r: Records, ck: string): Records {
    map id | id in r && r[id].clusteredCacheKey != ck :: r[id]
  }

  /** deleteAll(findByClusteredCacheKey(ck)) on a well-keyed map is WithoutLogicalKey. */
  lemma DeleteLogicalKey(r: Records, ck: string)
    requires KeyedById(r)
    ensures r - KeysOf(FindByClusteredCacheKey(r, ck)) == WithoutLogicalKey(r, ck)
  {
    var found := FindByClusteredCacheKey(r, ck);
    forall id | id in r
      ensures id in KeysOf(found) <==> r[id].clusteredCacheKey == ck
    {
      if id in KeysOf(found) {
        var e :| e in found && e.key == id;
        var id' :| id' in r && r[id'] == e;
      } else {
        assert r[id] in r.Values;
      }
    }
  }

  /** put: under the singleton policy the logical key's records go first, then the record is saved. */
  function PutResult(r: Records, singleton: bool, e: CacheEntry): Records {
    (if singleton then WithoutLogicalKey(r, e.clusteredCacheKey) else r)[e.key := e]
  }

  /** On an ordinary cache put saves its record and changes nothing else. */
  lemma PutOrdinaryFrame(r: Records, e: CacheEntry)
    ensures e.key in PutResult(r, false, e) && PutResult(r, false, e)[e.key] == e
    ensures forall id :: id != e.key ==> FindById(PutResult(r, false, e), id) == FindById(r, id)
  {
  }

  /**
   * On a singleton cache exactly one record of the logical key remains, the
   * one just written; records of other logical keys stay as they were, and
   * only a record the new one overwrites goes besides.
   */
  lemma PutSingletonLeavesOne(r: Records, e: CacheEntry)
    requires KeyedById(r)
    ensures FindByClusteredCacheKey(PutResult(r, true, e), e.clusteredCacheKey) == {e}
    ensures forall id :: id != e.key && id in r && r[id].clusteredCacheKey != e.clusteredCacheKey ==>
      id in PutResult(r, true, e) && PutResult(r, true, e)[id] == r[id]
    ensures forall id :: id in PutResult(r, true, e) && id != e.key ==> id in r && r[id].clusteredCacheKey != e.clusteredCacheKey
  {
    var r' := PutResult(r, true, e);
    var ck := e.clusteredCacheKey;
    forall x | x in FindByClusteredCacheKey(r', ck)
      ensures x == e
    {
      var id :| id in r' && r'[id] == x;
    }
    assert e.key in r' && r'[e.key] == e;
    assert e in r'.Values;
  }

  /*** putAll ***/

  /** The record ids putAll writes for a map of entries. */
  function PutAllIds(name: string, nodeId: string, m: map<string, Value>): set<string> {
    set k | k in m :: StorageKey(name, nodeId, k)
  }

  /*** remove ***/

  /** remove: the local record of the key goes, if there is one. */
  function RemoveResult(r: Records, name: string, nodeId: string, key: string): Records {
    r - {StorageKey(name, nodeId, key)}
  }

  /**
   * remove never touches a record another node of the same cache wrote,
   * when node ids are prefix-free.
   */
  lemma RemoveSparesOtherNodes(r: Records, name: string, nodeId: string, other: string, key: string)
    requires KeyedById(r)
    requires PrefixFree(nodeId, other)
    ensures forall id :: id in r && WrittenBy(r[id], name, other) ==>
      id in RemoveResult(r, name, nodeId, key) && RemoveResult(r, name, nodeId, key)[id] == r[id]
  {
    forall id | id in r && WrittenBy(r[id], name, other)
      ensures id != StorageKey(name, nodeId, key)
    {
      DistinctNodesDistinctIds(name, nodeId, other, key, r[id].clusteredCacheKey[|name|..]);
    }
  }

  /*** purge and clear ***/

  /** The map without the records of one node partition. */
  function PurgeResult(r: Records, nodeCacheName: string): (r': Records)
    ensures forall id :: id in r' <==> id in r && r[id].nodeCacheName != nodeCacheName
    ensures forall id :: id in r' ==> r'[id] == r[id]
  {
    map id | id in r && r[id].nodeCacheName != nodeCacheName :: r[id]
  }

  /** deleteAll(findByNodeCacheName(n)) on a well-keyed map is PurgeResult. */
  lemma DeleteNodePartition(r: Records, nodeCacheName: string)
    requires KeyedById(r)
    ensures r - KeysOf(FindByNodeCacheName(r, nodeCacheName)) == PurgeResult(r, nodeCacheName)
  {
    var found := FindByNodeCacheName(r, nodeCacheName);
    forall id | id in r
      ensures id in KeysOf(found) <==> r[id].nodeCacheName == nodeCacheName
    {
      if id in KeysOf(found) {
        var e :| e in found && e.key == id;
        var id' :| id' in r && r[id'] == e;
      } else {
        assert r[id] in r.Values;
      }
    }
  }

  /*** Counting ***/

  /** The ids of the records one node contributed to one cache. */
  function LocalIds(r: Records, nodeCacheName: string): set<string> {
    set id | id in r && r[id].nodeCacheName == nodeCacheName
  }

  /** Purging another node keeps every local record, so size() is unchanged. */
  lemma PurgeOtherNodeKeepsLocal(r: Records, name: string, nodeId: string, other: string)
    requires other != nodeId
    ensures LocalIds(PurgeResult(r, NodeCacheName(name, other)), NodeCacheName(name, nodeId)) == LocalIds(r, NodeCacheName(name, nodeId))
    ensures forall id :: id in LocalIds(r, NodeCacheName(name, nodeId)) ==> PurgeResult(r, NodeCacheName(name, other))[id] == r[id]
  {
    NodeCacheNameInjective(name, nodeId, other);
  }

  /** Purging a node leaves it no record in the cache. */
  lemma PurgeEmptiesPartition(r: Records, nodeCacheName: string)
    ensures LocalIds(PurgeResult(r, nodeCacheName), nodeCacheName) == {}
  {
  }

  /** size() == 0 exactly when the node holds no record in the cache. */
  lemma NoLocalIds(r: Records, nodeCacheName: string)
    ensures |LocalIds(r, nodeCacheName)| == 0 <==> forall id :: id in r ==> r[id].nodeCacheName != nodeCacheName
  {
    if id :| id in r && r[id].nodeCacheName == nodeCacheName {
      assert id in LocalIds(r, nodeCacheName);
    }
  }

  /*** Merge on read ***/

  /** What one decoded value contributes to a merged read: a collection is spliced in. */
  function Spread(v: Value): seq<Value> {
    if v.Items? then v.elements else [v]
  }

  /** The list get builds when several records share a logical key, in reading order. */
  function Merge(vs: seq<Value>): seq<Value>
    decreases |vs|
  {
    if vs == [] then [] else Merge(vs[..|vs| - 1]) + Spread(vs[|vs| - 1])
  }

  function Width(vs: seq<Value>): nat
    decreases |vs|
  {
    if vs == [] then 0 else Width(vs[..|vs| - 1]) + |Spread(vs[|vs| - 1])|
  }

  lemma {:induction false} MergeAppend(a: seq<Value>, b: seq<Value>)
    ensures Merge(a + b) == Merge(a) + Merge(b)
    decreases |b|
  {
    if b == [] {
      assert a + b == a;
    } else {
      var b' := b[..|b| - 1];
      var last := b[|b| - 1];
      assert (a + b)[..|a + b| - 1] == a + b';
      assert (a + b)[|a + b| - 1] == last;
      calc {
        Merge(a + b);
        Merge(a + b') + Spread(last);
        { MergeAppend(a, b'); }
        Merge(a) + Merge(b') + Spread(last);
        Merge(a) + (Merge(b') + Spread(last));
      }
    }
  }

  /** The merged list is as long as the decoded values' contributions together. */
  lemma {:induction false} MergeLength(vs: seq<Value>)
    ensures |Merge(vs)| == Width(vs)
    decreases |vs|
  {
    if vs != [] {
      MergeLength(vs[..|vs| - 1]);
    }
  }

  /** A value is in the merged list exactly when some decoded value contributed it. */
  lemma {:induction false} MergeMembers(vs: seq<Value>, x: Value)
    ensures x in Merge(vs) <==> exists i :: 0 <= i < |vs| && x in Spread(vs[i])
    decreases |vs|
  {
    if vs != [] {
      var front := vs[..|vs| - 1];
      MergeMembers(front, x);
      if x in Merge(front) {
        var i :| 0 <= i < |front| && x in Spread(front[i]);
        assert vs[i] == front[i];
      }
      if i :| 0 <= i < |vs| && x in Spread(vs[i]) {
        if i < |front| {
          assert front[i] == vs[i];
        }
      }
    }
  }

  /**
   * Whatever the reading order, a merged read holds exactly what the
   * records' decoded values contribute.
   */
  lemma MergedReadMembers(c: Codec, kind: ValueKind, order: seq<CacheEntry>, s: set<CacheEntry>, x: Value)
    requires Enumerates(order, s)
    ensures x in Merge(Decoded(c, kind, order)) <==> exists e :: e in s && x in Spread(Decode(c, kind, e.value))
  {
    var vs := Decoded(c, kind, order);
    MergeMembers(vs, x);
    if i :| 0 <= i < |vs| && x in Spread(vs[i]) {
      assert order[i] in s;
    }
    if e :| e in s && x in Spread(Decode(c, kind, e.value)) {
      var i :| 0 <= i < |order| && order[i] == e;
      assert x in Spread(vs[i]);
    }
  }

  /** Whatever the reading order, a plain read holds exactly the records' decoded values. */
  lemma DecodedMembers(c: Codec, kind: ValueKind, order: seq<CacheEntry>, s: set<CacheEntry>, x: Value)
    requires Enumerates(order, s)
    ensures x in Decoded(c, kind, order) <==> exists e :: e in s && x == Decode(c, kind, e.value)
  {
    var vs := Decoded(c, kind, order);
    if x in vs {
      var i :| 0 <= i < |vs| && vs[i] == x;
      assert order[i] in s;
    }
    if e :| e in s && x == Decode(c, kind, e.value) {
      var i :| 0 <= i < |order| && order[i] == e;
      assert vs[i] == x;
    }
  }

  /** Two nodes each holding a one-element collection merge into a two-element list. */
  lemma TwoSingletonListsMerge(a: Value, b: Value)
    ensures Merge([Items([a]), Items([b])]) == [a, b]
  {
    var vs := [Items([a]), Items([b])];
    assert vs[..1] == [Items([a])];
    assert [Items([a])][..0] == [];
    assert Merge([Items([a])]) == Merge([]) + [a];
  }

  /*** Reading records ***/

  /** The values of records in reading order. */
  function Decoded(c: Codec, kind: ValueKind, order: seq<CacheEntry>): (vs: seq<Value>)
    ensures |vs| == |order|
    ensures forall i :: 0 <= i < |order| ==> vs[i] == Decode(c, kind, order[i].value)
    decreases |order|
  {
    if order == [] then []
    else Decoded(c, kind, order[..|order| - 1]) + [Decode(c, kind, order[|order| - 1].value)]
  }

  lemma DecodedStep(c: Codec, kind: ValueKind, order: seq<CacheEntry>, e: CacheEntry)
    ensures Decoded(c, kind, order + [e]) == Decoded(c, kind, order) + [Decode(c, kind, e.value)]
  {
    assert (order + [e])[..|order|] == order;
  }

  /** A reading order of a set of records: each record once. */
  ghost predicate Enumerates(order: seq<CacheEntry>, s: set<CacheEntry>) {
    && (forall i, j :: 0 <= i < j < |order| ==> order[i] != order[j])
    && (forall e :: e in order <==> e in s)
  }

  /** A reading order visits as many records as the set holds. */
  lemma {:induction false} EnumerationSize(order: seq<CacheEntry>, s: set<CacheEntry>)
    requires Enumerates(order, s)
    ensures |order| == |s|
    decreases |order|
  {
    if order != [] {
      var last := order[|order| - 1];
      var front := order[..|order| - 1];
      assert forall i :: 0 <= i < |front| ==> front[i] == order[i] && order[i] != last;
      assert last !in front;
      forall e ensures e in front <==> e in s - {last} {
        if e in front {
          var i :| 0 <= i < |front| && front[i] == e;
          assert order[i] == e;
        }
        if e in s - {last} {
          assert e in order;
          var i :| 0 <= i < |order| && order[i] == e;
          assert i < |front|;
          assert front[i] == e;
        }
      }
      EnumerationSize(front, s - {last});
    }
  }

  /** Reading one more record extends the order by one. */
  lemma EnumeratesStep(order: seq<CacheEntry>, done: set<CacheEntry>, e: CacheEntry)
    requires Enumerates(order, done) && e !in done
    ensures Enumerates(order + [e], done + {e})
  {
    var order' := order + [e];
    forall i, j | 0 <= i < j < |order'|
      ensures order'[i] != order'[j]
    {
      if j == |order| {
        assert order'[i] == order[i] && order[i] in done;
      } else {
        assert order'[i] == order[i] && order'[j] == order[j];
      }
    }
    forall x
      ensures x in order' <==> x in done + {e}
    {
      if x in order' {
        var i :| 0 <= i < |order'| && order'[i] == x;
        if i < |order| {
          assert order[i] == x;
        }
      }
      if x in done {
        var i :| 0 <= i < |order| && order[i] == x;
        assert order'[i] == x;
      }
      assert order'[|order|] == e;
    }
  }

  /** Decoding and merging one more record appends what its value contributes. */
  lemma MergeDecodedStep(c: Codec, kind: ValueKind, order: seq<CacheEntry>, e: CacheEntry)
    ensures Merge(Decoded(c, kind, order + [e])) == Merge(Decoded(c, kind, order)) + Spread(Decode(c, kind, e.value))
  {
    var order' := order + [e];
    assert order'[..|order'| - 1] == order;
    var ds := Decoded(c, kind, order');
    assert ds == Decoded(c, kind, order) + [Decode(c, kind, e.value)];
    assert ds[..|ds| - 1] == Decoded(c, kind, order);
  }

  /*** Views ***/

  /** substring(|name|) of a logical key; None where Java's substring throws. */
  function StripName(name: string, ck: string): (k: Option<string>)
    ensures k.Some? <==> |name| <= |ck|
    ensures k.Some? && name <= ck ==> ck == name + k.value
  {
    if |ck| < |name| then None else Some(ck[|name|..])
  }

  /** Stripping the name from a logical key gives back the entry key. */
  lemma StripLogicalKey(name: string, key: string)
    ensures StripName(name, LogicalKey(name, key)) == Some(key)
  {
    assert (name + key)[|name|..] == key;
  }

  /** keySet(): the entry keys of the local records; None when one logical key is too short to strip. */
  function KeySetOf(r: Records, name: string, nodeCacheName: string): Option<set<string>> {
    var local := FindByNodeCacheName(r, nodeCacheName);
    if exists e :: e in local && |e.clusteredCacheKey| < |name| then None
    else Some(set e | e in local :: e.clusteredCacheKey[|name|..])
  }

  /** entrySet(): the (entry key, decoded value) pairs of the local records. */
  function EntrySetOf(r: Records, name: string, nodeCacheName: string, c: Codec, kind: ValueKind): Option<set<(string, Value)>> {
    var local := FindByNodeCacheName(r, nodeCacheName);
    if exists e :: e in local && |e.clusteredCacheKey| < |name| then None
    else Some(set e | e in local :: (e.clusteredCacheKey[|name|..], Decode(c, kind, e.value)))
  }

  /**
   * When every local record was written by this cache on this node, keySet
   * succeeds and its keys are exactly the entry keys whose record ids the
   * node holds: stripping the name undoes the key scheme.
   */
  lemma KeySetRecoversKeys(r: Records, name: string, nodeId: string)
    requires forall e :: e in FindByNodeCacheName(r, NodeCacheName(name, nodeId)) ==> WrittenBy(e, name, nodeId)
    ensures KeySetOf(r, name, NodeCacheName(name, nodeId)).Some?
    ensures forall k :: k in KeySetOf(r, name, NodeCacheName(name, nodeId)).value <==>
      exists e :: e in FindByNodeCacheName(r, NodeCacheName(name, nodeId)) && e.key == StorageKey(name, nodeId, k)
  {
    var local := FindByNodeCacheName(r, NodeCacheName(name, nodeId));
    var keys := KeySetOf(r, name, NodeCacheName(name, nodeId)).value;
    forall k
      ensures k in keys <==> exists e :: e in local && e.key == StorageKey(name, nodeId, k)
    {
      if e :| e in local && e.key == StorageKey(name, nodeId, k) {
        StorageKeyInjective(name, nodeId, k, e.clusteredCacheKey[|name|..]);
        assert e.clusteredCacheKey[|name|..] in keys;
      }
    }
  }

  /** A put keeps every local record in the shape this cache writes. */
  lemma PutKeepsWrittenBy(r: Records, singleton: bool, name: string, nodeId: string, maxLifetime: int, key: string, encoded: Option<string>)
    requires forall e :: e in FindByNodeCacheName(r, NodeCacheName(name, nodeId)) ==> WrittenBy(e, name, nodeId)
    ensures var r' := PutResult(r, singleton, NewEntry(name, nodeId, maxLifetime, key, encoded));
      forall e :: e in FindByNodeCacheName(r', NodeCacheName(name, nodeId)) ==> WrittenBy(e, name, nodeId)
  {
    var e0 := NewEntry(name, nodeId, maxLifetime, key, encoded);
    NewEntryShape(name, nodeId, maxLifetime, key, encoded);
    var r' := PutResult(r, singleton, e0);
    forall e | e in FindByNodeCacheName(r', NodeCacheName(name, nodeId))
      ensures WrittenBy(e, name, nodeId)
    {
      var id :| id in r' && r'[id] == e;
      if id != e0.key {
        assert r[id] in FindByNodeCacheName(r, NodeCacheName(name, nodeId));
      }
    }
  }

  /** After put(k, v), keySet() contains k. */
  lemma PutThenKeySet(r: Records, singleton: bool, name: string, nodeId: string, maxLifetime: int, key: string, encoded: Option<string>)
    requires forall e :: e in FindByNodeCacheName(r, NodeCacheName(name, nodeId)) ==> WrittenBy(e, name, nodeId)
    ensures var r' := PutResult(r, singleton, NewEntry(name, nodeId, maxLifetime, key, encoded));
      KeySetOf(r', name, NodeCacheName(name, nodeId)).Some? && key in KeySetOf(r', name, NodeCacheName(name, nodeId)).value
  {
    var e0 := NewEntry(name, nodeId, maxLifetime, key, encoded);
    var r' := PutResult(r, singleton, e0);
    PutKeepsWrittenBy(r, singleton, name, nodeId, maxLifetime, key, encoded);
    KeySetRecoversKeys(r', name, nodeId);
    assert e0.key in r' && r'[e0.key] == e0;
    assert e0 in FindByNodeCacheName(r', NodeCacheName(name, nodeId));
  }

  /**
   * When no other record carries the logical key, after a put of either
   * policy the new record is the only one a read of that key finds.
   */
  lemma PutThenRead(r: Records, singleton: bool, e: CacheEntry)
    requires forall id :: id in r && id != e.key ==> r[id].clusteredCacheKey != e.clusteredCacheKey
    ensures FindByClusteredCacheKey(PutResult(r, singleton, e), e.clusteredCacheKey) == {e}
  {
    var r' := PutResult(r, singleton, e);
    forall x | x in FindByClusteredCacheKey(r', e.clusteredCacheKey)
      ensures x == e
    {
      var id :| id in r' && r'[id] == x;
    }
    assert r'[e.key] == e;
  }

  /**
   * When no record but the local one carries the logical key, after a
   * remove a read of that key finds nothing.
   */
  lemma RemoveThenRead(r: Records, name: string, nodeId: string, key: string)
    requires forall id :: id in r && id != StorageKey(name, nodeId, key) ==> r[id].clusteredCacheKey != LogicalKey(name, key)
    ensures FindByClusteredCacheKey(RemoveResult(r, name, nodeId, key), LogicalKey(name, key)) == {}
  {
  }
}
