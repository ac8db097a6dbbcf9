/**
 * The shared record store every cache instance of every node writes into:
 * a flat map from record id to record, the equality queries on the indexed
 * fields, counting by example, and the three mutations the cache issues.
 */
module RedisStore {
  import opened Wrappers
  import opened CacheEntries

  type Records = map<string, CacheEntry>

  /** Every record sits under its own id: the id is the only unique field. */
  ghost predicate KeyedById(r: Records) {
    forall id :: id in r ==> r[id].key == id
  }

  function FindById(r: Records, id: string): Option<CacheEntry> {
    if id in r then Some(r[id]) else None
  }

  /** All records, of every node, that share a logical key. */
  function FindByClusteredCacheKey(r: Records, ck: string): set<CacheEntry> {
    set e | e in r.Values && e.clusteredCacheKey == ck
  }

  /** All records of one cache, across all nodes. */
  function FindByCacheName(r: Records, name: string): set<CacheEntry> {
    set e | e in r.Values && e.cacheName == name
  }

  /** All records contributed by one node to one cache. */
  function FindByNodeCacheName(r: Records, nodeCacheName: string): set<CacheEntry> {
    set e | e in r.Values && e.nodeCacheName == nodeCacheName
  }

  /** The ids of the records that match a probe. */
  function MatchingIds(r: Records, p: Probe): set<string> {
    set id | id in r && Matches(r[id], p)
  }

  /** count(Example.of(probe)): the number of records the probe matches. */
  function Count(r: Records, p: Probe): (n: nat)
    ensures n == 0 <==> forall id :: id in r ==> !Matches(r[id], p)
  {
    assert forall id :: id in r && Matches(r[id], p) ==> id in MatchingIds(r, p);
    |MatchingIds(r, p)|
  }

  function KeysOf(es: set<CacheEntry>): set<string> {
    set e | e in es :: e.key
  }

  /** The record store as a mutable object shared by every cache instance. */
  class Store {
    var records: Records

    ghost predicate Valid()
      reads this
    {
      KeyedById(records)
    }

    constructor ()
      ensures Valid() && records == map[]
    {
      records := map[];
    }

    /** save: a record replaces whatever had its id, and nothing else. */
    method Save(e: CacheEntry)
      requires Valid()
      modifies this
      ensures Valid()
      ensures records == old(records)[e.key := e]
      ensures forall id :: id != e.key ==> FindById(records, id) == FindById(old(records), id)
    {
      records := records[e.key := e];
    }

    /** deleteById: drops the record with that id, if any. */
    method DeleteById(id: string)
      requires Valid()
      modifies this
      ensures Valid()
      ensures records == old(records) - {id}
    {
      records := records - {id};
    }

    /** deleteAll(entities): deletes each given record by its id. */
    method DeleteAll(es: set<CacheEntry>)
      requires Valid()
      modifies this
      ensures Valid()
      ensures records == old(records) - KeysOf(es)
    {
      records := records - KeysOf(es);
    }
  }
}
