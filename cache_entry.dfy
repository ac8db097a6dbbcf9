/**
 * The record kept in the shared store for one cache entry of one node
 * (RedisCacheEntry), and the query-by-example probe used to count records.
 */
module CacheEntries {
  import opened Wrappers

  /**
   * One physical record.
   *  - key:               the store id, cache name + node id + entry key
   *  - clusteredCacheKey: the logical key, cache name + entry key (shared by all nodes)
   *  - cacheName:         the cache name (indexed)
   *  - nodeCacheName:     cache name + node id of the contributing node (indexed)
   *  - value:             the encoded payload; None when encoding failed
   *  - expiration:        time to live in milliseconds; negative means never
   */
  datatype CacheEntry = CacheEntry(
    key: string,
    clusteredCacheKey: string,
    cacheName: string,
    nodeCacheName: string,
    value: Option<string>,
    expiration: int)

  /** The time to live the store applies to a record: None when it never expires. */
  function TimeToLive(e: CacheEntry): (ttl: Option<nat>)
    ensures ttl.None? <==> e.expiration < 0
    ensures ttl.Some? ==> ttl.value == e.expiration
  {
    if e.expiration < 0 then None else Some(e.expiration)
  }

  /**
   * A query-by-example probe. A None field is a wildcard; a Some field must
   * equal the record's field. The expiration of the probe is not compared.
   */
  datatype Probe = Probe(
    key: Option<string>,
    clusteredCacheKey: Option<string>,
    cacheName: Option<string>,
    nodeCacheName: Option<string>,
    value: Option<string>)

  predicate FieldMatches(probe: Option<string>, field: string) {
    probe.None? || probe.value == field
  }

  /** True when every non-wildcard field of the probe equals the record's. */
  predicate Matches(e: CacheEntry, p: Probe) {
    && FieldMatches(p.key, e.key)
    && FieldMatches(p.clusteredCacheKey, e.clusteredCacheKey)
    && FieldMatches(p.cacheName, e.cacheName)
    && FieldMatches(p.nodeCacheName, e.nodeCacheName)
    && (p.value.None? || e.value == p.value)
  }

  /**
   * An all-wildcard probe matches every record, and a record's expiration
   * never decides a match.
   */
  lemma ProbeWildcards(e: CacheEntry, p: Probe, expiration: int)
    ensures Matches(e, Probe(None, None, None, None, None))
    ensures Matches(e.(expiration := expiration), p) <==> Matches(e, p)
  {
  }
}
