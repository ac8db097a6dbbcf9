/**
 * RedisDelegatedClusterCacheFactory.createCache: the choice of cache kind by
 * cache name, and the kinds that are singleton cross-cluster caches.
 */
module CacheFactory {
  import opened ValueCodec

  /**
   * The cache-name constants the dispatch switches on. Their values are
   * defined by the surrounding server and are parameters here.
   */
  datatype CacheNames = CacheNames(
    anonymousC2s: string,           // RoutingTableImpl.ANONYMOUS_C2S_CACHE_NAME
    c2s: string,                    // RoutingTableImpl.C2S_CACHE_NAME
    s2s: string,                    // RoutingTableImpl.S2S_CACHE_NAME
    component: string,              // RoutingTableImpl.COMPONENT_CACHE_NAME
    c2sSession: string,             // RoutingTableImpl.C2S_SESSION_NAME
    c2sInfo: string,                // SessionManager.C2S_INFO_CACHE_NAME
    roster: string,                 // ClusteredCacheFactory.ROSTER_CACHE_NAME
    clusterCrossProxyMap: string,   // ProxyConnectionManager.CLUSTER_CROSS_PROXY_MAP_CACHE_NAME
    localRoomManagerBase: string)   // LocalMUCRoomManager.LOCAL_ROOM_MANAGER_CACHE_BASE_NAME

  /** The explicit case labels of the switch. */
  function Labels(n: CacheNames): set<string> {
    {n.anonymousC2s, n.c2s, n.s2s, n.component, n.c2sSession, n.c2sInfo, n.roster, n.clusterCrossProxyMap}
  }

  /** Java refuses a string switch with two equal case labels. */
  predicate DistinctLabels(n: CacheNames) {
    var ls := [n.anonymousC2s, n.c2s, n.s2s, n.component, n.c2sSession, n.c2sInfo, n.roster, n.clusterCrossProxyMap];
    forall i, j :: 0 <= i < j < |ls| ==> ls[i] != ls[j]
  }

  /** The cache classes: the nested kinds of the factory and caches declared elsewhere. */
  datatype CacheKind =
    | StringClientRoute
    | DomainPairNodeIdRoute
    | StringNodeIdListRoute
    | StringStringListRoute
    | StringClientSessionInfo
    | StringRoster
    | StringClusterCrossProxyInfo
    | StringLocalMUCRoom
    | GenericRoute
    | Declared(valueType: ValueKind)  // a direct subclass of the clustered cache that does not override the policy

  datatype KeyKind = StringKey | DomainPairKey | SerializableKey | DeclaredKey

  function KeyKindOf(k: CacheKind): KeyKind {
    match k
    case DomainPairNodeIdRoute => DomainPairKey
    case GenericRoute => SerializableKey
    case Declared(_) => DeclaredKey
    case _ => StringKey
  }

  function ValueKindOf(k: CacheKind): ValueKind {
    match k
    case StringClientRoute => ClientRoute
    case DomainPairNodeIdRoute => NodeId
    case StringNodeIdListRoute => NodeIdList
    case StringStringListRoute => StringList
    case StringClientSessionInfo => ClientSessionInfo
    case StringRoster => Roster
    case StringClusterCrossProxyInfo => ClusterCrossProxyInfo
    case StringLocalMUCRoom => LocalMUCRoom
    case GenericRoute => AnySerializable
    case Declared(v) => v
  }

  /**
   * isSingletonCrossClusterCache: only the roster and local-room kinds
   * override the inherited false.
   */
  function IsSingletonCrossClusterCache(k: CacheKind): (singleton: bool)
    ensures singleton <==> k == StringRoster || k == StringLocalMUCRoom
  {
    match k
    case StringRoster => true
    case StringLocalMUCRoom => true
    case _ => false
  }

  /** The switch of createCache, with the prefix test of its default branch. */
  function Dispatch(n: CacheNames, name: string): (k: CacheKind)
    ensures !k.Declared?
    ensures k == StringLocalMUCRoom <==> name !in Labels(n) && n.localRoomManagerBase <= name
    ensures k == GenericRoute <==> name !in Labels(n) && !(n.localRoomManagerBase <= name)
  {
    if name == n.anonymousC2s || name == n.c2s then StringClientRoute
    else if name == n.s2s then DomainPairNodeIdRoute
    else if name == n.component then StringNodeIdListRoute
    else if name == n.c2sSession then StringStringListRoute
    else if name == n.c2sInfo then StringClientSessionInfo
    else if name == n.roster then StringRoster
    else if name == n.clusterCrossProxyMap then StringClusterCrossProxyInfo
    else if n.localRoomManagerBase <= name then StringLocalMUCRoom
    else GenericRoute
  }

  /** What a created cache is configured with. */
  datatype CacheSpec = CacheSpec(
    kind: CacheKind,
    name: string,
    maxSize: int,
    maxLifetime: int,
    nodeId: string,
    nodePurgable: bool)

  /**
   * createCache: picks the kind by name and hands every argument to it
   * unchanged; it never fails and never yields a missing cache.
   */
  function CreateCache(n: CacheNames, name: string, maxSize: int, maxLifetime: int, nodeId: string, nodePurgable: bool): (s: CacheSpec)
    ensures s.kind == Dispatch(n, name)
    ensures s.name == name && s.maxSize == maxSize && s.maxLifetime == maxLifetime
    ensures s.nodeId == nodeId && s.nodePurgable == nodePurgable
  {
    CacheSpec(Dispatch(n, name), name, maxSize, maxLifetime, nodeId, nodePurgable)
  }

  /** Both client-to-server route caches are String to ClientRoute caches. */
  lemma ClientRouteNames(n: CacheNames)
    ensures Dispatch(n, n.anonymousC2s) == StringClientRoute
    ensures Dispatch(n, n.c2s) == StringClientRoute
    ensures KeyKindOf(StringClientRoute) == StringKey && ValueKindOf(StringClientRoute) == ClientRoute
  {
  }

  /** Every other explicit label selects its own kind. */
  lemma FixedNames(n: CacheNames)
    requires DistinctLabels(n)
    ensures Dispatch(n, n.s2s) == DomainPairNodeIdRoute
    ensures Dispatch(n, n.component) == StringNodeIdListRoute
    ensures Dispatch(n, n.c2sSession) == StringStringListRoute
    ensures Dispatch(n, n.c2sInfo) == StringClientSessionInfo
    ensures Dispatch(n, n.roster) == StringRoster
    ensures Dispatch(n, n.clusterCrossProxyMap) == StringClusterCrossProxyInfo
  {
    var ls := [n.anonymousC2s, n.c2s, n.s2s, n.component, n.c2sSession, n.c2sInfo, n.roster, n.clusterCrossProxyMap];
    assert ls[0] != ls[2] && ls[1] != ls[2];
    assert ls[0] != ls[3] && ls[1] != ls[3] && ls[2] != ls[3];
    assert ls[0] != ls[4] && ls[1] != ls[4] && ls[2] != ls[4] && ls[3] != ls[4];
    assert ls[0] != ls[5] && ls[1] != ls[5] && ls[2] != ls[5] && ls[3] != ls[5] && ls[4] != ls[5];
    assert forall i :: 0 <= i < 6 ==> ls[i] != ls[6];
    assert forall i :: 0 <= i < 7 ==> ls[i] != ls[7];
  }

  /** A cache created under a roster or local-room name is a singleton cache, and no other is. */
  lemma SingletonNames(n: CacheNames, name: string)
    ensures IsSingletonCrossClusterCache(Dispatch(n, name)) <==>
      (name == n.roster && name != n.anonymousC2s && name != n.c2s && name != n.s2s && name != n.component
         && name != n.c2sSession && name != n.c2sInfo)
      || (name !in Labels(n) && n.localRoomManagerBase <= name)
  {
  }

  /**
   * A local-room cache created with purging off is a singleton
   * local-room cache that is not purgeable, whatever the domain suffix.
   */
  lemma LocalRoomCacheNotPurgeable(n: CacheNames, domain: string, maxSize: int, maxLifetime: int, nodeId: string)
    requires n.localRoomManagerBase + domain !in Labels(n)
    ensures var s := CreateCache(n, n.localRoomManagerBase + domain, maxSize, maxLifetime, nodeId, false);
      s.kind == StringLocalMUCRoom && IsSingletonCrossClusterCache(s.kind) && !s.nodePurgable
  {
    assert n.localRoomManagerBase <= n.localRoomManagerBase + domain;
  }
}
