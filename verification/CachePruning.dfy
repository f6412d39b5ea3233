/**
 Looking up, inserting and pruning in the directory cache (src/engine/directorycache.cpp).
 */
module CachePruning {
  import opened Options
  import opened ServerPaths
  import opened DirectoryListing
  import opened CacheState

  // ---- Finding servers and entries ----

  /** The position of the server, or the number of servers. */
  function ServerIndex(servers: seq<ServerEntry>, server: Server): (r: nat)
    ensures r <= |servers| && (r < |servers| ==> servers[r].server == server)
    ensures forall i :: 0 <= i < r ==> servers[i].server != server
  {
    if servers == [] || servers[0].server == server then 0 else 1 + ServerIndex(servers[1..], server)
  }

  function IdIndex(servers: seq<ServerEntry>, id: nat): (r: nat)
    ensures r <= |servers| && (r < |servers| ==> servers[r].id == id)
    ensures forall i :: 0 <= i < r ==> servers[i].id != id
  {
    if servers == [] || servers[0].id == id then 0 else 1 + IdIndex(servers[1..], id)
  }

  /** The first entry whose path is not less. */
  function LowerBound(list: seq<CacheEntry>, path: ServerPath): (r: nat)
    ensures r <= |list| && (r < |list| ==> !PathLess(list[r].listing.path, path))
    ensures forall k :: 0 <= k < r ==> PathLess(list[k].listing.path, path)
  {
    if list == [] || !PathLess(list[0].listing.path, path) then 0 else 1 + LowerBound(list[1..], path)
  }

  predicate Hits(list: seq<CacheEntry>, path: ServerPath) {
    var k := LowerBound(list, path);
    k < |list| && list[k].listing.path == path
  }

  /** In an ordered list the lower bound finds every entry. */
  lemma FindsEntry(list: seq<CacheEntry>, k: nat)
    requires Sorted(list) && k < |list|
    ensures LowerBound(list, list[k].listing.path) == k && Hits(list, list[k].listing.path)
  {
    var path := list[k].listing.path;
    var r := LowerBound(list, path);
    PathOrder(path, path, path);
    hide PathLess;
  }

  function FindIn(list: seq<CacheEntry>, path: ServerPath): Option<Listing> {
    if Hits(list, path) then Some(list[LowerBound(list, path)].listing) else None
  }

  /** The cache as a map: what a lookup for a path on a server finds. */
  function ListingAt(s: State, server: Server, path: ServerPath): Option<Listing> {
    var i := ServerIndex(s.servers, server);
    if i < |s.servers| then FindIn(s.servers[i].cacheList, path) else None
  }

  lemma FindsServer(servers: seq<ServerEntry>, i: nat)
    requires ServersOk(servers) && i < |servers|
    ensures ServerIndex(servers, servers[i].server) == i && IdIndex(servers, servers[i].id) == i
  {
    hide ListOk;
  }

  // ---- Touching an entry ----

  function TouchState(s: State, i: nat, k: nat): State
    requires i < |s.servers| && k < |s.servers[i].cacheList|
  {
    s.(lru := Moved(s.lru, s.servers[i].cacheList[k].lru.GetOr(0)))
  }

  lemma TouchKeepsInv(s: State, i: nat, k: nat)
    requires Linked(s) && i < |s.servers| && k < |s.servers[i].cacheList|
    ensures Linked(TouchState(s, i, k))
    ensures Surplus(TouchState(s, i, k)) == Surplus(s)
  {
    var id := s.servers[i].cacheList[k].lru.GetOr(0);
    MovedKeepsNodes(s.lru, id);
    MovedKeepsDistinct(s.lru, id);
    hide Moved, ServersOk, DistinctIds, AllNodes, AllSizes;
    LinkedByNodes(s, TouchState(s, i, k));
  }

  // ---- Creating servers and entries ----

  function CreateState(s: State, server: Server): State {
    if ServerIndex(s.servers, server) < |s.servers| then s
    else s.(servers := s.servers + [ServerEntry(s.nextId, server, [])], nextId := s.nextId + 1)
  }

  lemma NewServerSums(servers: seq<ServerEntry>, id: nat, server: Server)
    ensures AllNodes(servers + [ServerEntry(id, server, [])]) == AllNodes(servers)
    ensures AllSizes(servers + [ServerEntry(id, server, [])]) == AllSizes(servers)
  {
    var added := [ServerEntry(id, server, [])];
    AllNodesAppend(servers, added);
    assert AllNodes(added) == [] && AllSizes(added) == 0;
    hide *;
    assert AllNodes(servers) + [] == AllNodes(servers);
  }

  lemma NewServerOk(servers: seq<ServerEntry>, id: nat, server: Server)
    requires ServersOk(servers) && ServerIndex(servers, server) == |servers|
    requires forall i :: 0 <= i < |servers| ==> servers[i].id < id
    ensures ServersOk(servers + [ServerEntry(id, server, [])])
    ensures ServerIndex(servers + [ServerEntry(id, server, [])], server) == |servers|
  {
    var servers' := servers + [ServerEntry(id, server, [])];
    assert ListOk([]);
    assert servers'[|servers|].server == server;
    hide ListOk;
  }

  lemma CreateKeepsInv(s: State, server: Server)
    requires Linked(s)
    ensures Linked(CreateState(s, server))
    ensures Surplus(CreateState(s, server)) == Surplus(s)
    ensures ServerIndex(CreateState(s, server).servers, server) < |CreateState(s, server).servers|
  {
    if ServerIndex(s.servers, server) == |s.servers| {
      NewServerSums(s.servers, s.nextId, server);
      NewServerOk(s.servers, s.nextId, server);
      hide AllNodes, AllSizes, ServersOk, DistinctIds, ServerIndex;
      LinkedByServers(s, CreateState(s, server));
    }
  }

  function Inserted(list: seq<CacheEntry>, e: CacheEntry): seq<CacheEntry> {
    var k := LowerBound(list, e.listing.path);
    list[..k] + [e] + list[k..]
  }

  /** The new entry, and its node at the end of the LRU list. */
  function InsertState(s: State, i: nat, listing: Listing, now: int): State
    requires i < |s.servers|
  {
    s.(servers := WithList(s.servers, i, Inserted(s.servers[i].cacheList, CacheEntry(listing, now, Some(s.nextId)))),
       lru := s.lru + [Node(s.nextId, s.servers[i].id, listing.path)],
       total := s.total + |listing.entries|,
       nextId := s.nextId + 1)
  }

  /** Whether the ordered set would take the path in: it holds nothing that the order cannot tell apart. */
  predicate IsNew(list: seq<CacheEntry>, path: ServerPath) {
    var k := LowerBound(list, path);
    k == |list| || PathLess(path, list[k].listing.path)
  }

  lemma InsertedIsOk(list: seq<CacheEntry>, e: CacheEntry)
    requires ListOk(list) && e.lru.Some? && IsNew(list, e.listing.path)
    ensures ListOk(Inserted(list, e))
  {
    var list', k := Inserted(list, e), LowerBound(list, e.listing.path);
    hide LowerBound;
    forall a, b | 0 <= a < b < |list'| ensures PathLess(list'[a].listing.path, list'[b].listing.path) {
      if b > k {
        if a == k && b > k + 1 {
          assert list'[k + 1] == list[k] && list'[b] == list[b - 1];
          PathOrder(e.listing.path, list[k].listing.path, list[b - 1].listing.path);
        }
      }
      hide PathLess;
    }
  }

  lemma InsertedSums(serverId: nat, list: seq<CacheEntry>, e: CacheEntry)
    ensures multiset(Nodes(serverId, Inserted(list, e))) == multiset(Nodes(serverId, list)) + multiset{NodeOf(serverId, e)}
    ensures Size(Inserted(list, e)) == Size(list) + |e.listing.entries|
  {
    var list', k := Inserted(list, e), LowerBound(list, e.listing.path);
    hide LowerBound, NodeOf;
    NodesSplit(serverId, list', k);
    assert list'[..k] == list[..k] && list'[k + 1..] == list[k..] && list == list[..k] + list[k..];
    NodesAppend(serverId, list[..k], list[k..]);
    hide Nodes, Size;
  }

  lemma InsertCounts(all: multiset<Node>, all': multiset<Node>, list: multiset<Node>, list': multiset<Node>, node: Node)
    requires all' + list == all + list' && list' == list + multiset{node}
    ensures all' == all + multiset{node}
  {
    forall x ensures all'[x] == (all + multiset{node})[x] {
      assert all'[x] + list[x] == (all' + list)[x];
      assert all[x] + list'[x] == (all + list')[x];
    }
  }

  lemma NewNode(lru: seq<Node>, node: Node, nextId: nat)
    requires DistinctIds(lru) && node.id == nextId && forall n :: 0 <= n < |lru| ==> lru[n].id < nextId
    ensures multiset(lru + [node]) == multiset(lru) + multiset{node}
    ensures DistinctIds(lru + [node]) && forall n :: 0 <= n < |lru + [node]| ==> (lru + [node])[n].id < nextId + 1
  {
  }

  lemma WithListIds(servers: seq<ServerEntry>, i: nat, list: seq<CacheEntry>)
    requires i < |servers|
    ensures |WithList(servers, i, list)| == |servers|
    ensures forall j :: 0 <= j < |servers| ==> WithList(servers, i, list)[j].id == servers[j].id
  {
  }

  lemma InsertKeepsInv(s: State, i: nat, listing: Listing, now: int)
    requires Linked(s) && i < |s.servers| && IsNew(s.servers[i].cacheList, listing.path)
    ensures Linked(InsertState(s, i, listing, now))
    ensures Surplus(InsertState(s, i, listing, now)) == Surplus(s)
  {
    var list, s' := s.servers[i].cacheList, InsertState(s, i, listing, now);
    var id, e := s.servers[i].id, CacheEntry(listing, now, Some(s.nextId));
    var list', node := Inserted(list, e), NodeOf(id, e);
    assert ListOk(list);
    hide ListOk, AllNodes, Nodes, AllSizes, Size, Inserted, IsNew, WithList;
    InsertedIsOk(list, e);
    InsertedSums(id, list, e);
    WithListSums(s.servers, i, list');
    WithListOk(s.servers, i, list');
    WithListIds(s.servers, i, list');
    hide ServersOk;
    NewNode(s.lru, node, s.nextId);
    hide DistinctIds;
    InsertCounts(multiset(s.lru), multiset(AllNodes(s'.servers)), multiset(Nodes(id, list)), multiset(Nodes(id, list')), node);
  }

  // ---- Evicting the least recently used entry ----

  function Without(list: seq<CacheEntry>, k: nat): seq<CacheEntry>
    requires k < |list|
  {
    list[..k] + list[k + 1..]
  }

  function WithoutFront(s: State, i: nat, k: nat): State
    requires i < |s.servers| && k < |s.servers[i].cacheList| && s.lru != []
  {
    var list := s.servers[i].cacheList;
    s.(servers := WithList(s.servers, i, Without(list, k)), lru := s.lru[1..], total := s.total - |list[k].listing.entries|)
  }

  function DroppedIfEmpty(s: State, i: nat): State
    requires i < |s.servers|
  {
    if s.servers[i].cacheList == [] then DropState(s, i) else s
  }

  /** The entry of the first node goes, and so does its server if it was the last. */
  function EvictState(s: State): State
    requires Linked(s) && s.lru != []
  {
    FrontLeadsToEntry(s);
    var node := s.lru[0];
    var i := IdIndex(s.servers, node.serverId);
    DroppedIfEmpty(WithoutFront(s, i, LowerBound(s.servers[i].cacheList, node.path)), i)
  }

  lemma FrontLeadsToEntry(s: State)
    requires Linked(s) && s.lru != []
    ensures
      var i := IdIndex(s.servers, s.lru[0].serverId);
      && i < |s.servers| && ServerIndex(s.servers, s.servers[i].server) == i
      && Hits(s.servers[i].cacheList, s.lru[0].path)
      && NodeOf(s.servers[i].id, s.servers[i].cacheList[LowerBound(s.servers[i].cacheList, s.lru[0].path)]) == s.lru[0]
  {
    var i, k := NodeHasEntry(s, 0);
    FindsServer(s.servers, i);
    assert ListOk(s.servers[i].cacheList);
    FindsEntry(s.servers[i].cacheList, k);
  }

  lemma WithoutIsOk(list: seq<CacheEntry>, k: nat)
    requires ListOk(list) && k < |list|
    ensures ListOk(Without(list, k))
  {
    hide PathLess;
  }

  lemma WithoutSums(serverId: nat, list: seq<CacheEntry>, k: nat)
    requires k < |list|
    ensures multiset(Nodes(serverId, list)) == multiset(Nodes(serverId, Without(list, k))) + multiset{NodeOf(serverId, list[k])}
    ensures Size(list) == Size(Without(list, k)) + |list[k].listing.entries|
  {
    NodesSplit(serverId, list, k);
    NodesAppend(serverId, list[..k], list[k + 1..]);
    hide Nodes, Size, NodeOf;
  }

  lemma FrontSplit(lru: seq<Node>)
    requires DistinctIds(lru) && lru != []
    ensures multiset(lru) == multiset(lru[1..]) + multiset{lru[0]}
    ensures DistinctIds(lru[1..])
  {
    assert lru == [lru[0]] + lru[1..];
  }

  lemma WithoutFrontKeepsInv(s: State, i: nat, k: nat)
    requires Linked(s) && s.lru != [] && i < |s.servers| && k < |s.servers[i].cacheList|
    requires s.lru[0] == NodeOf(s.servers[i].id, s.servers[i].cacheList[k])
    ensures Linked(WithoutFront(s, i, k))
    ensures Surplus(WithoutFront(s, i, k)) == Surplus(s)
  {
    var id, list, s' := s.servers[i].id, s.servers[i].cacheList, WithoutFront(s, i, k);
    var list' := Without(list, k);
    assert ListOk(list);
    hide ListOk, AllNodes, Nodes, AllSizes, Size, Without, NodeOf;
    WithoutIsOk(list, k);
    WithoutSums(id, list, k);
    WithListSums(s.servers, i, list');
    WithListOk(s.servers, i, list');
    hide ServersOk;
    FrontSplit(s.lru);
    hide DistinctIds;
    EraseCounts(multiset(s.lru), multiset(AllNodes(s'.servers)), multiset(Nodes(id, list)),
                multiset(Nodes(id, list')), multiset{s.lru[0]}, multiset(s'.lru));
    LinkedByFewerNodes(s, s');
  }

  lemma EvictKeepsInv(s: State)
    requires Linked(s) && s.lru != []
    ensures Linked(EvictState(s))
    ensures EvictState(s).lru == s.lru[1..]
    ensures Surplus(EvictState(s)) == Surplus(s)
  {
    FrontLeadsToEntry(s);
    var i := IdIndex(s.servers, s.lru[0].serverId);
    var k := LowerBound(s.servers[i].cacheList, s.lru[0].path);
    var s' := WithoutFront(s, i, k);
    assert EvictState(s) == DroppedIfEmpty(s', i);
    hide Linked, Surplus, EvictState, IdIndex, LowerBound, NodeOf;
    WithoutFrontKeepsInv(s, i, k);
    if s'.servers[i].cacheList == [] {
      DropKeepsInv(s', i);
    }
  }

  // ---- Pruning ----

  predicate TooBig(s: State) {
    || |s.lru| > 50000
    || (s.total > 1000000 && |s.lru| > 1000)
    || (s.total > 5000000 && |s.lru| > 100)
  }

  function PruneState(s: State): State
    requires Linked(s)
    decreases |s.lru|
  {
    if !TooBig(s) then s
    else
      EvictKeepsInv(s);
      PruneState(EvictState(s))
  }
}
