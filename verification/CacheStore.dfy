/**
 Storing a listing and the pruning that follows (src/engine/directorycache.cpp): the three size limits hold
 again, exactly the least recently used entries are gone, and the new entry is not among them.
 */
module CacheStore {
  import opened Options
  import opened ServerPaths
  import opened DirectoryListing
  import opened CacheState
  import opened CachePruning
  import opened CacheView

  // ---- Replacing one listing ----

  function ReplaceState(s: State, i: nat, k: nat, listing: Listing, time: int): State
    requires i < |s.servers| && k < |s.servers[i].cacheList|
  {
    var list := s.servers[i].cacheList;
    s.(servers := WithList(s.servers, i, list[k := list[k].(listing := listing, modificationTime := time)]),
       total := s.total + |listing.entries| - |list[k].listing.entries|)
  }

  lemma ReplacedSums(serverId: nat, list: seq<CacheEntry>, k: nat, e: CacheEntry)
    requires k < |list| && NodeOf(serverId, e) == NodeOf(serverId, list[k])
    ensures Nodes(serverId, list[k := e]) == Nodes(serverId, list)
    ensures Size(list[k := e]) == Size(list) + |e.listing.entries| - |list[k].listing.entries|
  {
    NodesSplit(serverId, list, k);
    NodesSplit(serverId, list[k := e], k);
    assert list[k := e][..k] == list[..k] && list[k := e][k + 1..] == list[k + 1..];
    hide Nodes, Size, NodeOf;
  }

  lemma ReplaceKeepsInv(s: State, i: nat, k: nat, listing: Listing, time: int)
    requires Linked(s) && i < |s.servers| && k < |s.servers[i].cacheList|
    requires listing.path == s.servers[i].cacheList[k].listing.path
    ensures Linked(ReplaceState(s, i, k, listing, time))
    ensures Surplus(ReplaceState(s, i, k, listing, time)) == Surplus(s)
  {
    var list := s.servers[i].cacheList;
    var e := list[k].(listing := listing, modificationTime := time);
    assert ListOk(list) && ListOk(list[k := e]) by {
      hide PathLess;
    }
    ReplacedSums(s.servers[i].id, list, k, e);
    hide ListOk, Nodes, Size, AllNodes, AllSizes;
    WithListSums(s.servers, i, list[k := e]);
    WithListSameNodes(s.servers, i, list[k := e]);
    WithListOk(s.servers, i, list[k := e]);
    hide ServersOk, DistinctIds;
    LinkedByNodes(s, ReplaceState(s, i, k, listing, time));
  }

  lemma FindInReplaced(list: seq<CacheEntry>, k: nat, e: CacheEntry, path: ServerPath)
    requires ListOk(list) && k < |list| && e.lru.Some? && e.listing.path == list[k].listing.path
    ensures FindIn(list[k := e], path) == if path == e.listing.path then Some(e.listing) else FindIn(list, path)
  {
    var list' := list[k := e];
    assert ListOk(list') by {
      hide PathLess;
    }
    hide ListOk, FindIn;
    assert list'[k] == e;
    if path == e.listing.path {
      MemberIsFound(list', e);
    } else {
      forall x | x in list && x.listing.path == path ensures x in list' {
        var m :| 0 <= m < |list| && list[m] == x;
        assert list'[m] == x;
      }
      SameMembersSameResult(list, list', path);
    }
  }

  lemma ViewOfReplace(s: State, i: nat, k: nat, listing: Listing, time: int, server: Server, path: ServerPath)
    requires Linked(s) && i < |s.servers| && k < |s.servers[i].cacheList|
    requires listing.path == s.servers[i].cacheList[k].listing.path
    ensures ListingAt(ReplaceState(s, i, k, listing, time), server, path) ==
      if server == s.servers[i].server && path == listing.path then Some(listing) else ListingAt(s, server, path)
  {
    var list := s.servers[i].cacheList;
    var e := list[k].(listing := listing, modificationTime := time);
    ListingAtServer(s, i, path);
    ListingAtWithList(s, ReplaceState(s, i, k, listing, time), i, list[k := e], server, path);
    assert ListOk(list);
    hide FindIn;
    FindInReplaced(list, k, e, path);
  }

  // ---- Pruning ----

  /** Nothing is changed or added; some listings may be forgotten. */
  ghost predicate OnlyForgets(s: State, s': State) {
    forall server, path :: ListingAt(s', server, path).Some? ==> ListingAt(s', server, path) == ListingAt(s, server, path)
  }

  lemma PruneUnfolds(s: State)
    requires Linked(s) && TooBig(s)
    ensures Linked(EvictState(s)) && Surplus(EvictState(s)) == Surplus(s) && EvictState(s).lru == s.lru[1..]
    ensures PruneState(s) == PruneState(EvictState(s))
  {
    EvictKeepsInv(s);
    hide Linked, Surplus, EvictState;
  }

  lemma DropDrop(lru: seq<Node>, n: nat)
    requires 1 <= n <= |lru|
    ensures lru[1..][n - 1..] == lru[n..]
  {
  }

  /** Pruning keeps the bookkeeping and ends within the limits. */
  lemma {:induction false} PruneKeepsInv(s: State)
    requires Linked(s)
    ensures Linked(PruneState(s)) && Surplus(PruneState(s)) == Surplus(s) && !TooBig(PruneState(s))
    decreases |s.lru|
  {
    if TooBig(s) {
      PruneUnfolds(s);
      hide *;
      PruneKeepsInv(EvictState(s));
    }
  }

  /** What the LRU list may become: entries have left at its old end only, and a hundred always stay. */
  predicate IsPruned(lru: seq<Node>, lru': seq<Node>) {
    && |lru'| <= |lru| && lru' == lru[|lru| - |lru'|..]
    && (|lru'| >= 100 || |lru'| == |lru|)
  }

  lemma PrunedByOneMore(lru: seq<Node>, lru': seq<Node>)
    requires |lru| > 100 && IsPruned(lru[1..], lru')
    ensures IsPruned(lru, lru')
  {
    DropDrop(lru, |lru| - |lru'|);
  }

  lemma {:induction false} PruneEvictsPrefix(s: State)
    requires Linked(s)
    ensures IsPruned(s.lru, PruneState(s).lru)
    decreases |s.lru|
  {
    if TooBig(s) {
      PruneUnfolds(s);
      hide Linked, Surplus, EvictState, PruneState, IsPruned;
      PruneEvictsPrefix(EvictState(s));
      PrunedByOneMore(s.lru, PruneState(s).lru);
    }
  }

  /** And it changes nothing about the entries that stay. */
  lemma {:induction false} PruneOnlyForgets(s: State)
    requires Linked(s)
    ensures OnlyForgets(s, PruneState(s))
    decreases |s.lru|
  {
    if TooBig(s) {
      var s', r := EvictState(s), PruneState(s);
      PruneUnfolds(s);
      hide Linked, Surplus, EvictState, ListingAt, PruneState;
      PruneOnlyForgets(s');
      forall server, path | ListingAt(r, server, path).Some? ensures ListingAt(r, server, path) == ListingAt(s, server, path) {
        ViewOfEvict(s, server, path);
      }
    }
  }

  /** The newest node leads to a listing for this path on this server. */
  predicate NewestIs(s: State, server: Server, path: ServerPath) {
    && s.lru != []
    && s.lru[|s.lru| - 1].path == path
    && var i := IdIndex(s.servers, s.lru[|s.lru| - 1].serverId);
       i < |s.servers| && s.servers[i].server == server
  }

  lemma NodesTellApart(s: State, a: nat, b: nat)
    requires Linked(s) && a < b < |s.lru|
    ensures s.lru[a].serverId != s.lru[b].serverId || s.lru[a].path != s.lru[b].path
  {
    var i, k := NodeHasEntry(s, a);
    var j, m := NodeHasEntry(s, b);
    if i == j && s.lru[a].path == s.lru[b].path {
      assert ListOk(s.servers[i].cacheList);
      PathsAreUnique(s.servers[i].cacheList, k, m);
    }
  }

  /** Evicting takes no other server with it. */
  lemma EvictKeepsServers(s: State, id: nat)
    requires Linked(s) && s.lru != []
    ensures
      var j, j' := IdIndex(s.servers, id), IdIndex(EvictState(s).servers, id);
      j' < |EvictState(s).servers| ==> j < |s.servers| && s.servers[j].server == EvictState(s).servers[j'].server
  {
    FrontLeadsToEntry(s);
    var i := IdIndex(s.servers, s.lru[0].serverId);
    var k := LowerBound(s.servers[i].cacheList, s.lru[0].path);
    var s' := EvictState(s);
    assert s' == DroppedIfEmpty(WithoutFront(s, i, k), i);
    var j' := IdIndex(s'.servers, id);
    if j' < |s'.servers| {
      var j := if |s'.servers| == |s.servers| || j' < i then j' else j' + 1;
      assert s.servers[j].id == id && s.servers[j].server == s'.servers[j'].server;
      assert ServersOk(s.servers);
      hide EvictState, ListOk;
      FindsServer(s.servers, j);
    }
  }

  /** The first node leads elsewhere. */
  lemma FirstIsNotNewest(s: State, server: Server, path: ServerPath)
    requires Linked(s) && |s.lru| > 1 && NewestIs(s, server, path)
    ensures ListingAt(EvictState(s), server, path) == ListingAt(s, server, path)
  {
    var last := s.lru[|s.lru| - 1];
    FrontLeadsToEntry(s);
    NodesTellApart(s, 0, |s.lru| - 1);
    var first := IdIndex(s.servers, s.lru[0].serverId);
    assert s.servers[first].server == server ==> s.servers[first].id == last.serverId by {
      assert ServersOk(s.servers);
    }
    hide Linked, EvictState, ListingAt, NewestIs;
    ViewOfEvict(s, server, path);
  }

  lemma StaysNewest(s: State, server: Server, path: ServerPath)
    requires Linked(s) && |s.lru| > 1 && NewestIs(s, server, path)
    requires Linked(EvictState(s)) && EvictState(s).lru == s.lru[1..]
    ensures NewestIs(EvictState(s), server, path)
  {
    var s' := EvictState(s);
    var last := s.lru[|s.lru| - 1];
    assert s'.lru[|s'.lru| - 1] == last;
    var i, k := NodeHasEntry(s', |s'.lru| - 1);
    FindsServer(s'.servers, i);
    hide Linked, EvictState;
    EvictKeepsServers(s, last.serverId);
  }

  lemma {:induction false} PruneKeepsNewest(s: State, server: Server, path: ServerPath)
    requires Linked(s) && NewestIs(s, server, path)
    ensures ListingAt(PruneState(s), server, path) == ListingAt(s, server, path)
    decreases |s.lru|
  {
    if TooBig(s) {
      PruneUnfolds(s);
      assert |s.lru| > 1;
      hide *;
      FirstIsNotNewest(s, server, path);
      StaysNewest(s, server, path);
      PruneKeepsNewest(EvictState(s), server, path);
    }
  }

  // ---- Storing ----

  /** A listing for a path that the order cannot tell from a cached one although they differ. */
  predicate Ambiguous(s: State, server: Server, path: ServerPath) {
    var i := ServerIndex(s.servers, server);
    i < |s.servers| && !Hits(s.servers[i].cacheList, path) && !IsNew(s.servers[i].cacheList, path)
  }

  function StoreState(s: State, server: Server, listing: Listing, now: int): State
    requires Linked(s)
  {
    CreateKeepsInv(s, server);
    var s1 := CreateState(s, server);
    StoreAt(s1, ServerIndex(s1.servers, server), listing, now)
  }

  function StoreAt(s: State, i: nat, listing: Listing, now: int): State
    requires Linked(s) && i < |s.servers|
  {
    var list := s.servers[i].cacheList;
    var k := LowerBound(list, listing.path);
    if Hits(list, listing.path) then
      ReplaceState(TouchState(s, i, k), i, k, listing, now)
    else if IsNew(list, listing.path) then
      InsertKeepsInv(s, i, listing, now);
      PruneState(InsertState(s, i, listing, now))
    else
      TouchKeepsInv(s, i, k);
      AddedToTotal(TouchState(s, i, k), |listing.entries|);
      PruneState(TouchState(s, i, k).(total := s.total + |listing.entries|))
  }

  lemma AddedToTotal(s: State, n: nat)
    requires Linked(s)
    ensures Linked(s.(total := s.total + n)) && Surplus(s.(total := s.total + n)) == Surplus(s) + n
  {
  }

  lemma AlikeIsTransitive(p: ServerPath, q: ServerPath, r: ServerPath)
    requires Alike(p, q) && Alike(q, r)
    ensures Alike(p, r) && Alike(q, p)
  {
  }

  lemma AlikeEntryIsLowerBound(list: seq<CacheEntry>, k: nat, path: ServerPath)
    requires ListOk(list) && k < |list| && Alike(list[k].listing.path, path)
    ensures LowerBound(list, path) == k && !IsNew(list, path)
  {
    var q, j := list[k].listing.path, LowerBound(list, path);
    PathOrder(q, path, path);
    PathOrder(path, q, q);
    if j < k {
      var x := list[j].listing.path;
      PathOrder(path, x, q);
      PathOrder(x, q, q);
      hide PathLess;
      if Alike(path, x) {
        AlikeIsTransitive(q, path, x);
        AlikeIsTransitive(x, q, q);
      }
    }
  }

  /**
   A path is ambiguous exactly if nothing is cached for it but something is for a path alike: both are empty,
   of different server types, or they differ behind a NUL.
   */
  lemma AmbiguousIff(s: State, server: Server, path: ServerPath)
    requires Linked(s)
    ensures Ambiguous(s, server, path) <==>
      ListingAt(s, server, path).None? && exists q :: ListingAt(s, server, q).Some? && Alike(q, path)
  {
    var i := ServerIndex(s.servers, server);
    if i < |s.servers| {
      var list := s.servers[i].cacheList;
      assert ListOk(list);
      hide ListOk, Linked, Alike;
      if Ambiguous(s, server, path) {
        var k := LowerBound(list, path);
        PathOrder(list[k].listing.path, path, path);
        FindsEntry(list, k) by {
          assert Sorted(list) by { assert ListOk(list); }
        }
        assert ListingAt(s, server, list[k].listing.path).Some?;
      }
      if q :| ListingAt(s, server, q).Some? && Alike(q, path) {
        AlikeEntryIsLowerBound(list, LowerBound(list, q), path);
      }
    }
  }

  /** The entry is new: the invariants, and the listing is there afterwards. */
  lemma StoreNew(s: State, i: nat, listing: Listing, now: int)
    requires Linked(s) && i < |s.servers| && IsNew(s.servers[i].cacheList, listing.path)
    ensures
      var s1 := InsertState(s, i, listing, now);
      && Linked(s1) && Surplus(s1) == Surplus(s)
      && StoreAt(s, i, listing, now) == PruneState(s1)
      && NewestIs(s1, s.servers[i].server, listing.path)
  {
    InsertKeepsInv(s, i, listing, now);
    FindsServer(s.servers, i);
    NewIsNoHit(s.servers[i].cacheList, listing.path);
    var s1 := InsertState(s, i, listing, now);
    SameIds(s.servers, s1.servers, s.servers[i].id);
    hide Linked, PruneState, IsNew, Hits, Inserted, Surplus, ServersOk;
  }

  lemma {:induction false} SameIds(a: seq<ServerEntry>, b: seq<ServerEntry>, id: nat)
    requires |a| == |b| && forall i :: 0 <= i < |a| ==> a[i].id == b[i].id
    ensures IdIndex(a, id) == IdIndex(b, id)
  {
  }

  lemma NewIsNoHit(list: seq<CacheEntry>, path: ServerPath)
    requires IsNew(list, path)
    ensures !Hits(list, path)
  {
    PathOrder(path, path, path);
    hide PathLess;
  }

  lemma TouchKeepsTotal(s: State, i: nat, k: nat)
    requires i < |s.servers| && k < |s.servers[i].cacheList|
    ensures TouchState(s, i, k).total == s.total && TouchState(s, i, k).servers == s.servers
  {
  }

  /** The path is there but for its type: the entry counts although nothing is stored. */
  lemma StoreAmbiguous(s: State, i: nat, listing: Listing, now: int)
    requires Linked(s) && i < |s.servers|
    requires !Hits(s.servers[i].cacheList, listing.path) && !IsNew(s.servers[i].cacheList, listing.path)
    ensures
      var s1 := TouchState(s, i, LowerBound(s.servers[i].cacheList, listing.path)).(total := s.total + |listing.entries|);
      && Linked(s1) && Surplus(s1) == Surplus(s) + |listing.entries|
      && StoreAt(s, i, listing, now) == PruneState(s1)
  {
    var k := LowerBound(s.servers[i].cacheList, listing.path);
    var s1 := TouchState(s, i, k).(total := s.total + |listing.entries|);
    TouchKeepsInv(s, i, k);
    AddedToTotal(TouchState(s, i, k), |listing.entries|) by {
      hide *;
    }
    assert StoreAt(s, i, listing, now) == PruneState(s1) by {
      hide Linked, PruneState, Surplus, TouchState;
    }
    hide *;
    assert TouchState(s, i, k).(total := TouchState(s, i, k).total + |listing.entries|) == s1 by {
      TouchKeepsTotal(s, i, k);
    }
  }

  lemma StoreHit(s: State, i: nat, listing: Listing, now: int)
    requires Linked(s) && i < |s.servers| && Hits(s.servers[i].cacheList, listing.path)
    ensures
      var k := LowerBound(s.servers[i].cacheList, listing.path);
      var s1 := TouchState(s, i, k);
      && Linked(s1) && Surplus(s1) == Surplus(s) && s1.servers == s.servers
      && StoreAt(s, i, listing, now) == ReplaceState(s1, i, k, listing, now)
      && s.servers[i].cacheList[k].listing.path == listing.path
  {
    TouchKeepsInv(s, i, LowerBound(s.servers[i].cacheList, listing.path));
    hide Linked, PruneState, Surplus;
  }

  /**
   Storing keeps the bookkeeping.  The count goes wrong exactly if an entry of an ambiguous path has files; it
   is then too high by their number.
   */
  lemma StoreKeepsInv(s: State, server: Server, listing: Listing, now: int)
    requires Linked(s)
    ensures Linked(StoreState(s, server, listing, now))
    ensures Surplus(StoreState(s, server, listing, now)) ==
      Surplus(s) + if Ambiguous(s, server, listing.path) then |listing.entries| else 0
  {
    CreateKeepsInv(s, server);
    var s1 := CreateState(s, server);
    var i := ServerIndex(s1.servers, server);
    CreateIsNotAmbiguous(s, server, listing.path);
    assert StoreState(s, server, listing, now) == StoreAt(s1, i, listing, now);
    hide Linked, Surplus, StoreState, StoreAt, CreateState, TooBig;
    var list := s1.servers[i].cacheList;
    var k := LowerBound(list, listing.path);
    if Hits(list, listing.path) {
      StoreHit(s1, i, listing, now);
      hide ReplaceState, TouchState;
      ReplaceKeepsInv(TouchState(s1, i, k), i, k, listing, now);
    } else if IsNew(list, listing.path) {
      StoreNew(s1, i, listing, now);
      PruneKeepsInv(InsertState(s1, i, listing, now));
    } else {
      StoreAmbiguous(s1, i, listing, now);
      PruneKeepsInv(TouchState(s1, i, k).(total := s1.total + |listing.entries|));
    }
  }

  lemma PrunedPrefix(s: State)
    requires Linked(s)
    ensures IsPruned(s.lru, PruneState(s).lru) && !TooBig(PruneState(s))
  {
    PruneKeepsInv(s);
    PruneEvictsPrefix(s);
  }

  lemma InsertAddsNode(s: State, i: nat, listing: Listing, now: int)
    requires i < |s.servers|
    ensures InsertState(s, i, listing, now).lru == s.lru + [Node(s.nextId, s.servers[i].id, listing.path)]
  {
  }

  lemma TouchKeepsLength(s: State, i: nat, k: nat)
    requires i < |s.servers| && k < |s.servers[i].cacheList|
    ensures |TouchState(s, i, k).lru| == |s.lru|
  {
    MovedKeepsNodes(s.lru, s.servers[i].cacheList[k].lru.GetOr(0));
  }

  lemma ReplaceKeepsLru(s: State, i: nat, k: nat, listing: Listing, now: int)
    requires i < |s.servers| && k < |s.servers[i].cacheList|
    ensures ReplaceState(s, i, k, listing, now).lru == s.lru
  {
  }

  /**
   The limits after a store.  Replacing a listing evicts nothing, and may leave the count of files over its
   limit; any other store ends within all limits, and a new listing's node is at the end of a LRU list that has
   lost the nodes of its old end only.
   */
  lemma StoreEvicts(s: State, server: Server, listing: Listing, now: int) returns (node: Node)
    requires Linked(s)
    ensures node.path == listing.path && forall n :: 0 <= n < |s.lru| ==> s.lru[n].id < node.id
    ensures
      var r := StoreState(s, server, listing, now);
      if ListingAt(s, server, listing.path).Some? then |r.lru| == |s.lru|
      else
        && !TooBig(r)
        && (!Ambiguous(s, server, listing.path) ==> IsPruned(s.lru + [node], r.lru))
  {
    CreateKeepsInv(s, server);
    var s1 := CreateState(s, server);
    var i := ServerIndex(s1.servers, server);
    CreateIsNotAmbiguous(s, server, listing.path);
    ViewOfCreate(s, server, server, listing.path);
    node := Node(s1.nextId, s1.servers[i].id, listing.path);
    assert s1.lru == s.lru;
    assert StoreState(s, server, listing, now) == StoreAt(s1, i, listing, now);
    hide Linked, Surplus, StoreState, StoreAt, CreateState, TooBig, IsPruned;
    var list := s1.servers[i].cacheList;
    var k := LowerBound(list, listing.path);
    assert ListingAt(s, server, listing.path).Some? <==> Hits(list, listing.path);
    if Hits(list, listing.path) {
      StoreHit(s1, i, listing, now);
      TouchKeepsLength(s1, i, k);
      hide ReplaceState, TouchState;
      ReplaceKeepsLru(TouchState(s1, i, k), i, k, listing, now);
    } else if IsNew(list, listing.path) {
      StoreNew(s1, i, listing, now);
      InsertAddsNode(s1, i, listing, now);
      PrunedPrefix(InsertState(s1, i, listing, now));
    } else {
      StoreAmbiguous(s1, i, listing, now);
      PrunedPrefix(TouchState(s1, i, k).(total := s1.total + |listing.entries|));
    }
  }

  lemma CreateIsNotAmbiguous(s: State, server: Server, path: ServerPath)
    requires Linked(s)
    ensures
      var s1 := CreateState(s, server);
      var i := ServerIndex(s1.servers, server);
      i < |s1.servers| && (Ambiguous(s, server, path) <==> !Hits(s1.servers[i].cacheList, path) && !IsNew(s1.servers[i].cacheList, path))
  {
    CreateKeepsInv(s, server);
    var s1 := CreateState(s, server);
    hide Linked;
    assert ServerIndex(s.servers, server) == |s.servers| ==> s1.servers[ServerIndex(s1.servers, server)].cacheList == [];
  }

  /**
   Unless its path is ambiguous, a stored listing is there afterwards, whatever had to be pruned for it, and
   no other listing is changed.
   */
  lemma StoredIsThere(s: State, server: Server, listing: Listing, now: int)
    requires Linked(s) && !Ambiguous(s, server, listing.path)
    ensures ListingAt(StoreState(s, server, listing, now), server, listing.path) == Some(listing)
  {
    CreateKeepsInv(s, server);
    var s1 := CreateState(s, server);
    var i := ServerIndex(s1.servers, server);
    CreateIsNotAmbiguous(s, server, listing.path);
    assert StoreState(s, server, listing, now) == StoreAt(s1, i, listing, now);
    hide Linked, Surplus, StoreState, StoreAt, CreateState, TooBig;
    var list := s1.servers[i].cacheList;
    if Hits(list, listing.path) {
      StoreHit(s1, i, listing, now);
      var k := LowerBound(list, listing.path);
      hide ReplaceState, ListingAt;
      ViewOfReplace(TouchState(s1, i, k), i, k, listing, now, server, listing.path);
    } else {
      StoreNew(s1, i, listing, now);
      hide ListingAt, InsertState, PruneState, NewestIs;
      PruneKeepsNewest(InsertState(s1, i, listing, now), server, listing.path);
      ViewOfInsert(s1, i, listing, now, server, listing.path);
    }
  }

  lemma StoreForgets(s: State, server: Server, listing: Listing, now: int, other: Server, path: ServerPath)
    requires Linked(s) && (other != server || path != listing.path)
    ensures
      var r := StoreState(s, server, listing, now);
      ListingAt(r, other, path).Some? ==> ListingAt(r, other, path) == ListingAt(s, other, path)
  {
    CreateKeepsInv(s, server);
    var s1 := CreateState(s, server);
    var i := ServerIndex(s1.servers, server);
    assert StoreState(s, server, listing, now) == StoreAt(s1, i, listing, now);
    ViewOfCreate(s, server, other, path);
    hide Linked, Surplus, StoreState, StoreAt, CreateState, TooBig;
    var list := s1.servers[i].cacheList;
    var k := LowerBound(list, listing.path);
    if Hits(list, listing.path) {
      StoreHit(s1, i, listing, now);
      assert ListingAt(TouchState(s1, i, k), other, path) == ListingAt(s1, other, path);
      hide ReplaceState, ListingAt;
      ViewOfReplace(TouchState(s1, i, k), i, k, listing, now, other, path);
    } else if IsNew(list, listing.path) {
      StoreNew(s1, i, listing, now);
      hide ListingAt, InsertState, PruneState, NewestIs;
      PruneOnlyForgets(InsertState(s1, i, listing, now));
      ViewOfInsert(s1, i, listing, now, other, path);
    } else {
      StoreAmbiguous(s1, i, listing, now);
      var s2 := TouchState(s1, i, k).(total := s1.total + |listing.entries|);
      assert ListingAt(s2, other, path) == ListingAt(s1, other, path);
      hide ListingAt, PruneState, TouchState;
      PruneOnlyForgets(s2);
    }
  }

  /** Among few listings a store takes nothing away. */
  lemma FewAreKept(s: State, server: Server, listing: Listing, now: int, other: Server, path: ServerPath)
    requires Linked(s) && !Ambiguous(s, server, listing.path) && |s.lru| < 100
    requires other != server || path != listing.path
    ensures ListingAt(StoreState(s, server, listing, now), other, path) == ListingAt(s, other, path)
  {
    CreateKeepsInv(s, server);
    var s1 := CreateState(s, server);
    var i := ServerIndex(s1.servers, server);
    CreateIsNotAmbiguous(s, server, listing.path);
    assert StoreState(s, server, listing, now) == StoreAt(s1, i, listing, now);
    assert s1.lru == s.lru;
    ViewOfCreate(s, server, other, path);
    hide Linked, Surplus, StoreState, StoreAt, CreateState;
    var list := s1.servers[i].cacheList;
    var k := LowerBound(list, listing.path);
    if Hits(list, listing.path) {
      StoreHit(s1, i, listing, now);
      assert ListingAt(TouchState(s1, i, k), other, path) == ListingAt(s1, other, path);
      hide ReplaceState, ListingAt;
      ViewOfReplace(TouchState(s1, i, k), i, k, listing, now, other, path);
    } else {
      StoreNew(s1, i, listing, now);
      assert !TooBig(InsertState(s1, i, listing, now));
      assert PruneState(InsertState(s1, i, listing, now)) == InsertState(s1, i, listing, now);
      hide ListingAt, InsertState, PruneState, NewestIs;
      ViewOfInsert(s1, i, listing, now, other, path);
    }
  }

  // ---- No more is evicted than the limits call for ----

  predicate WithinLimits(nodes: nat, files: int) {
    nodes <= 50000 && (files > 1000000 ==> nodes <= 1000) && (files > 5000000 ==> nodes <= 100)
  }

  /** Pruning ends within the limits, and before its last eviction it was not within them. */
  lemma {:induction false} PruneIsSparing(s: State) returns (last: State)
    requires Linked(s)
    ensures WithinLimits(|PruneState(s).lru|, PruneState(s).total)
    ensures
      if WithinLimits(|s.lru|, s.total) then PruneState(s) == s
      else Linked(last) && last.lru != [] && !WithinLimits(|last.lru|, last.total) && PruneState(s) == EvictState(last)
    decreases |s.lru|
  {
    last := s;
    if TooBig(s) {
      PruneUnfolds(s);
      var s' := EvictState(s);
      hide Linked, Surplus, EvictState, PruneState;
      var more := PruneIsSparing(s');
      if !WithinLimits(|s'.lru|, s'.total) {
        last := more;
      }
    }
  }

  /** A store that stays within the limits forgets nothing. */
  lemma StoreForgetsNothing(s: State, server: Server, listing: Listing, now: int, other: Server, path: ServerPath)
    requires Linked(s) && !Ambiguous(s, server, listing.path)
    requires WithinLimits(|s.lru| + 1, s.total + |listing.entries|)
    ensures ListingAt(StoreState(s, server, listing, now), other, path) ==
      if other == server && path == listing.path then Some(listing) else ListingAt(s, other, path)
  {
    CreateKeepsInv(s, server);
    var s1 := CreateState(s, server);
    var i := ServerIndex(s1.servers, server);
    CreateIsNotAmbiguous(s, server, listing.path);
    assert StoreState(s, server, listing, now) == StoreAt(s1, i, listing, now) && s1.servers[i].server == server;
    assert s1.lru == s.lru && s1.total == s.total;
    ViewOfCreate(s, server, other, path);
    hide Linked, Surplus, StoreState, StoreAt, CreateState, TooBig;
    var list := s1.servers[i].cacheList;
    var k := LowerBound(list, listing.path);
    if Hits(list, listing.path) {
      StoreHit(s1, i, listing, now);
      assert ListingAt(TouchState(s1, i, k), other, path) == ListingAt(s1, other, path);
      hide ReplaceState, ListingAt;
      ViewOfReplace(TouchState(s1, i, k), i, k, listing, now, other, path);
    } else {
      StoreNew(s1, i, listing, now);
      var s2 := InsertState(s1, i, listing, now);
      assert |s2.lru| == |s.lru| + 1 && s2.total == s.total + |listing.entries|;
      hide ListingAt, InsertState, PruneState, NewestIs;
      var _ := PruneIsSparing(s2);
      ViewOfInsert(s1, i, listing, now, other, path);
    }
  }
}
