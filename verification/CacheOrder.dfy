/**
 What "least recently used" means over whole runs of the directory cache (src/engine/directorycache.cpp): the LRU
 list is ordered by the last call that used each listing.
 */
module CacheOrder {
  import opened Options
  import opened ServerPaths
  import opened DirectoryListing
  import opened CacheState
  import opened CachePruning
  import opened CacheView
  import opened CacheStore
  import opened CacheEdits
  import opened CacheRuns

  // ---- Lists of nodes ordered by a stamp ----

  ghost predicate Rising(lru: seq<Node>, g: Node -> nat, t: nat) {
    && (forall a, b :: 0 <= a < b < |lru| ==> g(lru[a]) <= g(lru[b]))
    && (forall a :: 0 <= a < |lru| ==> g(lru[a]) <= t)
  }

  /** The stamps after the chosen nodes were used at `t`. */
  function Bumped(g: Node -> nat, chosen: Node -> bool, t: nat): Node -> nat {
    (n: Node) => if chosen(n) then t else g(n)
  }

  lemma RisingSame(lru: seq<Node>, g: Node -> nat, g': Node -> nat, t: nat)
    requires Rising(lru, g, t) && forall n :: n in lru ==> g'(n) == g(n)
    ensures Rising(lru, g', t)
  {
  }

  lemma FirstStays(first: Node, rest: seq<Node>, k: nat)
    ensures k < |rest| ==>
      [first] + (rest[..k] + rest[k + 1..] + [rest[k]]) ==
        ([first] + rest)[..k + 1] + ([first] + rest)[k + 2..] + [([first] + rest)[k + 1]]
    ensures ([first] + rest)[..0] + ([first] + rest)[1..] + [first] == rest + [first]
  {
  }

  lemma {:induction false} MovedParts(lru: seq<Node>, id: nat)
    ensures
      var k := IndexOf(lru, id);
      Moved(lru, id) == if k == |lru| then lru else lru[..k] + lru[k + 1..] + [lru[k]]
  {
    if lru != [] {
      var first, rest := lru[0], lru[1..];
      FirstStays(first, rest, IndexOf(rest, id));
      assert lru == [first] + rest;
      if first.id != id {
        MovedParts(rest, id);
        assert IndexOf(lru, id) == 1 + IndexOf(rest, id) && Moved(lru, id) == [first] + Moved(rest, id);
      } else {
        assert IndexOf(lru, id) == 0 && Moved(lru, id) == rest + [first];
      }
      hide Moved, IndexOf;
    }
  }

  function HasId(id: nat): Node -> bool {
    (n: Node) => n.id == id
  }

  lemma MovedAt(lru: seq<Node>, id: nat)
    requires DistinctIds(lru)
    ensures
      var k, l := IndexOf(lru, id), Moved(lru, id);
      && |l| == |lru|
      && (k == |lru| ==> l == lru && forall a :: 0 <= a < |lru| ==> lru[a].id != id)
      && (k < |lru| ==> l[|lru| - 1] == lru[k])
      && (k < |lru| ==> forall a :: 0 <= a < |lru| - 1 ==> l[a] == lru[if a < k then a else a + 1] && l[a].id != id)
  {
    MovedParts(lru, id);
    hide Moved;
  }

  lemma MovedRises(lru: seq<Node>, id: nat, g: Node -> nat, t: nat)
    requires Rising(lru, g, t) && DistinctIds(lru)
    ensures Rising(Moved(lru, id), Bumped(g, HasId(id), t), t)
  {
    MovedAt(lru, id);
    var k, g', n := IndexOf(lru, id), Bumped(g, HasId(id), t), |lru|;
    var l := Moved(lru, id);
    hide Moved, IndexOf, DistinctIds;
    if k == n {
      RisingSame(lru, g, g', t);
    } else {
      assert g'(l[n - 1]) == t;
      forall a | 0 <= a < n - 1 ensures g'(l[a]) == g(lru[if a < k then a else a + 1]) <= t {
      }
      forall a, b | 0 <= a < b < n ensures g'(l[a]) <= g'(l[b]) {
        if b < n - 1 {
          assert g(lru[if a < k then a else a + 1]) <= g(lru[if b < k then b else b + 1]);
        }
      }
    }
  }

  /** Whether the entry with this back pointer is among those an edit concerns. */
  predicate Concerned(list: seq<CacheEntry>, edit: Edit, id: nat) {
    list != [] &&
    ((edit.concerns(list[0].listing.path) && list[0].lru.GetOr(0) == id) || Concerned(list[1..], edit, id))
  }

  function AreConcerned(list: seq<CacheEntry>, edit: Edit): Node -> bool {
    (n: Node) => Concerned(list, edit, n.id)
  }

  lemma {:induction false} TouchedRises(lru: seq<Node>, list: seq<CacheEntry>, edit: Edit, g: Node -> nat, t: nat)
    requires Rising(lru, g, t) && DistinctIds(lru)
    ensures Rising(Touched(lru, list, edit), Bumped(g, AreConcerned(list, edit), t), t)
    decreases |list|
  {
    if list == [] {
      RisingSame(lru, g, Bumped(g, AreConcerned(list, edit), t), t);
    } else {
      var id, rest := list[0].lru.GetOr(0), list[1..];
      var concerned := edit.concerns(list[0].listing.path);
      var lru1 := if concerned then Moved(lru, id) else lru;
      var g1 := if concerned then Bumped(g, HasId(id), t) else g;
      if concerned {
        MovedRises(lru, id, g, t);
        MovedKeepsDistinct(lru, id);
      }
      TouchedRises(lru1, rest, edit, g1, t);
      RisingSame(Touched(lru, list, edit), Bumped(g1, AreConcerned(rest, edit), t),
                 Bumped(g, AreConcerned(list, edit), t), t);
    }
  }

  lemma UnlinkedRises(lru: seq<Node>, id: nat, g: Node -> nat, t: nat)
    requires Rising(lru, g, t)
    ensures Rising(Unlinked(lru, id), g, t)
  {
    var k, l := IndexOf(lru, id), Unlinked(lru, id);
    if k < |lru| {
      assert forall a :: 0 <= a < |l| ==> l[a] == lru[if a < k then a else a + 1];
    }
  }

  lemma {:induction false} UnlinkedAllRises(lru: seq<Node>, gone: seq<CacheEntry>, g: Node -> nat, t: nat)
    requires Rising(lru, g, t)
    ensures Rising(UnlinkedAll(lru, gone), g, t)
    decreases |gone|
  {
    if gone != [] {
      UnlinkedRises(lru, gone[0].lru.GetOr(0), g, t);
      UnlinkedAllRises(Unlinked(lru, gone[0].lru.GetOr(0)), gone[1..], g, t);
    }
  }

  // ---- Stamps of servers and paths ----

  /** When a listing was last used; 0 for never. */
  type Stamp = (Server, ServerPath) -> nat

  function ServerOf(s: State, id: nat): Option<Server> {
    var i := IdIndex(s.servers, id);
    if i < |s.servers| then Some(s.servers[i].server) else None
  }

  function StampAt(s: State, f: Stamp, n: Node): nat {
    var server := ServerOf(s, n.serverId);
    if server.Some? then f(server.value, n.path) else 0
  }

  function StampOf(s: State, f: Stamp): Node -> nat {
    (n: Node) => StampAt(s, f, n)
  }

  /** The list is ordered by the stamps, and none is later than `t`. */
  ghost predicate Ordered(s: State, f: Stamp, t: nat) {
    Rising(s.lru, StampOf(s, f), t)
  }

  /** The stamps after some listings of a server were used at `t`. */
  function Used(f: Stamp, server: Server, paths: ServerPath -> bool, t: nat): Stamp {
    (x, p) => if x == server && paths(p) then t else f(x, p)
  }

  function Only(path: ServerPath): ServerPath -> bool {
    (p: ServerPath) => p == path
  }

  function Either(a: ServerPath -> bool, b: ServerPath -> bool): ServerPath -> bool {
    (p: ServerPath) => a(p) || b(p)
  }

  lemma OrderedSame(s: State, f: Stamp, f': Stamp, t: nat)
    requires Ordered(s, f, t)
    requires forall n :: n in s.lru && ServerOf(s, n.serverId).Some? ==> f'(ServerOf(s, n.serverId).value, n.path) == f(ServerOf(s, n.serverId).value, n.path)
    ensures Ordered(s, f', t)
  {
    RisingSame(s.lru, StampOf(s, f), StampOf(s, f'), t);
  }

  /** Using some listings and then others, by the same call. */
  lemma UsedTwice(s: State, f: Stamp, server: Server, a: ServerPath -> bool, b: ServerPath -> bool, t: nat)
    requires Ordered(s, Used(Used(f, server, a, t), server, b, t), t)
    ensures Ordered(s, Used(f, server, Either(a, b), t), t)
  {
    OrderedSame(s, Used(Used(f, server, a, t), server, b, t), Used(f, server, Either(a, b), t), t);
  }

  /** No server is new, and none has changed its identity. */
  ghost predicate SameServers(s: State, s': State) {
    forall id :: ServerOf(s', id).Some? ==> ServerOf(s', id) == ServerOf(s, id)
  }

  /** If the list of nodes rises with the new stamps as seen from the old state, it does so from the new one. */
  lemma SeenFromNew(s: State, s': State, f: Stamp, t: nat)
    requires Linked(s') && SameServers(s, s') && Rising(s'.lru, StampOf(s, f), t)
    ensures Ordered(s', f, t)
  {
    forall n | n in s'.lru ensures StampAt(s', f, n) == StampAt(s, f, n) {
      NodesHaveServers(s', n);
    }
    hide Linked, ServerOf;
    RisingSame(s'.lru, StampOf(s, f), StampOf(s', f), t);
  }

  lemma NodesHaveServers(s: State, n: Node)
    requires Linked(s) && n in s.lru
    ensures ServerOf(s, n.serverId).Some?
  {
    var a :| 0 <= a < |s.lru| && s.lru[a] == n;
    var i, k := NodeHasEntry(s, a);
    FindsServer(s.servers, i);
  }

  /** A node is the one an entry points back to exactly if it is for the entry's server and path. */
  lemma NodeIs(s: State, i: nat, k: nat, n: Node)
    requires Linked(s) && i < |s.servers| && k < |s.servers[i].cacheList| && n in s.lru
    ensures
      var e := s.servers[i].cacheList[k];
      n.id == e.lru.GetOr(0) <==> n.serverId == s.servers[i].id && n.path == e.listing.path
    ensures n.serverId == s.servers[i].id <==> ServerOf(s, n.serverId) == Some(s.servers[i].server)
  {
    var a :| 0 <= a < |s.lru| && s.lru[a] == n;
    var j, m := NodeHasEntry(s, a);
    FindsServer(s.servers, i);
    FindsServer(s.servers, j);
    EntryHasNode(s, i, k);
    var b :| 0 <= b < |s.lru| && s.lru[b] == NodeOf(s.servers[i].id, s.servers[i].cacheList[k]);
    if n.serverId == s.servers[i].id && n.path == s.servers[i].cacheList[k].listing.path && a != b {
      NodesTellApart(s, if a < b then a else b, if a < b then b else a);
    }
    hide NodeOf;
    assert DistinctIds(s.lru);
  }

  // ---- What the parts of the operations do to the order ----

  lemma SameIdsSameServers(s: State, s': State)
    requires |s'.servers| == |s.servers|
    requires forall i :: 0 <= i < |s.servers| ==> s'.servers[i].id == s.servers[i].id && s'.servers[i].server == s.servers[i].server
    ensures SameServers(s, s')
  {
    forall id ensures IdIndex(s'.servers, id) == IdIndex(s.servers, id) {
      SameIds(s.servers, s'.servers, id);
    }
  }

  lemma TouchOrders(s: State, i: nat, k: nat, f: Stamp, t: nat)
    requires Linked(s) && Ordered(s, f, t) && i < |s.servers| && k < |s.servers[i].cacheList|
    ensures Ordered(TouchState(s, i, k), Used(f, s.servers[i].server, Only(s.servers[i].cacheList[k].listing.path), t), t)
  {
    var s', e := TouchState(s, i, k), s.servers[i].cacheList[k];
    var f' := Used(f, s.servers[i].server, Only(e.listing.path), t);
    TouchKeepsInv(s, i, k);
    MovedRises(s.lru, e.lru.GetOr(0), StampOf(s, f), t);
    MovedKeepsNodes(s.lru, e.lru.GetOr(0));
    forall n | n in s'.lru ensures StampAt(s, f', n) == Bumped(StampOf(s, f), HasId(e.lru.GetOr(0)), t)(n) {
      assert n in multiset(s'.lru);
      NodeIs(s, i, k, n);
    }
    hide Linked, ServerOf, Rising, Moved;
    RisingSame(s'.lru, Bumped(StampOf(s, f), HasId(e.lru.GetOr(0)), t), StampOf(s, f'), t);
    SameIdsSameServers(s, s');
    SeenFromNew(s, s', f', t);
  }

  lemma {:induction false} ConcernedIs(list: seq<CacheEntry>, edit: Edit, id: nat)
    ensures Concerned(list, edit, id) <==> exists k :: 0 <= k < |list| && edit.concerns(list[k].listing.path) && list[k].lru.GetOr(0) == id
  {
    if list != [] {
      ConcernedIs(list[1..], edit, id);
      if Concerned(list[1..], edit, id) {
        var k :| 0 <= k < |list[1..]| && edit.concerns(list[1..][k].listing.path) && list[1..][k].lru.GetOr(0) == id;
        assert list[k + 1] == list[1..][k];
      }
      if k :| 0 <= k < |list| && edit.concerns(list[k].listing.path) && list[k].lru.GetOr(0) == id {
        if k > 0 {
          assert list[1..][k - 1] == list[k];
        }
      }
    }
  }

  /** The nodes of the entries an edit concerns are those on its server whose paths it concerns. */
  lemma ConcernedNodes(s: State, i: nat, edit: Edit, n: Node)
    requires Linked(s) && i < |s.servers| && n in s.lru
    ensures Concerned(s.servers[i].cacheList, edit, n.id) <==>
      ServerOf(s, n.serverId) == Some(s.servers[i].server) && edit.concerns(n.path)
  {
    var list := s.servers[i].cacheList;
    ConcernedIs(list, edit, n.id);
    if Concerned(list, edit, n.id) {
      var k :| 0 <= k < |list| && edit.concerns(list[k].listing.path) && list[k].lru.GetOr(0) == n.id;
      NodeIs(s, i, k, n);
    }
    if ServerOf(s, n.serverId) == Some(s.servers[i].server) && edit.concerns(n.path) {
      var a :| 0 <= a < |s.lru| && s.lru[a] == n;
      var j, m := NodeHasEntry(s, a);
      NodeIs(s, j, m, n);
      FindsServer(s.servers, i);
      FindsServer(s.servers, j);
      assert i == j && list[m].lru.GetOr(0) == n.id && list[m].listing.path == n.path;
    }
  }

  lemma EditOrders(s: State, i: nat, edit: Edit, touch: bool, now: int, f: Stamp, t: nat)
    requires Linked(s) && Ordered(s, f, t) && i < |s.servers| && KeepsPaths(edit)
    ensures
      var s' := EditState(s, i, edit, touch, now);
      if touch then Ordered(s', Used(f, s.servers[i].server, edit.concerns, t), t) else Ordered(s', f, t)
  {
    var s', list := EditState(s, i, edit, touch, now), s.servers[i].cacheList;
    var f' := if touch then Used(f, s.servers[i].server, edit.concerns, t) else f;
    EditKeepsInv(s, i, edit, touch, now);
    SameIdsSameServers(s, s');
    if touch {
      TouchedRises(s.lru, list, edit, StampOf(s, f), t);
      TouchedKeeps(s.lru, list, edit);
      forall n | n in s'.lru ensures StampAt(s, f', n) == Bumped(StampOf(s, f), AreConcerned(list, edit), t)(n) {
        assert n in multiset(s'.lru);
        ConcernedNodes(s, i, edit, n);
      }
      hide Linked, ServerOf, Rising, Touched, EditState, KeepsPaths;
      RisingSame(s'.lru, Bumped(StampOf(s, f), AreConcerned(list, edit), t), StampOf(s, f'), t);
    }
    hide Linked, ServerOf, Rising, Touched, EditState, KeepsPaths;
    SeenFromNew(s, s', f', t);
  }

  lemma EraseOrders(s: State, i: nat, goes: ServerPath -> bool, f: Stamp, t: nat)
    requires Linked(s) && Ordered(s, f, t) && i < |s.servers|
    ensures Ordered(EraseState(s, i, goes), f, t)
  {
    var s' := EraseState(s, i, goes);
    EraseKeepsInv(s, i, goes);
    SameIdsSameServers(s, s');
    UnlinkedAllRises(s.lru, Selected(s.servers[i].cacheList, goes, true), StampOf(s, f), t);
    hide Linked, ServerOf, Rising;
    SeenFromNew(s, s', f, t);
  }

  lemma FewerServers(s: State, s': State)
    requires Linked(s) && forall j :: 0 <= j < |s'.servers| ==> exists i :: 0 <= i < |s.servers| && s.servers[i].id == s'.servers[j].id && s.servers[i].server == s'.servers[j].server
    ensures SameServers(s, s')
  {
    forall id | ServerOf(s', id).Some? ensures ServerOf(s', id) == ServerOf(s, id) {
      var j := IdIndex(s'.servers, id);
      var i :| 0 <= i < |s.servers| && s.servers[i].id == s'.servers[j].id && s.servers[i].server == s'.servers[j].server;
      FindsServer(s.servers, i);
    }
  }

  lemma DropOrders(s: State, i: nat, f: Stamp, t: nat)
    requires Linked(s) && Ordered(s, f, t) && i < |s.servers| && s.servers[i].cacheList == []
    ensures Ordered(DropState(s, i), f, t)
  {
    var s' := DropState(s, i);
    DropKeepsInv(s, i);
    forall j | 0 <= j < |s'.servers|
      ensures exists m :: 0 <= m < |s.servers| && s.servers[m].id == s'.servers[j].id && s.servers[m].server == s'.servers[j].server
    {
      assert s'.servers[j] == s.servers[if j < i then j else j + 1];
    }
    FewerServers(s, s');
    hide Linked, ServerOf, Rising;
    SeenFromNew(s, s', f, t);
  }

  lemma ReplaceOrders(s: State, i: nat, k: nat, listing: Listing, time: int, f: Stamp, t: nat)
    requires Linked(s) && Ordered(s, f, t) && i < |s.servers| && k < |s.servers[i].cacheList|
    requires listing.path == s.servers[i].cacheList[k].listing.path
    ensures Ordered(ReplaceState(s, i, k, listing, time), f, t)
  {
    var s' := ReplaceState(s, i, k, listing, time);
    ReplaceKeepsInv(s, i, k, listing, time);
    SameIdsSameServers(s, s');
    ReplaceKeepsLru(s, i, k, listing, time);
    hide Linked, ServerOf, Rising, ReplaceState;
    SeenFromNew(s, s', f, t);
  }

  lemma RestRises(lru: seq<Node>, g: Node -> nat, t: nat)
    requires Rising(lru, g, t) && lru != []
    ensures Rising(lru[1..], g, t)
  {
  }

  lemma EvictKeepsServersOf(s: State, id: nat)
    requires Linked(s) && s.lru != [] && ServerOf(EvictState(s), id).Some?
    ensures ServerOf(EvictState(s), id) == ServerOf(s, id)
  {
    EvictKeepsServers(s, id);
    hide Linked, EvictState, IdIndex;
  }

  lemma EvictOrders(s: State, f: Stamp, t: nat)
    requires Linked(s) && Ordered(s, f, t) && s.lru != []
    ensures Ordered(EvictState(s), f, t)
  {
    var s' := EvictState(s);
    hide Linked, ServerOf, Rising, EvictState, Surplus;
    EvictKeepsInv(s);
    forall id | ServerOf(s', id).Some? ensures ServerOf(s', id) == ServerOf(s, id) {
      EvictKeepsServersOf(s, id);
    }
    RestRises(s.lru, StampOf(s, f), t);
    SeenFromNew(s, s', f, t);
  }

  lemma {:induction false} PruneOrders(s: State, f: Stamp, t: nat)
    requires Linked(s) && Ordered(s, f, t)
    ensures Ordered(PruneState(s), f, t)
    decreases |s.lru|
  {
    if TooBig(s) {
      PruneUnfolds(s);
      EvictOrders(s, f, t);
      hide Linked, Ordered, EvictState, PruneState;
      PruneOrders(EvictState(s), f, t);
    }
  }

  lemma CreateOrders(s: State, server: Server, f: Stamp, t: nat)
    requires Linked(s) && Ordered(s, f, t)
    ensures Ordered(CreateState(s, server), f, t)
  {
    var s' := CreateState(s, server);
    assert s'.lru == s.lru;
    forall n | n in s.lru ensures StampAt(s', f, n) == StampAt(s, f, n) {
      NodesHaveServers(s, n);
      var i := IdIndex(s.servers, n.serverId);
      CreateKeepsInv(s, server);
      assert s'.servers[i] == s.servers[i];
      FindsServer(s'.servers, i);
    }
    hide Linked, ServerOf;
    RisingSame(s.lru, StampOf(s, f), StampOf(s', f), t);
  }

  lemma OneMoreRises(lru: seq<Node>, node: Node, g: Node -> nat, t: nat)
    requires Rising(lru, g, t) && g(node) == t
    ensures Rising(lru + [node], g, t)
  {
  }

  lemma InsertOrders(s: State, i: nat, listing: Listing, now: int, f: Stamp, t: nat)
    requires Linked(s) && Ordered(s, f, t) && i < |s.servers| && IsNew(s.servers[i].cacheList, listing.path)
    ensures Ordered(InsertState(s, i, listing, now), Used(f, s.servers[i].server, Only(listing.path), t), t)
  {
    var s', f' := InsertState(s, i, listing, now), Used(f, s.servers[i].server, Only(listing.path), t);
    var node := Node(s.nextId, s.servers[i].id, listing.path);
    SameIdsSameServers(s, s');
    FindsServer(s.servers, i);
    assert StampAt(s, f', node) == t;
    hide Linked, ServerOf, InsertState, Rising, IsNew, Hits, ServersOk, IdIndex;
    InsertAddsNode(s, i, listing, now);
    InsertKeepsInv(s, i, listing, now);
    NewIsNoHit(s.servers[i].cacheList, listing.path);
    forall n | n in s.lru ensures StampAt(s, f', n) == StampAt(s, f, n) {
      NewPathHasNoNode(s, i, listing.path, n);
    }
    RisingSame(s.lru, StampOf(s, f), StampOf(s, f'), t);
    OneMoreRises(s.lru, node, StampOf(s, f'), t);
    SeenFromNew(s, s', f', t);
  }

  lemma NewPathHasNoNode(s: State, i: nat, path: ServerPath, n: Node)
    requires Linked(s) && i < |s.servers| && !Hits(s.servers[i].cacheList, path) && n in s.lru
    ensures !(ServerOf(s, n.serverId) == Some(s.servers[i].server) && n.path == path)
  {
    var a :| 0 <= a < |s.lru| && s.lru[a] == n;
    var j, m := NodeHasEntry(s, a);
    FindsServer(s.servers, i);
    FindsServer(s.servers, j);
    assert ListOk(s.servers[j].cacheList);
    FindsEntry(s.servers[j].cacheList, m);
  }

  // ---- The operations ----

  function Nowhere(): ServerPath -> bool {
    (_: ServerPath) => false
  }

  /** The listings of a directory, in whatever case. */
  function SameDir(path: ServerPath, lower: Folding): ServerPath -> bool {
    (p: ServerPath) => EqualNoCase(path, p, lower)
  }

  function LooksLike(path: ServerPath): ServerPath -> bool {
    (p: ServerPath) => Alike(p, path)
  }

  /** Nothing that is cached is used. */
  lemma NothingUsed(s: State, f: Stamp, server: Server, paths: ServerPath -> bool, t: nat)
    requires Ordered(s, f, t)
    requires forall n :: n in s.lru && ServerOf(s, n.serverId) == Some(server) ==> !paths(n.path)
    ensures Ordered(s, Used(f, server, paths, t), t)
  {
    hide ServerOf;
    OrderedSame(s, f, Used(f, server, paths, t), t);
  }

  lemma UsedNowhere(s: State, f: Stamp, server: Server, t: nat)
    requires Ordered(s, f, t)
    ensures Ordered(s, Used(f, server, Nowhere(), t), t)
  {
    hide ServerOf;
    NothingUsed(s, f, server, Nowhere(), t);
  }

  /** The same listings, as far as they are cached. */
  lemma UsedSame(s: State, f: Stamp, server: Server, a: ServerPath -> bool, b: ServerPath -> bool, t: nat)
    requires Ordered(s, Used(f, server, a, t), t)
    requires forall n :: n in s.lru && ServerOf(s, n.serverId) == Some(server) ==> (a(n.path) <==> b(n.path))
    ensures Ordered(s, Used(f, server, b, t), t)
  {
    hide ServerOf;
    OrderedSame(s, Used(f, server, a, t), Used(f, server, b, t), t);
  }

  lemma MissingServerHasNoNode(s: State, server: Server, n: Node)
    requires ServerIndex(s.servers, server) == |s.servers|
    ensures ServerOf(s, n.serverId) != Some(server)
  {
  }

  /** A cached node is for a listing that a lookup finds. */
  lemma NodeIsFound(s: State, n: Node)
    requires Linked(s) && n in s.lru && ServerOf(s, n.serverId).Some?
    ensures ListingAt(s, ServerOf(s, n.serverId).value, n.path).Some?
  {
    var a :| 0 <= a < |s.lru| && s.lru[a] == n;
    var j, m := NodeHasEntry(s, a);
    FindsServer(s.servers, j);
    assert ListOk(s.servers[j].cacheList);
    FindsEntry(s.servers[j].cacheList, m);
  }

  lemma EditServerOrders(s: State, server: Server, edit: Edit, now: int, f: Stamp, t: nat)
    requires Linked(s) && Ordered(s, f, t) && KeepsPaths(edit)
    ensures Ordered(EditServer(s, server, edit, true, now), Used(f, server, edit.concerns, t), t)
  {
    var i := ServerIndex(s.servers, server);
    hide Linked, Ordered, KeepsPaths, EditState, ServerOf;
    if i < |s.servers| {
      EditOrders(s, i, edit, true, now, f, t);
    } else {
      forall n | n in s.lru ensures ServerOf(s, n.serverId) != Some(server) {
        MissingServerHasNoNode(s, server, n);
      }
      NothingUsed(s, f, server, edit.concerns, t);
    }
  }

  lemma EraseServerOrders(s: State, server: Server, goes: ServerPath -> bool, f: Stamp, t: nat)
    requires Linked(s) && Ordered(s, f, t)
    ensures Ordered(EraseServer(s, server, goes), f, t)
  {
    var i := ServerIndex(s.servers, server);
    hide Linked, Ordered, EraseState;
    if i < |s.servers| {
      EraseOrders(s, i, goes, f, t);
    }
  }

  lemma InvalidateServerOrders(s: State, server: Server, f: Stamp, t: nat)
    requires Linked(s) && Ordered(s, f, t)
    ensures Ordered(InvalidateServerState(s, server), f, t)
  {
    var i := ServerIndex(s.servers, server);
    if i < |s.servers| {
      var goes := (_: ServerPath) => true;
      var s1 := EraseState(s, i, goes);
      assert s1.servers[i].cacheList == [] by {
        NothingSelected(s.servers[i].cacheList);
      }
      EraseKeepsInv(s, i, goes);
      assert Linked(s1);
      hide Linked, Ordered, EraseState, DropState, Surplus;
      EraseOrders(s, i, goes, f, t);
      DropOrders(s1, i, f, t);
    }
  }

  lemma LookupOrders(s: State, server: Server, path: ServerPath, f: Stamp, t: nat)
    requires Linked(s) && Ordered(s, f, t)
    ensures Ordered(LookupState(s, server, path), Used(f, server, Only(path), t), t)
  {
    var i := ServerIndex(s.servers, server);
    if i < |s.servers| && Hits(s.servers[i].cacheList, path) {
      hide Linked, Ordered, TouchState;
      TouchOrders(s, i, LowerBound(s.servers[i].cacheList, path), f, t);
    } else {
      assert ListingAt(s, server, path).None?;
      hide Linked, Ordered, ListingAt, ServerOf, Hits;
      forall n | n in s.lru && ServerOf(s, n.serverId) == Some(server) ensures n.path != path {
        NodeIsFound(s, n);
      }
      NothingUsed(s, f, server, Only(path), t);
    }
  }

  lemma PutOrders(s: State, server: Server, path: ServerPath, listing: Listing, f: Stamp, t: nat)
    requires Linked(s) && Ordered(s, f, t) && listing.path == path
    ensures Ordered(PutListing(s, server, path, listing), f, t)
  {
    var i := ServerIndex(s.servers, server);
    hide Linked, Ordered, ReplaceState;
    if i < |s.servers| && Hits(s.servers[i].cacheList, path) {
      var k := LowerBound(s.servers[i].cacheList, path);
      ReplaceOrders(s, i, k, listing, s.servers[i].cacheList[k].modificationTime, f, t);
    }
  }

  lemma EditsKeepPaths(path: ServerPath, name: string, cmpCase: bool, mayCreate: bool, typ: FileType, size: int,
                       ownerGroup: string, lower: Folding)
    ensures KeepsPaths(InvalidateFileEdit(path, name, cmpCase, lower)) && KeepsPaths(InvalidateBelowEdit(path, cmpCase, lower))
    ensures KeepsPaths(UpdateFileEdit(path, name, mayCreate, typ, size, ownerGroup, lower))
    ensures KeepsPaths(RemoveFileEdit(path, name, lower))
  {
    EditsAreFaithful(path, name, cmpCase, mayCreate, typ, size, ownerGroup, lower);
    hide FaithfulEdit, KeepsPaths;
    FaithfulEditKeepsPaths(InvalidateFileEdit(path, name, cmpCase, lower), lower);
    FaithfulEditKeepsPaths(InvalidateBelowEdit(path, cmpCase, lower), lower);
    FaithfulEditKeepsPaths(UpdateFileEdit(path, name, mayCreate, typ, size, ownerGroup, lower), lower);
    FaithfulEditKeepsPaths(RemoveFileEdit(path, name, lower), lower);
  }

  lemma UpdateFileOrders(s: State, server: Server, path: ServerPath, name: string, mayCreate: bool, typ: FileType,
                         size: int, ownerGroup: string, now: int, lower: Folding, f: Stamp, t: nat)
    requires Linked(s) && Ordered(s, f, t)
    ensures Ordered(UpdateFileState(s, server, path, name, mayCreate, typ, size, ownerGroup, now, lower),
                    Used(f, server, SameDir(path, lower), t), t)
  {
    var edit, s' := UpdateFileEdit(path, name, mayCreate, typ, size, ownerGroup, lower),
      UpdateFileState(s, server, path, name, mayCreate, typ, size, ownerGroup, now, lower);
    EditsKeepPaths(path, name, true, mayCreate, typ, size, ownerGroup, lower);
    EditServerOrders(s, server, edit, now, f, t);
    assert forall p :: edit.concerns(p) <==> SameDir(path, lower)(p);
    hide Linked, Ordered, ServerOf, EditServer, UpdateFileState, KeepsPaths, UpdateFileEdit, SameDir;
    assert s' == EditServer(s, server, edit, true, now) by {
      UpdateFileIs(s, server, path, name, mayCreate, typ, size, ownerGroup, now, lower);
    }
    UsedSame(s', f, server, edit.concerns, SameDir(path, lower), t);
  }

  lemma UpdateFileIs(s: State, server: Server, path: ServerPath, name: string, mayCreate: bool, typ: FileType,
                     size: int, ownerGroup: string, now: int, lower: Folding)
    ensures UpdateFileState(s, server, path, name, mayCreate, typ, size, ownerGroup, now, lower) ==
      EditServer(s, server, UpdateFileEdit(path, name, mayCreate, typ, size, ownerGroup, lower), true, now)
  {
    hide EditServer, UpdateFileEdit;
  }

  lemma RemoveFileOrders(s: State, server: Server, path: ServerPath, name: string, now: int, lower: Folding, f: Stamp, t: nat)
    requires Linked(s) && Ordered(s, f, t)
    ensures Ordered(RemoveFileState(s, server, path, name, now, lower), Used(f, server, SameDir(path, lower), t), t)
  {
    var edit, s' := RemoveFileEdit(path, name, lower), RemoveFileState(s, server, path, name, now, lower);
    EditsKeepPaths(path, name, true, true, UnknownType, 0, "", lower);
    EditServerOrders(s, server, edit, now, f, t);
    assert forall p :: edit.concerns(p) <==> SameDir(path, lower)(p);
    assert s' == EditServer(s, server, edit, true, now);
    hide Linked, Ordered, ServerOf, EditServer, RemoveFileState, KeepsPaths, RemoveFileEdit, SameDir;
    UsedSame(s', f, server, edit.concerns, SameDir(path, lower), t);
  }

  lemma InvalidateFileOrders(s: State, server: Server, path: ServerPath, name: string, cmpCase: bool, now: int,
                             lower: Folding, f: Stamp, t: nat)
    requires Linked(s) && Ordered(s, f, t)
    ensures Ordered(InvalidateFileState(s, server, path, name, cmpCase, now, lower),
                    Used(f, server, InvalidateFileEdit(path, name, cmpCase, lower).concerns, t), t)
  {
    var i := ServerIndex(s.servers, server);
    var edit, below := InvalidateFileEdit(path, name, cmpCase, lower), InvalidateBelowEdit(path, cmpCase, lower);
    EditsKeepPaths(path, name, cmpCase, true, UnknownType, 0, "", lower);
    EditServerOrders(s, server, edit, now, f, t);
    hide Ordered, KeepsPaths, FoundDir, CanEnter, EqualNoCase, InvalidatedFile, Used;
    if i < |s.servers| {
      var s1 := EditState(s, i, edit, true, now);
      EditKeepsInv(s, i, edit, true, now);
      assert i < |s1.servers|;
      hide Linked, EditState, Surplus;
      EditOrders(s1, i, below, false, now, Used(f, server, edit.concerns, t), t);
    }
  }

  lemma RemoveDirOrders(s: State, server: Server, path: ServerPath, name: string, now: int, lower: Folding, f: Stamp, t: nat)
    requires Linked(s) && Ordered(s, f, t)
    ensures Ordered(RemoveDirState(s, server, path, name, now, lower), Used(f, server, SameDir(path, lower), t), t)
  {
    var goes := GoesWithDir(path, name, lower);
    EraseServerIsGood(s, server, goes, lower);
    assert Linked(EraseServer(s, server, goes));
    hide Linked, Ordered, EraseServer, RemoveFileState, Surplus, Derived, Used, SameDir;
    EraseServerOrders(s, server, goes, f, t);
    RemoveFileOrders(EraseServer(s, server, goes), server, path, name, now, lower, f, t);
  }

  lemma RenameHereOrders(s: State, server: Server, path: ServerPath, from: string, to: string, now: int, lower: Folding,
                         f: Stamp, t: nat)
    requires Linked(s) && Ordered(s, Used(f, server, SameDir(path, lower), t), t)
    ensures Ordered(RenameHere(s, server, path, from, to, now, lower), Used(f, server, SameDir(path, lower), t), t)
  {
    var l, r, here := ListingAt(s, server, path), RenameHere(s, server, path, from, to, now, lower), SameDir(path, lower);
    var g := Used(f, server, here, t);
    assert l.Some? ==> l.value.path == path;
    hide Linked, Ordered, Derived, Surplus, RemoveDirState, UpdateFileState, PutListing, ListingAt, Faithful, Used, SameDir;
    if l.Some? {
      var i := FirstNamed(l.value.entries, from);
      if i < |l.value.entries| {
        if l.value.entries[i].isDir {
          var s1 := RemoveDirState(s, server, path, from, now, lower);
          RemoveDirIsGood(s, server, path, from, now, lower);
          RemoveDirOrders(s, server, path, from, now, lower, g, t);
          UsedAgain(s1, f, server, here, t);
          var s2 := RemoveDirState(s1, server, path, to, now, lower);
          RemoveDirIsGood(s1, server, path, to, now, lower);
          RemoveDirOrders(s1, server, path, to, now, lower, g, t);
          UsedAgain(s2, f, server, here, t);
          UpdateFileOrders(s2, server, path, to, true, DirEntry, -1, "", now, lower, g, t);
          UsedAgain(r, f, server, here, t);
        } else {
          assert RenamedFile(l.value, i, to).path == path;
          PutOrders(s, server, path, RenamedFile(l.value, i, to), g, t);
        }
      }
    }
  }

  /** Using the same listings again, by the same call. */
  lemma UsedAgain(s: State, f: Stamp, server: Server, paths: ServerPath -> bool, t: nat)
    requires Ordered(s, Used(Used(f, server, paths, t), server, paths, t), t)
    ensures Ordered(s, Used(f, server, paths, t), t)
  {
    OrderedSame(s, Used(Used(f, server, paths, t), server, paths, t), Used(f, server, paths, t), t);
  }

  /** Whether the file is known where it is renamed from. */
  predicate KnowsFile(s: State, server: Server, path: ServerPath, name: string) {
    var l := ListingAt(s, server, path);
    l.Some? && FirstNamed(l.value.entries, name) < |l.value.entries|
  }

  lemma RenameAwayOrders(s: State, server: Server, pathFrom: ServerPath, from: string, pathTo: ServerPath, to: string,
                         now: int, lower: Folding, f: Stamp, t: nat)
    requires Linked(s) && Ordered(s, f, t)
    ensures
      var r := RenameAway(s, server, pathFrom, from, pathTo, to, now, lower);
      if KnowsFile(s, server, pathFrom, from)
      then Ordered(r, Used(f, server, Either(SameDir(pathFrom, lower), SameDir(pathTo, lower)), t), t)
      else Ordered(r, f, t)
  {
    var l, r := ListingAt(s, server, pathFrom), RenameAway(s, server, pathFrom, from, pathTo, to, now, lower);
    hide Linked, Ordered, Derived, Surplus, RemoveDirState, RemoveFileState, UpdateFileState, ListingAt, Used, SameDir, Either;
    if KnowsFile(s, server, pathFrom, from) {
      var isDir := l.value.entries[FirstNamed(l.value.entries, from)].isDir;
      var s1 := if isDir then RemoveDirState(s, server, pathFrom, from, now, lower) else RemoveFileState(s, server, pathFrom, from, now, lower);
      if isDir {
        RemoveDirIsGood(s, server, pathFrom, from, now, lower);
        RemoveDirOrders(s, server, pathFrom, from, now, lower, f, t);
      } else {
        RemoveFileIsGood(s, server, pathFrom, from, now, lower);
        RemoveFileOrders(s, server, pathFrom, from, now, lower, f, t);
      }
      UpdateFileOrders(s1, server, pathTo, to, true, if isDir then DirEntry else FileEntry, -1, "", now, lower,
                       Used(f, server, SameDir(pathFrom, lower), t), t);
      UsedTwice(r, f, server, SameDir(pathFrom, lower), SameDir(pathTo, lower), t);
    }
  }

  /** Which listings a rename uses. */
  function RenameUses(s: State, server: Server, pathFrom: ServerPath, from: string, pathTo: ServerPath, lower: Folding): ServerPath -> bool {
    if ListingAt(s, server, pathFrom).None? then Nowhere()
    else if pathFrom == pathTo then Either(Only(pathFrom), SameDir(pathFrom, lower))
    else if !KnowsFile(s, server, pathFrom, from) then Only(pathFrom)
    else Either(Only(pathFrom), Either(SameDir(pathFrom, lower), SameDir(pathTo, lower)))
  }

  lemma RenameOrders(s: State, server: Server, pathFrom: ServerPath, from: string, pathTo: ServerPath, to: string,
                     now: int, lower: Folding, f: Stamp, t: nat)
    requires Linked(s) && Ordered(s, f, t)
    ensures Ordered(RenameState(s, server, pathFrom, from, pathTo, to, now, lower),
                    Used(f, server, RenameUses(s, server, pathFrom, from, pathTo, lower), t), t)
  {
    var r := RenameState(s, server, pathFrom, from, pathTo, to, now, lower);
    hide Linked, Ordered, Derived, Surplus, InvalidateServerState, LookupState, RemoveFileState, RenameHere, RenameAway, ListingAt;
    hide Used, SameDir, Either, Only, Nowhere;
    if ListingAt(s, server, pathFrom).None? {
      InvalidateServerIsGood(s, server, lower);
      InvalidateServerOrders(s, server, f, t);
      UsedNowhere(r, f, server, t);
    } else {
      var s1 := LookupState(s, server, pathFrom);
      var g := Used(f, server, Only(pathFrom), t);
      LookupIsGood(s, server, pathFrom, lower);
      LookupOrders(s, server, pathFrom, f, t);
      assert KnowsFile(s1, server, pathFrom, from) <==> KnowsFile(s, server, pathFrom, from);
      if pathFrom == pathTo {
        RemoveFileIsGood(s1, server, pathFrom, to, now, lower);
        RemoveFileOrders(s1, server, pathFrom, to, now, lower, g, t);
        RenameHereOrders(RemoveFileState(s1, server, pathFrom, to, now, lower), server, pathFrom, from, to, now, lower, g, t);
        UsedTwice(r, f, server, Only(pathFrom), SameDir(pathFrom, lower), t);
      } else {
        RenameAwayOrders(s1, server, pathFrom, from, pathTo, to, now, lower, g, t);
        if KnowsFile(s, server, pathFrom, from) {
          UsedTwice(r, f, server, Only(pathFrom), Either(SameDir(pathFrom, lower), SameDir(pathTo, lower)), t);
        }
      }
    }
  }

  lemma UpdateOwnerGroupOrders(s: State, server: Server, path: ServerPath, name: string, ownerGroup: string, lower: Folding, f: Stamp, t: nat)
    requires Linked(s) && Ordered(s, f, t)
    ensures Ordered(UpdateOwnerGroupState(s, server, path, name, ownerGroup),
                    Used(f, server, if ListingAt(s, server, path).None? then Nowhere() else Only(path), t), t)
  {
    var l, r := ListingAt(s, server, path), UpdateOwnerGroupState(s, server, path, name, ownerGroup);
    assert l.Some? ==> l.value.path == path;
    hide Linked, Ordered, Derived, Surplus, InvalidateServerState, LookupState, PutListing, ListingAt, Used, Only, Nowhere;
    if l.None? {
      InvalidateServerIsGood(s, server, lower);
      InvalidateServerOrders(s, server, f, t);
      UsedNowhere(r, f, server, t);
    } else {
      var s1 := LookupState(s, server, path);
      var i := FirstNamed(l.value.entries, name);
      var g := Used(f, server, Only(path), t);
      LookupIsGood(s, server, path, lower);
      LookupOrders(s, server, path, f, t);
      if i == |l.value.entries| {
        InvalidateServerOrders(s1, server, g, t);
      } else if !l.value.entries[i].isDir {
        assert ReownedFile(l.value, i, ownerGroup).path == path;
        PutOrders(s1, server, path, ReownedFile(l.value, i, ownerGroup), g, t);
      }
    }
  }

  /** Whether a lookup of a file fills name maps that are right. */
  ghost predicate Fills(s: State, server: Server, path: ServerPath, byCase: Option<Index>, byNoCase: Option<Index>, lower: Folding) {
    var l := ListingAt(s, server, path);
    l.Some? && Indexed(l.value.(byCase := byCase, byNoCase := byNoCase), lower)
  }

  lemma FillMapsOrders(s: State, server: Server, path: ServerPath, byCase: Option<Index>, byNoCase: Option<Index>, lower: Folding,
                       f: Stamp, t: nat)
    requires Linked(s) && Ordered(s, f, t)
    ensures Ordered(FillMaps(s, server, path, byCase, byNoCase, lower),
                    Used(f, server, if Fills(s, server, path, byCase, byNoCase, lower) then Only(path) else Nowhere(), t), t)
  {
    var l := ListingAt(s, server, path);
    assert l.Some? ==> l.value.path == path;
    hide Linked, Ordered, Derived, Surplus, LookupState, PutListing, ListingAt, Indexed, Used, Only, Nowhere;
    if Fills(s, server, path, byCase, byNoCase, lower) {
      LookupIsGood(s, server, path, lower);
      LookupOrders(s, server, path, f, t);
      PutOrders(LookupState(s, server, path), server, path, l.value.(byCase := byCase, byNoCase := byNoCase), Used(f, server, Only(path), t), t);
    } else {
      UsedNowhere(s, f, server, t);
    }
  }

  // ---- Storing ----

  /** The state before the pruning that a store ends with, if any. */
  function StoreMid(s: State, i: nat, listing: Listing, now: int): State
    requires i < |s.servers|
  {
    var list := s.servers[i].cacheList;
    var k := LowerBound(list, listing.path);
    if Hits(list, listing.path) then ReplaceState(TouchState(s, i, k), i, k, listing, now)
    else if IsNew(list, listing.path) then InsertState(s, i, listing, now)
    else TouchState(s, i, k).(total := s.total + |listing.entries|)
  }

  lemma StoreMidIs(s: State, i: nat, listing: Listing, now: int)
    requires Linked(s) && i < |s.servers|
    ensures
      var mid := StoreMid(s, i, listing, now);
      && Linked(mid)
      && StoreAt(s, i, listing, now) == if Hits(s.servers[i].cacheList, listing.path) then mid else PruneState(mid)
  {
    var list := s.servers[i].cacheList;
    var k := LowerBound(list, listing.path);
    hide Linked, Surplus, StoreAt, PruneState, TooBig;
    if Hits(list, listing.path) {
      StoreHit(s, i, listing, now);
      hide ReplaceState, TouchState;
      ReplaceKeepsInv(TouchState(s, i, k), i, k, listing, now);
    } else if IsNew(list, listing.path) {
      StoreNew(s, i, listing, now);
    } else {
      StoreAmbiguous(s, i, listing, now);
    }
  }

  /** A cached path that looks like the one stored is that of the entry at the lower bound. */
  lemma LookalikeIs(s: State, i: nat, path: ServerPath, n: Node)
    requires Linked(s) && i < |s.servers| && n in s.lru
    requires ServerOf(s, n.serverId) == Some(s.servers[i].server) && Alike(n.path, path)
    ensures
      var list := s.servers[i].cacheList;
      LowerBound(list, path) < |list| && list[LowerBound(list, path)].listing.path == n.path && !IsNew(list, path)
  {
    var a :| 0 <= a < |s.lru| && s.lru[a] == n;
    var j, m := NodeHasEntry(s, a);
    FindsServer(s.servers, i);
    FindsServer(s.servers, j);
    assert i == j && ListOk(s.servers[i].cacheList);
    AlikeEntryIsLowerBound(s.servers[i].cacheList, m, path);
  }

  lemma BoundLooksLike(list: seq<CacheEntry>, path: ServerPath)
    requires !IsNew(list, path)
    ensures LowerBound(list, path) < |list| && Alike(list[LowerBound(list, path)].listing.path, path)
  {
    var k := LowerBound(list, path);
    PathOrder(list[k].listing.path, path, path);
    PathOrder(path, list[k].listing.path, path);
    hide PathLess, Alike;
  }

  lemma TouchBringsNoNode(s: State, i: nat, k: nat, n: Node)
    requires i < |s.servers| && k < |s.servers[i].cacheList| && n in TouchState(s, i, k).lru
    ensures n in s.lru && ServerOf(TouchState(s, i, k), n.serverId) == ServerOf(s, n.serverId)
  {
    MovedKeepsNodes(s.lru, s.servers[i].cacheList[k].lru.GetOr(0));
    assert n in multiset(TouchState(s, i, k).lru);
    assert n in multiset(s.lru);
    hide Moved;
  }

  /** Touching the entry at the lower bound uses all that looks like the path. */
  lemma TouchBoundOrders(s: State, i: nat, path: ServerPath, f: Stamp, t: nat)
    requires Linked(s) && Ordered(s, f, t) && i < |s.servers| && !IsNew(s.servers[i].cacheList, path)
    ensures Ordered(TouchState(s, i, LowerBound(s.servers[i].cacheList, path)), Used(f, s.servers[i].server, LooksLike(path), t), t)
  {
    var list := s.servers[i].cacheList;
    var k := LowerBound(list, path);
    var s', server, found := TouchState(s, i, k), s.servers[i].server, list[k].listing.path;
    BoundLooksLike(list, path);
    TouchOrders(s, i, k, f, t);
    hide Linked, Ordered, ServerOf, TouchState, Moved, Used, Alike;
    forall n | n in s'.lru && ServerOf(s', n.serverId) == Some(server)
      ensures Only(found)(n.path) <==> LooksLike(path)(n.path)
    {
      TouchBringsNoNode(s, i, k, n);
      if Alike(n.path, path) {
        LookalikeIs(s, i, path, n);
      }
    }
    UsedSame(s', f, server, Only(found), LooksLike(path), t);
  }

  lemma HitIsNotNew(list: seq<CacheEntry>, path: ServerPath)
    requires Hits(list, path)
    ensures !IsNew(list, path)
  {
    PathOrder(path, path, path);
    hide PathLess;
  }

  lemma InsertUsesLookalikes(s: State, i: nat, listing: Listing, now: int, f: Stamp, t: nat)
    requires Linked(s) && Ordered(s, f, t) && i < |s.servers| && IsNew(s.servers[i].cacheList, listing.path)
    ensures Ordered(InsertState(s, i, listing, now), Used(f, s.servers[i].server, LooksLike(listing.path), t), t)
  {
    var s', server := InsertState(s, i, listing, now), s.servers[i].server;
    InsertOrders(s, i, listing, now, f, t);
    InsertAddsNode(s, i, listing, now);
    SameIdsSameServers(s, s');
    NewIsNoHit(s.servers[i].cacheList, listing.path);
    assert Alike(listing.path, listing.path);
    hide Linked, Ordered, ServerOf, InsertState, Used, Alike, IsNew, Hits;
    forall n | n in s'.lru && ServerOf(s', n.serverId) == Some(server)
      ensures Only(listing.path)(n.path) <==> LooksLike(listing.path)(n.path)
    {
      if n in s.lru {
        if Alike(n.path, listing.path) {
          LookalikeIs(s, i, listing.path, n);
        }
      }
    }
    UsedSame(s', f, server, Only(listing.path), LooksLike(listing.path), t);
  }

  lemma TotalDoesNotMatter(s: State, total: int, f: Stamp, t: nat)
    requires Ordered(s, f, t)
    ensures Ordered(s.(total := total), f, t)
  {
    assert forall n :: StampAt(s.(total := total), f, n) == StampAt(s, f, n);
    hide StampAt;
    RisingSame(s.lru, StampOf(s, f), StampOf(s.(total := total), f), t);
  }

  lemma ReplacedMidOrders(s: State, i: nat, listing: Listing, now: int, f: Stamp, t: nat)
    requires Linked(s) && Ordered(s, f, t) && i < |s.servers| && Hits(s.servers[i].cacheList, listing.path)
    ensures
      var k := LowerBound(s.servers[i].cacheList, listing.path);
      Ordered(ReplaceState(TouchState(s, i, k), i, k, listing, now), Used(f, s.servers[i].server, LooksLike(listing.path), t), t)
  {
    var k := LowerBound(s.servers[i].cacheList, listing.path);
    HitIsNotNew(s.servers[i].cacheList, listing.path);
    TouchBoundOrders(s, i, listing.path, f, t);
    TouchKeepsInv(s, i, k);
    TouchKeepsTotal(s, i, k);
    hide Linked, Ordered, ReplaceState, TouchState, Used, Surplus, IsNew;
    ReplaceOrders(TouchState(s, i, k), i, k, listing, now, Used(f, s.servers[i].server, LooksLike(listing.path), t), t);
  }

  lemma StoreMidOrders(s: State, i: nat, listing: Listing, now: int, f: Stamp, t: nat)
    requires Linked(s) && Ordered(s, f, t) && i < |s.servers|
    ensures Ordered(StoreMid(s, i, listing, now), Used(f, s.servers[i].server, LooksLike(listing.path), t), t)
  {
    var list, g := s.servers[i].cacheList, Used(f, s.servers[i].server, LooksLike(listing.path), t);
    hide Linked, Ordered, InsertState, ReplaceState, TouchState, Used, Hits, IsNew, LowerBound;
    if Hits(list, listing.path) {
      HitIsNotNew(list, listing.path);
      ReplacedMidOrders(s, i, listing, now, f, t);
    } else if IsNew(list, listing.path) {
      InsertUsesLookalikes(s, i, listing, now, f, t);
    } else {
      TouchBoundOrders(s, i, listing.path, f, t);
      TotalDoesNotMatter(TouchState(s, i, LowerBound(list, listing.path)), s.total + |listing.entries|, g, t);
    }
  }

  lemma StoreOrders(s: State, server: Server, listing: Listing, now: int, f: Stamp, t: nat)
    requires Linked(s) && Ordered(s, f, t)
    ensures Ordered(StoreState(s, server, listing, now), Used(f, server, LooksLike(listing.path), t), t)
  {
    CreateKeepsInv(s, server);
    var s1 := CreateState(s, server);
    var i, g := ServerIndex(s1.servers, server), Used(f, server, LooksLike(listing.path), t);
    assert StoreState(s, server, listing, now) == StoreAt(s1, i, listing, now);
    hide Linked, Ordered, Surplus, StoreState, StoreAt, CreateState, StoreMid, PruneState, Used, Hits;
    CreateOrders(s, server, f, t);
    StoreMidIs(s1, i, listing, now);
    StoreMidOrders(s1, i, listing, now, f, t);
    PruneOrders(StoreMid(s1, i, listing, now), g, t);
  }

  // ---- Whole runs ----

  /** The listings that a call uses, as far as they are cached. */
  ghost function Uses(s: State, call: Call, lower: Folding): ServerPath -> bool {
    match call.op
    case Store(listing) => LooksLike(listing.path)
    case Lookup(path) => Only(path)
    case LookupFile(path, byCase, byNoCase) => if Fills(s, call.server, path, byCase, byNoCase, lower) then Only(path) else Nowhere()
    case InvalidateFile(path, name, cmpCase) => InvalidateFileEdit(path, name, cmpCase, lower).concerns
    case UpdateFile(path, name, mayCreate, typ, size, og) => SameDir(path, lower)
    case RemoveFile(path, name) => SameDir(path, lower)
    case RemoveDir(path, name) => SameDir(path, lower)
    case Rename(path, from, pathTo, to) => RenameUses(s, call.server, path, from, pathTo, lower)
    case UpdateOwnerGroup(path, name, og) => if ListingAt(s, call.server, path).None? then Nowhere() else Only(path)
    case InvalidateServer => Nowhere()
  }

  lemma StepOrders(s: State, call: Call, lower: Folding, f: Stamp, t: nat)
    requires Linked(s) && Ordered(s, f, t)
    ensures Ordered(Step(s, call, lower), Used(f, call.server, Uses(s, call, lower), t), t)
  {
    var server, now := call.server, call.now;
    hide Linked, Ordered, Used, StoreState, LookupState, FillMaps, InvalidateFileState, UpdateFileState, RemoveFileState;
    hide RemoveDirState, RenameState, UpdateOwnerGroupState, InvalidateServerState, Only, Nowhere, SameDir, LooksLike, RenameUses;
    hide InvalidateFileEdit, Fills, ListingAt, Surplus, Derived;
    match call.op
    case Store(listing) => StoreOrders(s, server, listing, now, f, t);
    case Lookup(path) => LookupOrders(s, server, path, f, t);
    case LookupFile(path, byCase, byNoCase) => FillMapsOrders(s, server, path, byCase, byNoCase, lower, f, t);
    case InvalidateFile(path, name, cmpCase) => InvalidateFileOrders(s, server, path, name, cmpCase, now, lower, f, t);
    case UpdateFile(path, name, mayCreate, typ, size, og) => UpdateFileOrders(s, server, path, name, mayCreate, typ, size, og, now, lower, f, t);
    case RemoveFile(path, name) => RemoveFileOrders(s, server, path, name, now, lower, f, t);
    case RemoveDir(path, name) => RemoveDirOrders(s, server, path, name, now, lower, f, t);
    case Rename(path, from, pathTo, to) => RenameOrders(s, server, path, from, pathTo, to, now, lower, f, t);
    case UpdateOwnerGroup(path, name, og) => UpdateOwnerGroupOrders(s, server, path, name, og, lower, f, t);
    case InvalidateServer =>
      InvalidateServerIsGood(s, server, lower);
      InvalidateServerOrders(s, server, f, t);
      UsedNowhere(InvalidateServerState(s, server), f, server, t);
  }

  /** The number of the last call that used the listing; 0 if there was none. */
  ghost function LastUse(calls: seq<Call>, lower: Folding, server: Server, path: ServerPath): nat {
    if calls == [] then 0
    else
      var before, last := calls[..|calls| - 1], calls[|calls| - 1];
      if last.server == server && Uses(Run(before, lower), last, lower)(path) then |calls|
      else LastUse(before, lower, server, path)
  }

  ghost function LastUses(calls: seq<Call>, lower: Folding): Stamp {
    (server, path) => LastUse(calls, lower, server, path)
  }

  lemma OrderedLater(s: State, f: Stamp, t: nat, later: nat)
    requires Ordered(s, f, t) && t <= later
    ensures Ordered(s, f, later)
  {
  }

  lemma {:induction false} RunIsOrdered(calls: seq<Call>, lower: Folding)
    ensures Ordered(Run(calls, lower), LastUses(calls, lower), |calls|)
  {
    if calls != [] {
      var before, last, t := calls[..|calls| - 1], calls[|calls| - 1], |calls|;
      var s, s' := Run(before, lower), Run(calls, lower);
      assert s' == Step(s, last, lower);
      var f, g := LastUses(before, lower), Used(LastUses(before, lower), last.server, Uses(s, last, lower), t);
      assert forall x, p :: LastUses(calls, lower)(x, p) == g(x, p);
      hide Linked, Run, Step, Uses, LastUse, LastUses, Used, ServerOf;
      RunIsOrdered(before, lower);
      hide Ordered;
      OrderedLater(s, f, |before|, t);
      StepOrders(s, last, lower, f, t);
      OrderedSame(s', g, LastUses(calls, lower), t);
    }
  }

  /**
   The LRU list is ordered by use: over every run, a listing whose node stands before that of another was last used
   no later than the other.
   */
  lemma LruIsByLastUse(calls: seq<Call>, lower: Folding, a: nat, b: nat)
    requires a < b < |Run(calls, lower).lru|
    ensures
      var s := Run(calls, lower);
      var x, y := ServerOf(s, s.lru[a].serverId), ServerOf(s, s.lru[b].serverId);
      && x.Some? && y.Some?
      && LastUse(calls, lower, x.value, s.lru[a].path) <= LastUse(calls, lower, y.value, s.lru[b].path) <= |calls|
  {
    var s := Run(calls, lower);
    hide Run, LastUse, Linked, ServerOf;
    NodesHaveServers(s, s.lru[a]);
    NodesHaveServers(s, s.lru[b]);
    RunIsOrdered(calls, lower);
    assert StampOf(s, LastUses(calls, lower))(s.lru[a]) <= StampOf(s, LastUses(calls, lower))(s.lru[b]);
  }

  // ---- What is evicted ----

  /** A cached listing has a node. */
  lemma ListingHasNode(s: State, server: Server, path: ServerPath) returns (n: Node)
    requires Linked(s) && ListingAt(s, server, path).Some?
    ensures n in s.lru && ServerOf(s, n.serverId) == Some(server) && n.path == path
  {
    var i := ServerIndex(s.servers, server);
    var k := LowerBound(s.servers[i].cacheList, path);
    n := NodeOf(s.servers[i].id, s.servers[i].cacheList[k]);
    EntryHasNode(s, i, k);
    FindsServer(s.servers, i);
  }

  lemma {:induction false} PruneKeepsServers(s: State)
    requires Linked(s)
    ensures SameServers(s, PruneState(s))
    decreases |s.lru|
  {
    if TooBig(s) {
      var s1 := EvictState(s);
      PruneUnfolds(s);
      forall id | ServerOf(s1, id).Some? ensures ServerOf(s1, id) == ServerOf(s, id) {
        EvictKeepsServersOf(s, id);
      }
      hide Linked, EvictState, PruneState, ServerOf;
      PruneKeepsServers(s1);
    }
  }

  /** Creating a server and storing take no node away before the pruning. */
  lemma MidKeepsNodes(s: State, i: nat, listing: Listing, now: int, n: Node)
    requires Linked(s) && i < |s.servers| && n in s.lru
    ensures n in StoreMid(s, i, listing, now).lru
    ensures ServerOf(StoreMid(s, i, listing, now), n.serverId) == ServerOf(s, n.serverId)
  {
    var list, mid := s.servers[i].cacheList, StoreMid(s, i, listing, now);
    var k := LowerBound(list, listing.path);
    SameIds(s.servers, mid.servers, n.serverId);
    if !IsNew(list, listing.path) {
      BoundLooksLike(list, listing.path);
      MovedKeepsNodes(s.lru, list[k].lru.GetOr(0));
      assert n in multiset(s.lru);
      assert n in multiset(TouchState(s, i, k).lru);
    } else {
      NewIsNoHit(list, listing.path);
    }
  }

  lemma CreateKeepsNodes(s: State, server: Server, n: Node)
    requires Linked(s) && n in s.lru
    ensures n in CreateState(s, server).lru && ServerOf(CreateState(s, server), n.serverId) == ServerOf(s, n.serverId)
  {
    NodesHaveServers(s, n);
    CreateKeepsInv(s, server);
    var i := IdIndex(s.servers, n.serverId);
    assert CreateState(s, server).servers[i] == s.servers[i];
    FindsServer(CreateState(s, server).servers, i);
  }

  /** Of two nodes of which pruning took only the first, that was the older one. */
  lemma PrunedIsOlder(lru: seq<Node>, lru': seq<Node>, n: Node, m: Node, g: Node -> nat, t: nat)
    requires IsPruned(lru, lru') && Rising(lru, g, t) && n in lru && n !in lru' && m in lru'
    ensures g(n) <= g(m)
  {
    var d := |lru| - |lru'|;
    var a :| 0 <= a < |lru| && lru[a] == n;
    var b :| 0 <= b < |lru'| && lru'[b] == m;
    assert lru[d + b] == m;
    assert forall c :: d <= c < |lru| ==> lru[c] == lru'[c - d];
  }

  lemma PrunedForgetsOlder(mid: State, f: Stamp, t: nat, x: Server, p: ServerPath, n: Node, y: Server, q: ServerPath)
    requires Linked(mid) && Ordered(mid, f, t) && Linked(PruneState(mid))
    requires n in mid.lru && ServerOf(mid, n.serverId) == Some(x) && n.path == p
    requires ListingAt(PruneState(mid), x, p).None? && ListingAt(PruneState(mid), y, q).Some?
    ensures f(x, p) <= f(y, q)
  {
    var s' := PruneState(mid);
    PruneEvictsPrefix(mid);
    PruneKeepsServers(mid);
    var m := ListingHasNode(s', y, q);
    hide Linked, PruneState, ListingAt, ServerOf, IsPruned;
    if n in s'.lru {
      NodesHaveServers(s', n);
      NodeIsFound(s', n);
    }
    PrunedIsOlder(mid.lru, s'.lru, n, m, StampOf(mid, f), t);
    assert StampAt(mid, f, n) == f(x, p) && StampAt(mid, f, m) == f(y, q);
  }

  /**
   What a store evicts was last used no later than anything that stays: for any listing cached before the last
   call, a store, and forgotten by it, and any listing cached afterwards.
   */
  lemma EvictedWasLeastRecentlyUsed(before: seq<Call>, last: Call, lower: Folding, x: Server, p: ServerPath, y: Server, q: ServerPath)
    requires last.op.Store?
    requires ListingAt(Run(before, lower), x, p).Some?
    requires ListingAt(Run(before + [last], lower), x, p).None? && ListingAt(Run(before + [last], lower), y, q).Some?
    ensures LastUse(before + [last], lower, x, p) <= LastUse(before + [last], lower, y, q)
  {
    var s, t := Run(before, lower), |before| + 1;
    var listing, f := last.op.listing, LastUses(before, lower);
    RunUnfolds(before, last, lower);
    StepOfStore(s, last, lower);
    LastUseOfStore(before, last, lower, x, p);
    LastUseOfStore(before, last, lower, y, q);
    RunIsOrdered(before, lower);
    OrderedLater(s, f, |before|, t);
    var n := ListingHasNode(s, x, p);
    hide Run, LastUse, LastUses, Step, Ordered;
    StoreForgetsOlder(s, last.server, listing, last.now, f, t, x, p, n, y, q);
  }

  lemma LastUseOfStore(before: seq<Call>, last: Call, lower: Folding, x: Server, p: ServerPath)
    requires last.op.Store?
    ensures LastUse(before + [last], lower, x, p) ==
      Used(LastUses(before, lower), last.server, LooksLike(last.op.listing.path), |before| + 1)(x, p)
  {
    assert (before + [last])[..|before|] == before;
    hide Run, Alike;
  }

  lemma StoreForgetsOlder(s: State, server: Server, listing: Listing, now: int, f: Stamp, t: nat,
                          x: Server, p: ServerPath, n: Node, y: Server, q: ServerPath)
    requires Linked(s) && Ordered(s, f, t) && n in s.lru && ServerOf(s, n.serverId) == Some(x) && n.path == p
    requires
      var s' := StoreState(s, server, listing, now);
      ListingAt(s', x, p).None? && ListingAt(s', y, q).Some?
    ensures var g := Used(f, server, LooksLike(listing.path), t); g(x, p) <= g(y, q)
  {
    CreateKeepsInv(s, server);
    StoreKeepsInv(s, server, listing, now);
    var s1 := CreateState(s, server);
    var i, g := ServerIndex(s1.servers, server), Used(f, server, LooksLike(listing.path), t);
    assert StoreState(s, server, listing, now) == StoreAt(s1, i, listing, now);
    hide Linked, Ordered, Surplus, StoreState, StoreAt, CreateState, StoreMid, PruneState, Used, ListingAt, ServerOf, Hits;
    CreateOrders(s, server, f, t);
    CreateKeepsNodes(s, server, n);
    StoreMidIs(s1, i, listing, now);
    StoreMidOrders(s1, i, listing, now, f, t);
    MidKeepsNodes(s1, i, listing, now, n);
    var mid := StoreMid(s1, i, listing, now);
    if Hits(s1.servers[i].cacheList, listing.path) {
      NodeIsFound(mid, n);
      assert false;
    }
    PrunedForgetsOlder(mid, g, t, x, p, n, y, q);
  }
}
