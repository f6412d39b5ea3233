/**
 The state of the directory cache and its bookkeeping (src/engine/directorycache.cpp): per-server lists ordered
 by path, a least-recently-used list pointing into them, back pointers, and a running count of cached files.
 */
module CacheState {
  import opened Options
  import opened ServerPaths
  import opened DirectoryListing

  /** Servers with the same content are the same value. */
  type Server = nat

  /** `lru` is the back pointer: the identity of the entry's node in the LRU list. */
  datatype CacheEntry = CacheEntry(listing: Listing, modificationTime: int, lru: Option<nat>)

  datatype ServerEntry = ServerEntry(id: nat, server: Server, cacheList: seq<CacheEntry>)

  /** A node of the LRU list: its own identity and the entry it points to. */
  datatype Node = Node(id: nat, serverId: nat, path: ServerPath)

  /** The least recently used node is the first.  `nextId` is above every identity in use. */
  datatype State = State(servers: seq<ServerEntry>, lru: seq<Node>, total: int, nextId: nat)

  const EMPTY := State([], [], 0, 0)

  // ---- Sums over the cache ----

  function NodeOf(serverId: nat, e: CacheEntry): Node {
    Node(e.lru.GetOr(0), serverId, e.listing.path)
  }

  function Nodes(serverId: nat, list: seq<CacheEntry>): seq<Node> {
    if list == [] then [] else [NodeOf(serverId, list[0])] + Nodes(serverId, list[1..])
  }

  function AllNodes(servers: seq<ServerEntry>): seq<Node> {
    if servers == [] then [] else Nodes(servers[0].id, servers[0].cacheList) + AllNodes(servers[1..])
  }

  function Size(list: seq<CacheEntry>): nat {
    if list == [] then 0 else |list[0].listing.entries| + Size(list[1..])
  }

  function AllSizes(servers: seq<ServerEntry>): nat {
    if servers == [] then 0 else Size(servers[0].cacheList) + AllSizes(servers[1..])
  }

  lemma {:induction false} NodesAppend(serverId: nat, a: seq<CacheEntry>, b: seq<CacheEntry>)
    ensures Nodes(serverId, a + b) == Nodes(serverId, a) + Nodes(serverId, b)
    ensures Size(a + b) == Size(a) + Size(b)
  {
    if a == [] {
      assert a + b == b;
    } else {
      assert (a + b)[1..] == a[1..] + b;
      NodesAppend(serverId, a[1..], b);
    }
  }

  lemma {:induction false} AllNodesAppend(a: seq<ServerEntry>, b: seq<ServerEntry>)
    ensures AllNodes(a + b) == AllNodes(a) + AllNodes(b)
    ensures AllSizes(a + b) == AllSizes(a) + AllSizes(b)
  {
    if a == [] {
      assert a + b == b;
    } else {
      assert (a + b)[1..] == a[1..] + b;
      AllNodesAppend(a[1..], b);
      assert Nodes(a[0].id, a[0].cacheList) + (AllNodes(a[1..]) + AllNodes(b)) == Nodes(a[0].id, a[0].cacheList) + AllNodes(a[1..]) + AllNodes(b);
    }
  }

  /** The sums split at any server. */
  lemma AllSplit(servers: seq<ServerEntry>, i: nat)
    requires i < |servers|
    ensures AllNodes(servers) == AllNodes(servers[..i]) + Nodes(servers[i].id, servers[i].cacheList) + AllNodes(servers[i + 1..])
    ensures AllSizes(servers) == AllSizes(servers[..i]) + Size(servers[i].cacheList) + AllSizes(servers[i + 1..])
  {
    var rest := servers[i..];
    assert servers == servers[..i] + rest && rest[0] == servers[i] && rest[1..] == servers[i + 1..];
    assert AllNodes(rest) == Nodes(rest[0].id, rest[0].cacheList) + AllNodes(rest[1..]);
    assert AllSizes(rest) == Size(rest[0].cacheList) + AllSizes(rest[1..]);
    AllNodesAppend(servers[..i], rest);
    hide *;
  }

  lemma NodesSplit(serverId: nat, list: seq<CacheEntry>, k: nat)
    requires k < |list|
    ensures Nodes(serverId, list) == Nodes(serverId, list[..k]) + [NodeOf(serverId, list[k])] + Nodes(serverId, list[k + 1..])
    ensures Size(list) == Size(list[..k]) + |list[k].listing.entries| + Size(list[k + 1..])
  {
    assert list == list[..k] + list[k..] && list[k..][0] == list[k] && list[k..][1..] == list[k + 1..];
    NodesAppend(serverId, list[..k], list[k..]);
  }

  // ---- Invariants ----

  predicate DistinctIds(lru: seq<Node>) {
    forall a, b :: 0 <= a < b < |lru| ==> lru[a].id != lru[b].id
  }

  predicate Sorted(list: seq<CacheEntry>) {
    forall a, b :: 0 <= a < b < |list| ==> PathLess(list[a].listing.path, list[b].listing.path)
  }

  predicate ListOk(list: seq<CacheEntry>) {
    Sorted(list) && forall k :: 0 <= k < |list| ==> list[k].lru.Some?
  }

  predicate ServersOk(servers: seq<ServerEntry>) {
    && (forall i :: 0 <= i < |servers| ==> ListOk(servers[i].cacheList))
    && (forall i, j :: 0 <= i < j < |servers| ==> servers[i].id != servers[j].id && servers[i].server != servers[j].server)
  }

  /** The LRU list and the cache entries are in bijection, through the back pointers. */
  predicate Linked(s: State) {
    && ServersOk(s.servers)
    && multiset(s.lru) == multiset(AllNodes(s.servers))
    && DistinctIds(s.lru)
    && (forall n :: 0 <= n < |s.lru| ==> s.lru[n].id < s.nextId)
    && (forall i :: 0 <= i < |s.servers| ==> s.servers[i].id < s.nextId)
  }

  /** How far the running count is above the number of cached files. */
  function Surplus(s: State): int {
    s.total - AllSizes(s.servers)
  }

  /** What the bijection means in one direction: every entry's back pointer leads to a node that leads back. */
  lemma EntryHasNode(s: State, i: nat, k: nat)
    requires Linked(s) && i < |s.servers| && k < |s.servers[i].cacheList|
    ensures NodeOf(s.servers[i].id, s.servers[i].cacheList[k]) in s.lru
  {
    AllSplit(s.servers, i);
    NodesSplit(s.servers[i].id, s.servers[i].cacheList, k);
    var n := NodeOf(s.servers[i].id, s.servers[i].cacheList[k]);
    assert n in AllNodes(s.servers);
    assert n in multiset(AllNodes(s.servers));
  }

  /** And in the other: every node leads to an entry whose back pointer is that node. */
  lemma NodeHasEntry(s: State, n: nat) returns (i: nat, k: nat)
    requires Linked(s) && n < |s.lru|
    ensures i < |s.servers| && k < |s.servers[i].cacheList|
    ensures s.lru[n] == NodeOf(s.servers[i].id, s.servers[i].cacheList[k])
  {
    assert s.lru[n] in multiset(s.lru);
    i, k := NodeInServers(s.servers, s.lru[n]);
  }

  lemma {:induction false} NodeInServers(servers: seq<ServerEntry>, node: Node) returns (i: nat, k: nat)
    requires node in AllNodes(servers)
    ensures i < |servers| && k < |servers[i].cacheList| && node == NodeOf(servers[i].id, servers[i].cacheList[k])
  {
    if node in Nodes(servers[0].id, servers[0].cacheList) {
      i := 0;
      k := NodeInList(servers[0].id, servers[0].cacheList, node);
    } else {
      i, k := NodeInServers(servers[1..], node);
      i := i + 1;
    }
  }

  lemma {:induction false} NodeInList(serverId: nat, list: seq<CacheEntry>, node: Node) returns (k: nat)
    requires node in Nodes(serverId, list)
    ensures k < |list| && node == NodeOf(serverId, list[k])
  {
    if node == NodeOf(serverId, list[0]) {
      k := 0;
    } else {
      k := NodeInList(serverId, list[1..], node);
      k := k + 1;
    }
  }

  // ---- Moving in the LRU list ----

  /** `splice` to the end of the list. */
  function Moved(lru: seq<Node>, id: nat): seq<Node> {
    if lru == [] then [] else if lru[0].id == id then lru[1..] + [lru[0]] else [lru[0]] + Moved(lru[1..], id)
  }

  lemma {:induction false} MovedKeepsNodes(lru: seq<Node>, id: nat)
    ensures multiset(Moved(lru, id)) == multiset(lru)
    ensures |Moved(lru, id)| == |lru|
  {
    if lru != [] {
      assert lru == [lru[0]] + lru[1..];
      if lru[0].id != id {
        MovedKeepsNodes(lru[1..], id);
      }
    }
  }

  lemma SameNodes(a: seq<Node>, b: seq<Node>)
    requires multiset(a) == multiset(b)
    ensures forall n :: 0 <= n < |a| ==> a[n] in b
  {
    forall n | 0 <= n < |a| ensures a[n] in b {
      assert a[n] in multiset(a);
    }
  }

  lemma {:induction false} MovedKeepsDistinct(lru: seq<Node>, id: nat)
    requires DistinctIds(lru)
    ensures DistinctIds(Moved(lru, id))
  {
    if lru != [] && lru[0].id != id {
      var rest := lru[1..];
      MovedKeepsDistinct(rest, id);
      MovedKeepsNodes(rest, id);
      SameNodes(Moved(rest, id), rest);
      forall n | 0 <= n < |rest| ensures Moved(rest, id)[n].id != lru[0].id {
        var m :| 0 <= m < |rest| && rest[m] == Moved(rest, id)[n];
        assert lru[m + 1] == rest[m];
      }
    }
  }

  /** A moved node ends up last: it is now the most recently used. */
  lemma {:induction false} MovedIsLast(lru: seq<Node>, node: Node)
    requires node in lru && DistinctIds(lru)
    ensures |Moved(lru, node.id)| == |lru| && Moved(lru, node.id)[|lru| - 1] == node
  {
    MovedKeepsNodes(lru, node.id);
    if lru[0].id == node.id {
      var n :| 0 <= n < |lru| && lru[n] == node;
    } else {
      assert node in lru[1..];
      MovedIsLast(lru[1..], node);
      MovedKeepsNodes(lru[1..], node.id);
    }
  }

  // ---- Replacing one server's list ----

  function WithList(servers: seq<ServerEntry>, i: nat, list: seq<CacheEntry>): seq<ServerEntry>
    requires i < |servers|
  {
    servers[i := servers[i].(cacheList := list)]
  }

  /** The sums after replacing one list. */
  lemma WithListSums(servers: seq<ServerEntry>, i: nat, list: seq<CacheEntry>)
    requires i < |servers|
    ensures
      var id, before := servers[i].id, servers[i].cacheList;
      && multiset(AllNodes(WithList(servers, i, list))) + multiset(Nodes(id, before)) == multiset(AllNodes(servers)) + multiset(Nodes(id, list))
      && AllSizes(WithList(servers, i, list)) + Size(before) == AllSizes(servers) + Size(list)
  {
    var servers' := WithList(servers, i, list);
    AllSplit(servers, i);
    AllSplit(servers', i);
    assert servers'[..i] == servers[..i] && servers'[i + 1..] == servers[i + 1..];
    hide AllNodes, Nodes, AllSizes, Size;
  }

  lemma WithListSameNodes(servers: seq<ServerEntry>, i: nat, list: seq<CacheEntry>)
    requires i < |servers| && Nodes(servers[i].id, list) == Nodes(servers[i].id, servers[i].cacheList)
    ensures AllNodes(WithList(servers, i, list)) == AllNodes(servers)
  {
    var servers' := WithList(servers, i, list);
    AllSplit(servers, i);
    AllSplit(servers', i);
    assert servers'[..i] == servers[..i] && servers'[i + 1..] == servers[i + 1..];
  }

  lemma WithListOk(servers: seq<ServerEntry>, i: nat, list: seq<CacheEntry>)
    requires ServersOk(servers) && i < |servers| && ListOk(list)
    ensures ServersOk(WithList(servers, i, list))
  {
    hide ListOk;
  }

  // ---- Editing the listings that an operation concerns ----

  /** Which paths an operation concerns, and what it does to their listings. */
  datatype Edit = Edit(concerns: ServerPath -> bool, change: Listing -> Listing)

  ghost predicate KeepsPaths(edit: Edit) {
    forall l :: edit.change(l).path == l.path
  }

  function EditedEntry(e: CacheEntry, edit: Edit, now: int): CacheEntry {
    if edit.concerns(e.listing.path) then e.(listing := edit.change(e.listing), modificationTime := now) else e
  }

  function Edited(list: seq<CacheEntry>, edit: Edit, now: int): seq<CacheEntry> {
    if list == [] then [] else [EditedEntry(list[0], edit, now)] + Edited(list[1..], edit, now)
  }

  /** The entries concerned are touched in the order of the list. */
  function Touched(lru: seq<Node>, list: seq<CacheEntry>, edit: Edit): seq<Node>
    decreases |list|
  {
    if list == [] then lru
    else Touched(if edit.concerns(list[0].listing.path) then Moved(lru, list[0].lru.GetOr(0)) else lru, list[1..], edit)
  }

  function EditState(s: State, i: nat, edit: Edit, touch: bool, now: int): State
    requires i < |s.servers|
  {
    var list := s.servers[i].cacheList;
    var list' := Edited(list, edit, now);
    s.(servers := WithList(s.servers, i, list'),
       lru := if touch then Touched(s.lru, list, edit) else s.lru,
       total := s.total + Size(list') - Size(list))
  }

  lemma {:induction false} EditedKeeps(serverId: nat, list: seq<CacheEntry>, edit: Edit, now: int)
    requires KeepsPaths(edit)
    ensures |Edited(list, edit, now)| == |list|
    ensures forall k :: 0 <= k < |list| ==> Edited(list, edit, now)[k] == EditedEntry(list[k], edit, now)
    ensures Nodes(serverId, Edited(list, edit, now)) == Nodes(serverId, list)
    ensures ListOk(list) ==> ListOk(Edited(list, edit, now))
  {
    hide PathLess, ListOk;
    if list != [] {
      EditedKeeps(serverId, list[1..], edit, now);
    }
    if ListOk(list) {
      SamePathsAreOk(list, Edited(list, edit, now));
    }
  }

  lemma SamePathsAreOk(list: seq<CacheEntry>, list': seq<CacheEntry>)
    requires ListOk(list) && |list'| == |list|
    requires forall k :: 0 <= k < |list| ==> list'[k].listing.path == list[k].listing.path && list'[k].lru == list[k].lru
    ensures ListOk(list')
  {
    hide PathLess;
  }

  lemma {:induction false} TouchedKeeps(lru: seq<Node>, list: seq<CacheEntry>, edit: Edit)
    ensures multiset(Touched(lru, list, edit)) == multiset(lru)
    ensures DistinctIds(lru) ==> DistinctIds(Touched(lru, list, edit))
    decreases |list|
  {
    if list != [] {
      var id := list[0].lru.GetOr(0);
      MovedKeepsNodes(lru, id);
      if DistinctIds(lru) {
        MovedKeepsDistinct(lru, id);
      }
      TouchedKeeps(if edit.concerns(list[0].listing.path) then Moved(lru, id) else lru, list[1..], edit);
    }
  }

  /** Linked depends on the LRU list only through its nodes and their being distinct. */
  lemma LinkedByNodes(s: State, s': State)
    requires Linked(s) && ServersOk(s'.servers) && DistinctIds(s'.lru) && s'.nextId == s.nextId
    requires multiset(s'.lru) == multiset(AllNodes(s'.servers)) && multiset(s'.lru) == multiset(s.lru)
    requires forall i :: 0 <= i < |s'.servers| ==> s'.servers[i].id < s.nextId
    ensures Linked(s')
  {
    SameNodes(s'.lru, s.lru);
    forall n | 0 <= n < |s'.lru| ensures s'.lru[n].id < s.nextId {
      var m :| 0 <= m < |s.lru| && s.lru[m] == s'.lru[n];
    }
  }

  lemma EditKeepsInv(s: State, i: nat, edit: Edit, touch: bool, now: int)
    requires Linked(s) && i < |s.servers| && KeepsPaths(edit)
    ensures Linked(EditState(s, i, edit, touch, now))
    ensures Surplus(EditState(s, i, edit, touch, now)) == Surplus(s)
  {
    var list, s' := s.servers[i].cacheList, EditState(s, i, edit, touch, now);
    var list' := Edited(list, edit, now);
    assert ListOk(list);
    hide KeepsPaths, EditedEntry;
    EditedKeeps(s.servers[i].id, list, edit, now);
    WithListSums(s.servers, i, list');
    WithListSameNodes(s.servers, i, list');
    WithListOk(s.servers, i, list');
    TouchedKeeps(s.lru, list, edit);
    hide ServersOk, AllNodes, DistinctIds, Nodes, Touched, Edited, AllSizes, Size;
    LinkedByNodes(s, s');
  }

  // ---- Erasing entries ----

  function IndexOf(lru: seq<Node>, id: nat): (r: nat)
    ensures r <= |lru| && (r < |lru| ==> lru[r].id == id)
    ensures forall n :: 0 <= n < r ==> lru[n].id != id
  {
    if lru == [] || lru[0].id == id then 0 else 1 + IndexOf(lru[1..], id)
  }

  function Unlinked(lru: seq<Node>, id: nat): seq<Node> {
    var n := IndexOf(lru, id);
    if n == |lru| then lru else lru[..n] + lru[n + 1..]
  }

  function UnlinkedAll(lru: seq<Node>, gone: seq<CacheEntry>): seq<Node>
    decreases |gone|
  {
    if gone == [] then lru else UnlinkedAll(Unlinked(lru, gone[0].lru.GetOr(0)), gone[1..])
  }

  /** The entries that stay, or that go, in order. */
  function Selected(list: seq<CacheEntry>, goes: ServerPath -> bool, which: bool): seq<CacheEntry> {
    if list == [] then []
    else if goes(list[0].listing.path) == which then [list[0]] + Selected(list[1..], goes, which)
    else Selected(list[1..], goes, which)
  }

  function EraseState(s: State, i: nat, goes: ServerPath -> bool): State
    requires i < |s.servers|
  {
    var list := s.servers[i].cacheList;
    var gone := Selected(list, goes, true);
    s.(servers := WithList(s.servers, i, Selected(list, goes, false)),
       lru := UnlinkedAll(s.lru, gone),
       total := s.total - Size(gone))
  }

  lemma WithoutOne(lru: seq<Node>, n: nat)
    requires n < |lru|
    ensures multiset(lru) == multiset(lru[..n] + lru[n + 1..]) + multiset{lru[n]}
  {
    assert lru == lru[..n] + [lru[n]] + lru[n + 1..];
  }

  lemma UnlinkedKeeps(lru: seq<Node>, node: Node)
    requires DistinctIds(lru) && node in lru
    ensures multiset(lru) == multiset(Unlinked(lru, node.id)) + multiset{node}
    ensures DistinctIds(Unlinked(lru, node.id))
  {
    var n := IndexOf(lru, node.id);
    var m :| 0 <= m < |lru| && lru[m] == node;
    assert m == n;
    hide IndexOf;
    WithoutOne(lru, n);
  }

  lemma OneLess(all: multiset<Node>, all': multiset<Node>, others: multiset<Node>, node: Node)
    requires all == all' + multiset{node} && multiset{node} + others <= all
    ensures others <= all'
  {
    forall x ensures others[x] <= all'[x] {
      assert (multiset{node} + others)[x] <= all[x];
    }
  }

  lemma {:induction false} UnlinkedAllKeeps(lru: seq<Node>, serverId: nat, gone: seq<CacheEntry>)
    requires DistinctIds(lru) && multiset(Nodes(serverId, gone)) <= multiset(lru)
    ensures multiset(lru) == multiset(UnlinkedAll(lru, gone)) + multiset(Nodes(serverId, gone))
    ensures DistinctIds(UnlinkedAll(lru, gone))
    decreases |gone|
  {
    if gone != [] {
      var node, others := NodeOf(serverId, gone[0]), Nodes(serverId, gone[1..]);
      assert Nodes(serverId, gone) == [node] + others;
      assert UnlinkedAll(lru, gone) == UnlinkedAll(Unlinked(lru, node.id), gone[1..]);
      hide *;
      var lru' := Unlinked(lru, node.id);
      assert multiset(Nodes(serverId, gone)) == multiset{node} + multiset(others);
      assert node in multiset(lru);
      UnlinkedKeeps(lru, node);
      assert multiset(others) <= multiset(lru') by {
        OneLess(multiset(lru), multiset(lru'), multiset(others), node);
      }
      UnlinkedAllKeeps(lru', serverId, gone[1..]);
    }
  }

  lemma {:induction false} SelectedKeeps(serverId: nat, list: seq<CacheEntry>, goes: ServerPath -> bool)
    ensures multiset(Nodes(serverId, list)) ==
      multiset(Nodes(serverId, Selected(list, goes, false))) + multiset(Nodes(serverId, Selected(list, goes, true)))
    ensures Size(list) == Size(Selected(list, goes, false)) + Size(Selected(list, goes, true))
  {
    if list != [] {
      var rest, e := list[1..], list[0];
      SelectedKeeps(serverId, rest, goes);
      var which := goes(e.listing.path);
      var same, other := Selected(rest, goes, which), Selected(rest, goes, !which);
      assert Selected(list, goes, which) == [e] + same && Selected(list, goes, !which) == other;
      assert ([e] + same)[1..] == same;
      assert Nodes(serverId, [e] + same) == [NodeOf(serverId, e)] + Nodes(serverId, same);
      assert Nodes(serverId, list) == [NodeOf(serverId, e)] + Nodes(serverId, rest);
      assert Size([e] + same) == |e.listing.entries| + Size(same);
      hide Nodes, Selected, Size, NodeOf;
    }
  }

  lemma {:induction false} SelectedIsOk(list: seq<CacheEntry>, goes: ServerPath -> bool, which: bool)
    requires ListOk(list)
    ensures ListOk(Selected(list, goes, which))
    ensures forall k :: 0 <= k < |Selected(list, goes, which)| ==>
      Selected(list, goes, which)[k] in list && goes(Selected(list, goes, which)[k].listing.path) == which
  {
    if list != [] {
      assert ListOk(list[1..]);
      SelectedIsOk(list[1..], goes, which);
    }
  }

  /** The nodes of any part of a server's list are in the LRU list. */
  lemma NodesAreLinked(s: State, i: nat, some: seq<CacheEntry>)
    requires Linked(s) && i < |s.servers|
    requires multiset(Nodes(s.servers[i].id, some)) <= multiset(Nodes(s.servers[i].id, s.servers[i].cacheList))
    ensures multiset(Nodes(s.servers[i].id, some)) <= multiset(s.lru)
  {
    AllSplit(s.servers, i);
    assert multiset(s.lru) == multiset(AllNodes(s.servers));
    hide *;
  }

  lemma EraseCounts(all: multiset<Node>, all': multiset<Node>, list: multiset<Node>, kept: multiset<Node>, gone: multiset<Node>, lru': multiset<Node>)
    requires all' + list == all + kept && list == kept + gone && all == lru' + gone
    ensures all' == lru' && lru' <= all
  {
    forall x ensures all'[x] == lru'[x] {
      assert all'[x] + list[x] == (all' + list)[x];
      assert all[x] + kept[x] == (all + kept)[x];
      assert kept[x] + gone[x] == (kept + gone)[x];
      assert lru'[x] + gone[x] == (lru' + gone)[x];
    }
  }

  lemma ErasedNodes(s: State, i: nat, goes: ServerPath -> bool)
    requires Linked(s) && i < |s.servers|
    ensures
      var s' := EraseState(s, i, goes);
      && multiset(s'.lru) == multiset(AllNodes(s'.servers)) && multiset(s'.lru) <= multiset(s.lru)
      && DistinctIds(s'.lru) && Surplus(s') == Surplus(s)
  {
    var list, s' := s.servers[i].cacheList, EraseState(s, i, goes);
    var id, kept, gone := s.servers[i].id, Selected(list, goes, false), Selected(list, goes, true);
    SelectedKeeps(id, list, goes);
    assert multiset(Nodes(id, gone)) <= multiset(Nodes(id, list));
    NodesAreLinked(s, i, gone);
    UnlinkedAllKeeps(s.lru, id, gone);
    WithListSums(s.servers, i, kept);
    hide ServersOk, AllNodes, DistinctIds, Nodes, UnlinkedAll, Selected, AllSizes, Size;
    EraseCounts(multiset(s.lru), multiset(AllNodes(s'.servers)), multiset(Nodes(id, list)),
                multiset(Nodes(id, kept)), multiset(Nodes(id, gone)), multiset(s'.lru));
  }

  lemma EraseKeepsInv(s: State, i: nat, goes: ServerPath -> bool)
    requires Linked(s) && i < |s.servers|
    ensures Linked(EraseState(s, i, goes))
    ensures Surplus(EraseState(s, i, goes)) == Surplus(s)
  {
    var list := s.servers[i].cacheList;
    assert ListOk(list);
    hide ListOk, AllNodes, DistinctIds, UnlinkedAll, Selected, Surplus;
    ErasedNodes(s, i, goes);
    SelectedIsOk(list, goes, false);
    WithListOk(s.servers, i, Selected(list, goes, false));
    hide ServersOk;
    LinkedByFewerNodes(s, EraseState(s, i, goes));
  }

  lemma LinkedByFewerNodes(s: State, s': State)
    requires Linked(s) && ServersOk(s'.servers) && DistinctIds(s'.lru) && s'.nextId == s.nextId
    requires multiset(s'.lru) == multiset(AllNodes(s'.servers)) && multiset(s'.lru) <= multiset(s.lru)
    requires forall i :: 0 <= i < |s'.servers| ==> s'.servers[i].id < s.nextId
    ensures Linked(s')
  {
    forall n | 0 <= n < |s'.lru| ensures s'.lru[n].id < s.nextId {
      assert s'.lru[n] in multiset(s'.lru);
      assert s'.lru[n] in multiset(s.lru);
      var m :| 0 <= m < |s.lru| && s.lru[m] == s'.lru[n];
    }
  }

  // ---- Dropping an empty server ----

  function WithoutServer(servers: seq<ServerEntry>, i: nat): seq<ServerEntry>
    requires i < |servers|
  {
    servers[..i] + servers[i + 1..]
  }

  function DropState(s: State, i: nat): State
    requires i < |s.servers|
  {
    s.(servers := WithoutServer(s.servers, i))
  }

  lemma WithoutServerOk(servers: seq<ServerEntry>, i: nat)
    requires ServersOk(servers) && i < |servers|
    ensures ServersOk(WithoutServer(servers, i))
    ensures forall j :: 0 <= j < |WithoutServer(servers, i)| ==> WithoutServer(servers, i)[j] == servers[if j < i then j else j + 1]
  {
    hide ListOk;
  }

  lemma WithoutServerSums(servers: seq<ServerEntry>, i: nat)
    requires i < |servers| && servers[i].cacheList == []
    ensures AllNodes(WithoutServer(servers, i)) == AllNodes(servers) && AllSizes(WithoutServer(servers, i)) == AllSizes(servers)
  {
    AllSplit(servers, i);
    AllNodesAppend(servers[..i], servers[i + 1..]);
    assert Nodes(servers[i].id, servers[i].cacheList) == [] && Size(servers[i].cacheList) == 0;
    assert WithoutServer(servers, i) == servers[..i] + servers[i + 1..];
    hide *;
    assert AllNodes(servers[..i]) + [] == AllNodes(servers[..i]);
  }

  /** Linked depends on the servers through their nodes and identities. */
  lemma LinkedByServers(s: State, s': State)
    requires Linked(s) && s'.lru == s.lru && s'.nextId >= s.nextId
    requires ServersOk(s'.servers) && AllNodes(s'.servers) == AllNodes(s.servers)
    requires forall i :: 0 <= i < |s'.servers| ==> s'.servers[i].id < s'.nextId
    ensures Linked(s')
  {
    hide AllNodes, ServersOk, DistinctIds;
  }

  lemma DropKeepsInv(s: State, i: nat)
    requires Linked(s) && i < |s.servers| && s.servers[i].cacheList == []
    ensures Linked(DropState(s, i))
    ensures Surplus(DropState(s, i)) == Surplus(s)
  {
    WithoutServerOk(s.servers, i);
    WithoutServerSums(s.servers, i);
    hide AllNodes, ServersOk, DistinctIds, AllSizes, WithoutServer;
    LinkedByServers(s, DropState(s, i));
  }
}
