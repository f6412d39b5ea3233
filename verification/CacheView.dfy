/**
 The directory cache seen as a map from server and path to listing: what each change of its lists does to the
 map (src/engine/directorycache.cpp).
 */
module CacheView {
  import opened Options
  import opened ServerPaths
  import opened DirectoryListing
  import opened CacheState
  import opened CachePruning

  // ---- One ordered list ----

  lemma MemberIsFound(list: seq<CacheEntry>, e: CacheEntry)
    requires ListOk(list) && e in list
    ensures FindIn(list, e.listing.path) == Some(e.listing)
  {
    var k :| 0 <= k < |list| && list[k] == e;
    FindsEntry(list, k);
  }

  lemma FoundIsMember(list: seq<CacheEntry>, path: ServerPath) returns (e: CacheEntry)
    requires FindIn(list, path).Some?
    ensures e in list && e.listing.path == path && FindIn(list, path) == Some(e.listing)
  {
    e := list[LowerBound(list, path)];
  }

  /** Two lists agree on a path if they have the same entries for it. */
  lemma SameMembersSameResult(list: seq<CacheEntry>, list': seq<CacheEntry>, path: ServerPath)
    requires ListOk(list) && ListOk(list')
    requires forall e :: e in list && e.listing.path == path ==> e in list'
    requires forall e :: e in list' && e.listing.path == path ==> e in list
    ensures FindIn(list, path) == FindIn(list', path)
  {
    hide ListOk, FindIn;
    if FindIn(list, path).Some? {
      var e := FoundIsMember(list, path);
      MemberIsFound(list', e);
    } else if FindIn(list', path).Some? {
      var e := FoundIsMember(list', path);
      MemberIsFound(list, e);
    }
  }

  lemma NoMemberNoResult(list: seq<CacheEntry>, path: ServerPath)
    requires forall e :: e in list ==> e.listing.path != path
    ensures FindIn(list, path) == None
  {
    hide FindIn;
    if FindIn(list, path).Some? {
      var e := FoundIsMember(list, path);
    }
  }

  function EditedListing(l: Listing, edit: Edit): Listing {
    if edit.concerns(l.path) then edit.change(l) else l
  }

  lemma EditedEntryIs(e: CacheEntry, edit: Edit, now: int)
    requires KeepsPaths(edit)
    ensures EditedEntry(e, edit, now).listing == EditedListing(e.listing, edit)
    ensures EditedListing(e.listing, edit).path == e.listing.path
  {
  }

  lemma FindInEdited(list: seq<CacheEntry>, edit: Edit, now: int, path: ServerPath)
    requires ListOk(list) && KeepsPaths(edit)
    ensures FindIn(Edited(list, edit, now), path) ==
      if FindIn(list, path).Some? then Some(EditedListing(FindIn(list, path).value, edit)) else None
  {
    var list' := Edited(list, edit, now);
    EditedKeeps(0, list, edit, now);
    hide Edited, Nodes, FindIn, ListOk, EditedEntry, EditedListing, KeepsPaths;
    if FindIn(list, path).Some? {
      var e := FoundIsMember(list, path);
      var k :| 0 <= k < |list| && list[k] == e;
      EditedEntryIs(e, edit, now);
      assert list'[k] in list';
      MemberIsFound(list', list'[k]);
    } else if FindIn(list', path).Some? {
      var e := FoundIsMember(list', path);
      var k :| 0 <= k < |list'| && list'[k] == e;
      EditedEntryIs(list[k], edit, now);
      MemberIsFound(list, list[k]);
    }
  }

  lemma {:induction false} SelectedHasAll(list: seq<CacheEntry>, goes: ServerPath -> bool, which: bool, e: CacheEntry)
    requires e in list && goes(e.listing.path) == which
    ensures e in Selected(list, goes, which)
  {
    if list[0] != e {
      SelectedHasAll(list[1..], goes, which, e);
    }
  }

  lemma FindInSelected(list: seq<CacheEntry>, goes: ServerPath -> bool, path: ServerPath)
    requires ListOk(list)
    ensures FindIn(Selected(list, goes, false), path) == if goes(path) then None else FindIn(list, path)
  {
    SelectedIsOk(list, goes, false);
    if goes(path) {
      NoMemberNoResult(Selected(list, goes, false), path);
    } else {
      forall e | e in list && e.listing.path == path ensures e in Selected(list, goes, false) {
        SelectedHasAll(list, goes, false, e);
      }
      hide Selected, ListOk, FindIn;
      SameMembersSameResult(list, Selected(list, goes, false), path);
    }
  }

  lemma PathsAreUnique(list: seq<CacheEntry>, k: nat, m: nat)
    requires ListOk(list) && k < |list| && m < |list| && list[k].listing.path == list[m].listing.path
    ensures k == m
  {
    PathOrder(list[k].listing.path, list[k].listing.path, list[k].listing.path);
    hide PathLess;
  }

  lemma FindInWithout(list: seq<CacheEntry>, k: nat, path: ServerPath)
    requires ListOk(list) && k < |list|
    ensures FindIn(Without(list, k), path) == if path == list[k].listing.path then None else FindIn(list, path)
  {
    var list' := Without(list, k);
    WithoutIsOk(list, k);
    hide ListOk, FindIn;
    if path == list[k].listing.path {
      forall e | e in list' ensures e.listing.path != path {
        var m :| 0 <= m < |list'| && list'[m] == e;
        if e.listing.path == path {
          PathsAreUnique(list, k, if m < k then m else m + 1);
        }
      }
      NoMemberNoResult(list', path);
    } else {
      forall e | e in list && e.listing.path == path ensures e in list' {
        var m :| 0 <= m < |list| && list[m] == e;
        assert list'[if m < k then m else m - 1] == e;
      }
      SameMembersSameResult(list, list', path);
    }
  }

  lemma FindInInserted(list: seq<CacheEntry>, e: CacheEntry, path: ServerPath)
    requires ListOk(list) && e.lru.Some? && IsNew(list, e.listing.path)
    ensures FindIn(Inserted(list, e), path) == if path == e.listing.path then Some(e.listing) else FindIn(list, path)
  {
    var list', k := Inserted(list, e), LowerBound(list, e.listing.path);
    InsertedIsOk(list, e);
    assert list' == list[..k] + [e] + list[k..] && list == list[..k] + list[k..];
    hide ListOk, FindIn, Inserted, LowerBound;
    if path == e.listing.path {
      MemberIsFound(list', e);
    } else {
      SameMembersSameResult(list, list', path);
    }
  }

  // ---- The whole cache ----

  lemma ListingAtWithList(s: State, s': State, i: nat, list': seq<CacheEntry>, server: Server, path: ServerPath)
    requires Linked(s) && i < |s.servers| && s'.servers == WithList(s.servers, i, list')
    ensures ListingAt(s', server, path) ==
      if server == s.servers[i].server then FindIn(list', path) else ListingAt(s, server, path)
  {
    FindsServer(s.servers, i);
    SameServers(s.servers, s'.servers, server);
  }

  lemma {:induction false} SameServers(a: seq<ServerEntry>, b: seq<ServerEntry>, server: Server)
    requires |a| == |b| && forall i :: 0 <= i < |a| ==> a[i].server == b[i].server
    ensures ServerIndex(a, server) == ServerIndex(b, server)
  {
  }

  lemma ListingAtServer(s: State, i: nat, path: ServerPath)
    requires Linked(s) && i < |s.servers|
    ensures ListingAt(s, s.servers[i].server, path) == FindIn(s.servers[i].cacheList, path)
  {
    FindsServer(s.servers, i);
  }

  lemma ViewOfEdit(s: State, i: nat, edit: Edit, touch: bool, now: int, server: Server, path: ServerPath)
    requires Linked(s) && i < |s.servers| && KeepsPaths(edit)
    ensures
      var l := ListingAt(s, server, path);
      ListingAt(EditState(s, i, edit, touch, now), server, path) ==
        if l.Some? && server == s.servers[i].server then Some(EditedListing(l.value, edit)) else l
  {
    var list := s.servers[i].cacheList;
    ListingAtServer(s, i, path);
    ListingAtWithList(s, EditState(s, i, edit, touch, now), i, Edited(list, edit, now), server, path);
    assert ListOk(list);
    hide ListOk, Edited, FindIn, KeepsPaths;
    FindInEdited(list, edit, now, path);
  }

  lemma ViewOfErase(s: State, i: nat, goes: ServerPath -> bool, server: Server, path: ServerPath)
    requires Linked(s) && i < |s.servers|
    ensures ListingAt(EraseState(s, i, goes), server, path) ==
      if server == s.servers[i].server && goes(path) then None else ListingAt(s, server, path)
  {
    var list := s.servers[i].cacheList;
    ListingAtServer(s, i, path);
    ListingAtWithList(s, EraseState(s, i, goes), i, Selected(list, goes, false), server, path);
    assert ListOk(list);
    hide ListOk, Selected, FindIn;
    FindInSelected(list, goes, path);
  }

  lemma ViewOfDrop(s: State, i: nat, server: Server, path: ServerPath)
    requires Linked(s) && i < |s.servers| && s.servers[i].cacheList == []
    ensures ListingAt(DropState(s, i), server, path) == ListingAt(s, server, path)
  {
    var servers' := WithoutServer(s.servers, i);
    WithoutServerOk(s.servers, i);
    hide FindIn, ServerIndex, ServersOk, WithoutServer;
    var j := ServerIndex(s.servers, server);
    if j < |s.servers| && j != i {
      FindsServer(servers', if j < i then j else j - 1);
    } else {
      assert j == i ==> FindIn(s.servers[i].cacheList, path) == None by {
        NoMemberNoResult([], path);
      }
      var m := ServerIndex(servers', server);
      if m < |servers'| {
        FindsServer(s.servers, if m < i then m else m + 1);
        assert false;
      }
    }
  }

  lemma ViewOfCreate(s: State, created: Server, server: Server, path: ServerPath)
    requires Linked(s)
    ensures ListingAt(CreateState(s, created), server, path) == ListingAt(s, server, path)
  {
    var s' := CreateState(s, created);
    CreateKeepsInv(s, created);
    var j, m := ServerIndex(s.servers, server), ServerIndex(s'.servers, server);
    NoMemberNoResult([], path);
    hide FindIn;
    if j < |s.servers| {
      FindsServer(s'.servers, j);
    }
  }

  lemma ViewOfInsert(s: State, i: nat, listing: Listing, now: int, server: Server, path: ServerPath)
    requires Linked(s) && i < |s.servers| && IsNew(s.servers[i].cacheList, listing.path)
    ensures ListingAt(InsertState(s, i, listing, now), server, path) ==
      if server == s.servers[i].server && path == listing.path then Some(listing) else ListingAt(s, server, path)
  {
    var list, e := s.servers[i].cacheList, CacheEntry(listing, now, Some(s.nextId));
    ListingAtServer(s, i, path);
    ListingAtWithList(s, InsertState(s, i, listing, now), i, Inserted(list, e), server, path);
    assert ListOk(list);
    hide ListOk, Inserted, FindIn, IsNew;
    FindInInserted(list, e, path);
  }

  /** Evicting forgets exactly the listing of the least recently used entry. */
  lemma ViewOfEvict(s: State, server: Server, path: ServerPath)
    requires Linked(s) && s.lru != []
    ensures
      var i := IdIndex(s.servers, s.lru[0].serverId);
      && i < |s.servers|
      && ListingAt(EvictState(s), server, path) ==
           if server == s.servers[i].server && path == s.lru[0].path then None else ListingAt(s, server, path)
  {
    FrontLeadsToEntry(s);
    var i := IdIndex(s.servers, s.lru[0].serverId);
    var list := s.servers[i].cacheList;
    var k := LowerBound(list, s.lru[0].path);
    var s' := WithoutFront(s, i, k);
    assert EvictState(s) == DroppedIfEmpty(s', i);
    ListingAtServer(s, i, path);
    ListingAtWithList(s, s', i, Without(list, k), server, path);
    assert ListOk(list);
    WithoutFrontKeepsInv(s, i, k);
    hide ListOk, Without, FindIn, Linked, ListingAt, EvictState, LowerBound;
    FindInWithout(list, k, path);
    if s'.servers[i].cacheList == [] {
      ViewOfDrop(s', i, server, path);
    }
  }
}
