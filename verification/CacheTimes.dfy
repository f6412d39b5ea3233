/**
 The times at which cached listings were last changed, as `GetChangeTime` tells them (src/engine/directorycache.cpp):
 storing and every write to a listing set them, and nothing else does; renaming a file in place is no write.
 */
module CacheTimes {
  import opened Options
  import opened ServerPaths
  import opened DirectoryListing
  import opened CacheState
  import opened CachePruning
  import opened CacheView
  import opened CacheStore
  import opened CacheEdits
  import opened CacheRuns
  import opened CacheWrites

  // ---- One ordered list ----

  function EntryIn(list: seq<CacheEntry>, path: ServerPath): Option<CacheEntry> {
    if Hits(list, path) then Some(list[LowerBound(list, path)]) else None
  }

  function EntryAt(s: State, server: Server, path: ServerPath): Option<CacheEntry> {
    var i := ServerIndex(s.servers, server);
    if i < |s.servers| then EntryIn(s.servers[i].cacheList, path) else None
  }

  /** The time told for a path, if a listing is cached for it. */
  function ChangeTime(s: State, server: Server, path: ServerPath): Option<int> {
    var e := EntryAt(s, server, path);
    if e.Some? then Some(e.value.modificationTime) else None
  }

  lemma TimeOfCached(s: State, server: Server, path: ServerPath)
    ensures ChangeTime(s, server, path).Some? <==> ListingAt(s, server, path).Some?
    ensures EntryAt(s, server, path).Some? ==>
      EntryAt(s, server, path).value.listing.path == path && ListingAt(s, server, path) == Some(EntryAt(s, server, path).value.listing)
  {
  }

  lemma MemberIsEntry(list: seq<CacheEntry>, e: CacheEntry)
    requires ListOk(list) && e in list
    ensures EntryIn(list, e.listing.path) == Some(e)
  {
    var k :| 0 <= k < |list| && list[k] == e;
    FindsEntry(list, k);
  }

  lemma EntryIsMember(list: seq<CacheEntry>, path: ServerPath)
    requires EntryIn(list, path).Some?
    ensures EntryIn(list, path).value in list && EntryIn(list, path).value.listing.path == path
  {
  }

  lemma SameMembersSameEntry(list: seq<CacheEntry>, list': seq<CacheEntry>, path: ServerPath)
    requires ListOk(list) && ListOk(list')
    requires forall e :: e in list && e.listing.path == path ==> e in list'
    requires forall e :: e in list' && e.listing.path == path ==> e in list
    ensures EntryIn(list, path) == EntryIn(list', path)
  {
    hide ListOk, EntryIn;
    if EntryIn(list, path).Some? {
      EntryIsMember(list, path);
      MemberIsEntry(list', EntryIn(list, path).value);
    } else if EntryIn(list', path).Some? {
      EntryIsMember(list', path);
      MemberIsEntry(list, EntryIn(list', path).value);
    }
  }

  lemma NoMemberNoEntry(list: seq<CacheEntry>, path: ServerPath)
    requires forall e :: e in list ==> e.listing.path != path
    ensures EntryIn(list, path) == None
  {
    hide EntryIn;
    if EntryIn(list, path).Some? {
      EntryIsMember(list, path);
    }
  }

  /** An edit sets the times of the entries concerned. */
  predicate TimeEdited(e: Option<CacheEntry>, e': Option<CacheEntry>, edit: Edit, path: ServerPath, now: int) {
    && (e.Some? <==> e'.Some?)
    && (e.Some? ==> e'.value.modificationTime == if edit.concerns(path) then now else e.value.modificationTime)
  }

  lemma EntryIsAt(list: seq<CacheEntry>, path: ServerPath) returns (k: nat)
    requires EntryIn(list, path).Some?
    ensures k < |list| && list[k] == EntryIn(list, path).value && list[k].listing.path == path
  {
    k := LowerBound(list, path);
  }

  lemma EditedAt(list: seq<CacheEntry>, edit: Edit, now: int, k: nat)
    requires ListOk(list) && KeepsPaths(edit) && k < |list|
    ensures |Edited(list, edit, now)| == |list| && Edited(list, edit, now)[k] == EditedEntry(list[k], edit, now)
    ensures EntryIn(Edited(list, edit, now), list[k].listing.path) == Some(EditedEntry(list[k], edit, now))
  {
    EditedKeeps(0, list, edit, now);
    EditedPath(list[k], edit, now);
    hide Edited, Nodes, EntryIn, ListOk, KeepsPaths, EditedEntry;
    var list' := Edited(list, edit, now);
    assert list'[k] in list';
    MemberIsEntry(list', list'[k]);
  }

  lemma EntryInEdited(list: seq<CacheEntry>, edit: Edit, now: int, path: ServerPath)
    requires ListOk(list) && KeepsPaths(edit)
    ensures TimeEdited(EntryIn(list, path), EntryIn(Edited(list, edit, now), path), edit, path, now)
  {
    var list' := Edited(list, edit, now);
    hide EntryIn, Edited, ListOk, KeepsPaths, EditedEntry;
    if EntryIn(list, path).Some? {
      var k := EntryIsAt(list, path);
      EditedAt(list, edit, now, k);
      EditedPath(list[k], edit, now);
    } else if EntryIn(list', path).Some? {
      var k := EntryIsAt(list', path);
      EditedKeeps(0, list, edit, now);
      EditedAt(list, edit, now, k);
      EditedPath(list[k], edit, now);
      assert list[k] in list;
      MemberIsEntry(list, list[k]);
      assert false;
    }
  }

  lemma EditedPath(e: CacheEntry, edit: Edit, now: int)
    requires KeepsPaths(edit)
    ensures EditedEntry(e, edit, now).listing.path == e.listing.path
    ensures EditedEntry(e, edit, now).modificationTime == if edit.concerns(e.listing.path) then now else e.modificationTime
  {
  }

  lemma EntryInSelected(list: seq<CacheEntry>, goes: ServerPath -> bool, path: ServerPath)
    requires ListOk(list)
    ensures EntryIn(Selected(list, goes, false), path) == if goes(path) then None else EntryIn(list, path)
  {
    SelectedIsOk(list, goes, false);
    if goes(path) {
      NoMemberNoEntry(Selected(list, goes, false), path);
    } else {
      forall e | e in list && e.listing.path == path ensures e in Selected(list, goes, false) {
        SelectedHasAll(list, goes, false, e);
      }
      hide Selected, ListOk, EntryIn;
      SameMembersSameEntry(list, Selected(list, goes, false), path);
    }
  }

  lemma EntryInWithout(list: seq<CacheEntry>, k: nat, path: ServerPath)
    requires ListOk(list) && k < |list|
    ensures EntryIn(Without(list, k), path) == if path == list[k].listing.path then None else EntryIn(list, path)
  {
    var list' := Without(list, k);
    WithoutIsOk(list, k);
    hide ListOk, EntryIn;
    if path == list[k].listing.path {
      forall e | e in list' ensures e.listing.path != path {
        var m :| 0 <= m < |list'| && list'[m] == e;
        if e.listing.path == path {
          PathsAreUnique(list, k, if m < k then m else m + 1);
        }
      }
      NoMemberNoEntry(list', path);
    } else {
      forall e | e in list && e.listing.path == path ensures e in list' {
        var m :| 0 <= m < |list| && list[m] == e;
        assert list'[if m < k then m else m - 1] == e;
      }
      SameMembersSameEntry(list, list', path);
    }
  }

  lemma EntryInInserted(list: seq<CacheEntry>, e: CacheEntry, path: ServerPath)
    requires ListOk(list) && e.lru.Some? && IsNew(list, e.listing.path)
    ensures EntryIn(Inserted(list, e), path) == if path == e.listing.path then Some(e) else EntryIn(list, path)
  {
    var list', k := Inserted(list, e), LowerBound(list, e.listing.path);
    InsertedIsOk(list, e);
    assert list' == list[..k] + [e] + list[k..] && list == list[..k] + list[k..];
    hide ListOk, EntryIn, Inserted, LowerBound;
    if path == e.listing.path {
      MemberIsEntry(list', e);
    } else {
      SameMembersSameEntry(list, list', path);
    }
  }

  lemma EntryInReplaced(list: seq<CacheEntry>, k: nat, e: CacheEntry, path: ServerPath)
    requires ListOk(list) && k < |list| && e.lru.Some? && e.listing.path == list[k].listing.path
    ensures EntryIn(list[k := e], path) == if path == e.listing.path then Some(e) else EntryIn(list, path)
  {
    var list' := list[k := e];
    assert ListOk(list') by {
      hide PathLess;
    }
    hide ListOk, EntryIn;
    assert list'[k] == e;
    if path == e.listing.path {
      MemberIsEntry(list', e);
    } else {
      forall x | x in list && x.listing.path == path ensures x in list' {
        var m :| 0 <= m < |list| && list[m] == x;
        assert list'[m] == x;
      }
      SameMembersSameEntry(list, list', path);
    }
  }

  // ---- The whole cache ----

  lemma EntryAtWithList(s: State, s': State, i: nat, list': seq<CacheEntry>, server: Server, path: ServerPath)
    requires Linked(s) && i < |s.servers| && s'.servers == WithList(s.servers, i, list')
    ensures EntryAt(s', server, path) == if server == s.servers[i].server then EntryIn(list', path) else EntryAt(s, server, path)
  {
    FindsServer(s.servers, i);
    SameServers(s.servers, s'.servers, server);
  }

  lemma EntryAtServer(s: State, i: nat, path: ServerPath)
    requires Linked(s) && i < |s.servers|
    ensures EntryAt(s, s.servers[i].server, path) == EntryIn(s.servers[i].cacheList, path) && ListOk(s.servers[i].cacheList)
  {
    FindsServer(s.servers, i);
  }

  lemma TimesOfEdit(s: State, i: nat, edit: Edit, touch: bool, now: int, server: Server, path: ServerPath)
    requires Linked(s) && i < |s.servers| && KeepsPaths(edit)
    ensures ChangeTime(EditState(s, i, edit, touch, now), server, path) ==
      if ChangeTime(s, server, path).Some? && server == s.servers[i].server && edit.concerns(path) then Some(now)
      else ChangeTime(s, server, path)
  {
    var list := s.servers[i].cacheList;
    EntryAtServer(s, i, path);
    EntryAtWithList(s, EditState(s, i, edit, touch, now), i, Edited(list, edit, now), server, path);
    hide ListOk, Edited, EntryIn, KeepsPaths;
    EntryInEdited(list, edit, now, path);
  }

  lemma TimesOfErase(s: State, i: nat, goes: ServerPath -> bool, server: Server, path: ServerPath)
    requires Linked(s) && i < |s.servers|
    ensures EntryAt(EraseState(s, i, goes), server, path) ==
      if server == s.servers[i].server && goes(path) then None else EntryAt(s, server, path)
  {
    var list := s.servers[i].cacheList;
    EntryAtServer(s, i, path);
    EntryAtWithList(s, EraseState(s, i, goes), i, Selected(list, goes, false), server, path);
    hide ListOk, Selected, EntryIn;
    EntryInSelected(list, goes, path);
  }

  lemma TimesOfReplace(s: State, i: nat, k: nat, listing: Listing, time: int, server: Server, path: ServerPath)
    requires Linked(s) && i < |s.servers| && k < |s.servers[i].cacheList|
    requires listing.path == s.servers[i].cacheList[k].listing.path
    ensures ChangeTime(ReplaceState(s, i, k, listing, time), server, path) ==
      if server == s.servers[i].server && path == listing.path then Some(time) else ChangeTime(s, server, path)
  {
    var list := s.servers[i].cacheList;
    var e := list[k].(listing := listing, modificationTime := time);
    EntryAtServer(s, i, path);
    EntryAtWithList(s, ReplaceState(s, i, k, listing, time), i, list[k := e], server, path);
    hide EntryIn;
    EntryInReplaced(list, k, e, path);
  }

  lemma TimesOfInsert(s: State, i: nat, listing: Listing, now: int, server: Server, path: ServerPath)
    requires Linked(s) && i < |s.servers| && IsNew(s.servers[i].cacheList, listing.path)
    ensures ChangeTime(InsertState(s, i, listing, now), server, path) ==
      if server == s.servers[i].server && path == listing.path then Some(now) else ChangeTime(s, server, path)
  {
    var list, e := s.servers[i].cacheList, CacheEntry(listing, now, Some(s.nextId));
    EntryAtServer(s, i, path);
    EntryAtWithList(s, InsertState(s, i, listing, now), i, Inserted(list, e), server, path);
    hide ListOk, Inserted, EntryIn, IsNew;
    EntryInInserted(list, e, path);
  }

  lemma TimesOfDrop(s: State, i: nat, server: Server, path: ServerPath)
    requires Linked(s) && i < |s.servers| && s.servers[i].cacheList == []
    ensures EntryAt(DropState(s, i), server, path) == EntryAt(s, server, path)
  {
    var servers' := WithoutServer(s.servers, i);
    WithoutServerOk(s.servers, i);
    hide EntryIn, ServerIndex, ServersOk, WithoutServer;
    var j := ServerIndex(s.servers, server);
    if j < |s.servers| && j != i {
      FindsServer(servers', if j < i then j else j - 1);
    } else {
      assert j == i ==> EntryIn(s.servers[i].cacheList, path) == None by {
        NoMemberNoEntry([], path);
      }
      var m := ServerIndex(servers', server);
      if m < |servers'| {
        FindsServer(s.servers, if m < i then m else m + 1);
        assert false;
      }
    }
  }

  lemma TimesOfCreate(s: State, created: Server, server: Server, path: ServerPath)
    requires Linked(s)
    ensures EntryAt(CreateState(s, created), server, path) == EntryAt(s, server, path)
  {
    var s' := CreateState(s, created);
    CreateKeepsInv(s, created);
    var j := ServerIndex(s.servers, server);
    NoMemberNoEntry([], path);
    hide EntryIn;
    if j < |s.servers| {
      FindsServer(s'.servers, j);
    }
  }

  lemma TimesOfEvict(s: State, server: Server, path: ServerPath)
    requires Linked(s) && s.lru != []
    ensures EntryAt(EvictState(s), server, path) in {None, EntryAt(s, server, path)}
  {
    FrontLeadsToEntry(s);
    var i := IdIndex(s.servers, s.lru[0].serverId);
    var list := s.servers[i].cacheList;
    var k := LowerBound(list, s.lru[0].path);
    var s' := WithoutFront(s, i, k);
    assert EvictState(s) == DroppedIfEmpty(s', i);
    EntryAtServer(s, i, path);
    EntryAtWithList(s, s', i, Without(list, k), server, path);
    WithoutFrontKeepsInv(s, i, k);
    hide ListOk, Without, EntryIn, Linked, EntryAt, EvictState, LowerBound;
    EntryInWithout(list, k, path);
    if s'.servers[i].cacheList == [] {
      TimesOfDrop(s', i, server, path);
    }
  }

  lemma {:induction false} TimesOfPrune(s: State, server: Server, path: ServerPath)
    requires Linked(s)
    ensures EntryAt(PruneState(s), server, path) in {None, EntryAt(s, server, path)}
    decreases |s.lru|
  {
    if TooBig(s) {
      PruneUnfolds(s);
      hide Linked, Surplus, EvictState, EntryAt, PruneState;
      TimesOfPrune(EvictState(s), server, path);
      TimesOfEvict(s, server, path);
    }
  }

  // ---- The operations ----

  /** A stored listing has the time of the call; what else stays has the time it had. */
  lemma StoreTimes(s: State, server: Server, listing: Listing, now: int, other: Server, p: ServerPath)
    requires Linked(s)
    ensures
      var r := StoreState(s, server, listing, now);
      if other == server && p == listing.path then
        ChangeTime(r, other, p) == if Ambiguous(s, server, listing.path) then None else Some(now)
      else
        ChangeTime(r, other, p) in {None, ChangeTime(s, other, p)}
  {
    CreateKeepsInv(s, server);
    var s1, r := CreateState(s, server), StoreState(s, server, listing, now);
    var i := ServerIndex(s1.servers, server);
    assert r == StoreAt(s1, i, listing, now);
    TimesOfCreate(s, server, other, p);
    TimeOfCached(r, other, p);
    if other == server && p == listing.path {
      if Ambiguous(s, server, listing.path) {
        AmbiguousStaysOut(s, server, listing, now);
      } else {
        StoredIsThere(s, server, listing, now);
      }
    }
    hide Linked, Surplus, StoreState, StoreAt, CreateState, TooBig, Ambiguous, ListingAt;
    StoreTimesAt(s1, i, listing, now, other, p);
  }

  lemma StoreTimesAt(s: State, i: nat, listing: Listing, now: int, other: Server, p: ServerPath)
    requires Linked(s) && i < |s.servers|
    ensures
      var r := StoreAt(s, i, listing, now);
      ChangeTime(r, other, p) in {None, if other == s.servers[i].server && p == listing.path then Some(now) else ChangeTime(s, other, p)}
  {
    hide Linked, Surplus, StoreAt, TooBig;
    var list := s.servers[i].cacheList;
    var k := LowerBound(list, listing.path);
    EntryAtServer(s, i, listing.path);
    assert !Hits(list, listing.path) ==> ChangeTime(s, s.servers[i].server, listing.path) == None;
    if Hits(list, listing.path) {
      StoreHit(s, i, listing, now);
      assert EntryAt(TouchState(s, i, k), other, p) == EntryAt(s, other, p);
      hide ReplaceState, EntryAt;
      TimesOfReplace(TouchState(s, i, k), i, k, listing, now, other, p);
    } else if IsNew(list, listing.path) {
      StoreNew(s, i, listing, now);
      hide EntryAt, InsertState, PruneState, NewestIs;
      TimesOfPrune(InsertState(s, i, listing, now), other, p);
      TimesOfInsert(s, i, listing, now, other, p);
    } else {
      StoreAmbiguous(s, i, listing, now);
      var s2 := TouchState(s, i, k).(total := s.total + |listing.entries|);
      assert EntryAt(s2, other, p) == EntryAt(s, other, p);
      hide EntryAt, PruneState, TouchState;
      TimesOfPrune(s2, other, p);
    }
  }

  lemma EditServerTimes(s: State, server: Server, edit: Edit, touch: bool, now: int, other: Server, p: ServerPath)
    requires Linked(s) && KeepsPaths(edit)
    ensures ChangeTime(EditServer(s, server, edit, touch, now), other, p) ==
      if ChangeTime(s, other, p).Some? && other == server && edit.concerns(p) then Some(now) else ChangeTime(s, other, p)
  {
    hide Linked, KeepsPaths, EditState;
    var i := ServerIndex(s.servers, server);
    if i < |s.servers| {
      hide ChangeTime;
      TimesOfEdit(s, i, edit, touch, now, other, p);
    }
  }

  /** An update sets the times of the directory's listings, in whatever case, and no others. */
  lemma UpdateFileTimes(s: State, server: Server, path: ServerPath, name: string, mayCreate: bool, typ: FileType, size: int,
                        ownerGroup: string, now: int, lower: Folding, other: Server, p: ServerPath)
    requires Linked(s)
    ensures ChangeTime(UpdateFileState(s, server, path, name, mayCreate, typ, size, ownerGroup, now, lower), other, p) ==
      if ChangeTime(s, other, p).Some? && other == server && SameButCase(p, path, lower) then Some(now) else ChangeTime(s, other, p)
  {
    var edit := UpdateFileEdit(path, name, mayCreate, typ, size, ownerGroup, lower);
    EditsAreFaithful(path, name, true, mayCreate, typ, size, ownerGroup, lower);
    FaithfulEditKeepsPaths(edit, lower);
    EditServerTimes(s, server, edit, true, now, other, p);
    ConcernsIs(path, p, lower);
    hide Linked, KeepsPaths, EditServer, FaithfulEdit, ChangeTime, EqualNoCase, SameButCase;
  }

  lemma RemoveFileTimes(s: State, server: Server, path: ServerPath, name: string, now: int, lower: Folding, other: Server, p: ServerPath)
    requires Linked(s)
    ensures ChangeTime(RemoveFileState(s, server, path, name, now, lower), other, p) ==
      if ChangeTime(s, other, p).Some? && other == server && SameButCase(p, path, lower) then Some(now) else ChangeTime(s, other, p)
  {
    var edit := RemoveFileEdit(path, name, lower);
    EditsAreFaithful(path, name, true, true, UnknownType, 0, "", lower);
    FaithfulEditKeepsPaths(edit, lower);
    EditServerTimes(s, server, edit, true, now, other, p);
    ConcernsIs(path, p, lower);
    hide Linked, KeepsPaths, EditServer, FaithfulEdit, ChangeTime, EqualNoCase, SameButCase;
  }

  lemma EditedTwice(s: State, i: nat, edit: Edit, below: Edit, now: int, other: Server, p: ServerPath)
    requires Linked(s) && i < |s.servers| && KeepsPaths(edit) && KeepsPaths(below)
    ensures
      var s1, t := EditState(s, i, edit, true, now), ChangeTime(s, other, p);
      var mine := t.Some? && other == s.servers[i].server;
      && |s1.servers| == |s.servers|
      && ChangeTime(s1, other, p) == (if mine && edit.concerns(p) then Some(now) else t)
      && ChangeTime(EditState(s1, i, below, false, now), other, p) == (if mine && (edit.concerns(p) || below.concerns(p)) then Some(now) else t)
  {
    var s1 := EditState(s, i, edit, true, now);
    EditKeepsInv(s, i, edit, true, now);
    assert s1.servers[i].server == s.servers[i].server && |s1.servers| == |s.servers|;
    hide Linked, Surplus, KeepsPaths, EditState, ChangeTime;
    TimesOfEdit(s, i, edit, true, now, other, p);
    TimesOfEdit(s1, i, below, false, now, other, p);
  }

  /** An invalidation sets the times of all listings that it makes unsure. */
  lemma InvalidateFileTimes(s: State, server: Server, path: ServerPath, name: string, cmpCase: bool, now: int, lower: Folding,
                            other: Server, p: ServerPath)
    requires Linked(s)
    ensures ChangeTime(InvalidateFileState(s, server, path, name, cmpCase, now, lower), other, p) ==
      if ChangeTime(s, other, p).Some? && other == server &&
         (Concerned(p, path, cmpCase, lower) ||
          (KnownAsDir(s, server, path, name, cmpCase, lower) && CanEnter(path, name) && BelowToo(p, path, cmpCase, lower)))
      then Some(now) else ChangeTime(s, other, p)
  {
    var i := ServerIndex(s.servers, server);
    var edit, below := InvalidateFileEdit(path, name, cmpCase, lower), InvalidateBelowEdit(path, cmpCase, lower);
    InvalidateConcernsIs(path, name, cmpCase, lower, p);
    BelowTooIs(path, cmpCase, lower, p);
    KnowsDirIs(s, server, path, name, cmpCase, lower);
    EditsAreFaithful(path, name, cmpCase, true, UnknownType, 0, "", lower);
    FaithfulEditKeepsPaths(edit, lower);
    FaithfulEditKeepsPaths(below, lower);
    assert below.concerns(p) == IsSubdirBy(p, path, FoldFor(cmpCase, lower), true);
    NoServerNoTime(s, server, p);
    hide Linked, KeepsPaths, EditState, FaithfulEdit, ChangeTime, InvalidateFileEdit, InvalidateBelowEdit, Concerned, BelowToo, KnowsDir,
      KnownAsDir, CanEnter, FoundDir, IsSubdirBy, FoldFor;
    if i < |s.servers| {
      FoundDirInView(s, i, path, name, cmpCase, lower);
      EditedTwice(s, i, edit, below, now, other, p);
    }
  }

  lemma NoServerNoTime(s: State, server: Server, p: ServerPath)
    ensures ServerIndex(s.servers, server) == |s.servers| ==> ChangeTime(s, server, p).None?
    ensures ServerIndex(s.servers, server) < |s.servers| ==> s.servers[ServerIndex(s.servers, server)].server == server
  {
  }

  /** Of a removed directory and what is below it no times are left; removing it is a removal as a file. */
  lemma RemoveDirTimes(s: State, server: Server, path: ServerPath, name: string, now: int, lower: Folding, other: Server, p: ServerPath)
    requires Linked(s)
    ensures ChangeTime(RemoveDirState(s, server, path, name, now, lower), other, p) ==
      if ChangeTime(s, other, p).None? || (other == server && IsInDir(p, path, name, lower)) then None
      else if other == server && SameButCase(p, path, lower) then Some(now)
      else ChangeTime(s, other, p)
  {
    var goes := GoesWithDir(path, name, lower);
    var s1 := EraseServer(s, server, goes);
    EraseServerIsGood(s, server, goes, lower);
    assert Linked(s1);
    RemoveFileTimes(s1, server, path, name, now, lower, other, p);
    GoesWithDirIs(path, name, lower, p);
    assert EntryAt(s1, other, p) == if other == server && goes(p) then None else EntryAt(s, other, p) by {
      var i := ServerIndex(s.servers, server);
      if i < |s.servers| {
        hide Linked, EraseState, EntryAt;
        TimesOfErase(s, i, goes, other, p);
      }
    }
    hide Linked, EraseServer, RemoveFileState, EntryAt, GoesWithDir, SameButCase, IsInDir;
  }

  /** Renaming a file in place and changing its owner change no times, and a lookup does not either. */
  lemma PutKeepsTimes(s: State, server: Server, path: ServerPath, listing: Listing, other: Server, p: ServerPath)
    requires Linked(s) && listing.path == path
    ensures ChangeTime(PutListing(s, server, path, listing), other, p) == ChangeTime(s, other, p)
    ensures ChangeTime(LookupState(s, server, path), other, p) == ChangeTime(s, other, p)
  {
    var i := ServerIndex(s.servers, server);
    if i < |s.servers| && Hits(s.servers[i].cacheList, path) {
      var k := LowerBound(s.servers[i].cacheList, path);
      var e := s.servers[i].cacheList[k];
      assert EntryAt(s, server, path) == Some(e);
      hide EntryAt, ReplaceState, Linked;
      TimesOfReplace(s, i, k, listing, e.modificationTime, other, p);
    }
  }
}
