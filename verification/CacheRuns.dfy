/**
 Whole runs of the directory cache (src/engine/directorycache.cpp).  Whatever operations are called, the LRU
 list stays in bijection with the entries, the file count is right, and a cached listing without unsure bits is
 the one last stored for its path.
 */
module CacheRuns {
  import opened Options
  import opened ServerPaths
  import PathFormats
  import opened DirectoryListing
  import opened CacheState
  import opened CachePruning
  import opened CacheView
  import opened CacheStore
  import opened CacheEdits

  // ---- The operations on states ----

  /** The comparison of paths that ignores case; any two empty paths are the same. */
  predicate EqualNoCase(p: ServerPath, q: ServerPath, lower: Folding) {
    if p.data.None? || q.data.None? then p.data.None? && q.data.None?
    else
      && p.typ == q.typ
      && |p.data.value.segments| == |q.data.value.segments|
      && SamePrefix(p.data.value.prefix, q.data.value.prefix, lower)
      && AgreeUpTo(p.data.value.segments, q.data.value.segments, |p.data.value.segments|, lower)
  }

  function EditServer(s: State, server: Server, edit: Edit, touch: bool, now: int): State {
    var i := ServerIndex(s.servers, server);
    if i < |s.servers| then EditState(s, i, edit, touch, now) else s
  }

  function EraseServer(s: State, server: Server, goes: ServerPath -> bool): State {
    var i := ServerIndex(s.servers, server);
    if i < |s.servers| then EraseState(s, i, goes) else s
  }

  function InvalidateServerState(s: State, server: Server): State {
    var i := ServerIndex(s.servers, server);
    if i < |s.servers| then DropState(EraseState(s, i, _ => true), i) else s
  }

  /** A lookup that hits makes the entry the most recently used. */
  function LookupState(s: State, server: Server, path: ServerPath): State {
    var i := ServerIndex(s.servers, server);
    if i < |s.servers| && Hits(s.servers[i].cacheList, path)
    then TouchState(s, i, LowerBound(s.servers[i].cacheList, path))
    else s
  }

  /** Changes the listing found for the path, if any, without touching the LRU list. */
  function PutListing(s: State, server: Server, path: ServerPath, listing: Listing): State {
    var i := ServerIndex(s.servers, server);
    if i < |s.servers| && Hits(s.servers[i].cacheList, path)
    then
      var k := LowerBound(s.servers[i].cacheList, path);
      ReplaceState(s, i, k, listing, s.servers[i].cacheList[k].modificationTime)
    else s
  }

  function FoldFor(cmpCase: bool, lower: Folding): Folding {
    if cmpCase then EXACT else lower
  }

  function InvalidateFileEdit(path: ServerPath, name: string, cmpCase: bool, lower: Folding): Edit {
    Edit(p => if cmpCase then path == p else EqualNoCase(path, p, lower),
         l => InvalidatedFile(l, name, FoldFor(cmpCase, lower)))
  }

  /** The second loop compares with the directory itself, not with the child it has just computed. */
  function InvalidateBelowEdit(path: ServerPath, cmpCase: bool, lower: Folding): Edit {
    Edit(p => IsSubdirBy(p, path, FoldFor(cmpCase, lower), true), l => Flagged(l, UNSURE_UNKNOWN))
  }

  function UpdateFileEdit(path: ServerPath, name: string, mayCreate: bool, typ: FileType, size: int, ownerGroup: string, lower: Folding): Edit {
    Edit(p => EqualNoCase(path, p, lower), l => UpdatedFile(l, name, mayCreate, typ, size, ownerGroup, lower))
  }

  function RemoveFileEdit(path: ServerPath, name: string, lower: Folding): Edit {
    Edit(p => EqualNoCase(path, p, lower), l => RemovedFile(l, name, lower))
  }

  function UpdateFileState(s: State, server: Server, path: ServerPath, name: string, mayCreate: bool, typ: FileType,
                           size: int, ownerGroup: string, now: int, lower: Folding): State {
    EditServer(s, server, UpdateFileEdit(path, name, mayCreate, typ, size, ownerGroup, lower), true, now)
  }

  function RemoveFileState(s: State, server: Server, path: ServerPath, name: string, now: int, lower: Folding): State {
    EditServer(s, server, RemoveFileEdit(path, name, lower), true, now)
  }

  /** Some entry the first loop looked at has a directory of that name. */
  predicate FoundDir(list: seq<CacheEntry>, edit: Edit, name: string, fold: Folding) {
    exists k :: 0 <= k < |list| && edit.concerns(list[k].listing.path) && NamesDir(list[k].listing.entries, name, fold)
  }

  /** Whether `path` can be changed into the child. */
  predicate CanEnter(path: ServerPath, name: string) {
    PathFormats.Changed(path.typ, path.data, name).Some?
  }

  function InvalidateFileState(s: State, server: Server, path: ServerPath, name: string, cmpCase: bool,
                               now: int, lower: Folding): State {
    var i := ServerIndex(s.servers, server);
    if i == |s.servers| then s
    else
      var edit := InvalidateFileEdit(path, name, cmpCase, lower);
      var s1 := EditState(s, i, edit, true, now);
      if FoundDir(s.servers[i].cacheList, edit, name, FoldFor(cmpCase, lower)) && CanEnter(path, name)
      then EditState(s1, i, InvalidateBelowEdit(path, cmpCase, lower), false, now)
      else s1
  }

  function Child(path: ServerPath, name: string): ServerPath {
    if path.data.None? then path
    else path.(data := Some(path.data.value.(segments := path.data.value.segments + [name])))
  }

  function GoesWithDir(path: ServerPath, name: string, lower: Folding): ServerPath -> bool {
    var child := Child(path, name);
    p => child.data.Some? && (p == child || IsSubdirBy(p, child, lower, false))
  }

  function RemoveDirState(s: State, server: Server, path: ServerPath, name: string, now: int, lower: Folding): State {
    RemoveFileState(EraseServer(s, server, GoesWithDir(path, name, lower)), server, path, name, now, lower)
  }

  function RenameState(s: State, server: Server, pathFrom: ServerPath, from: string, pathTo: ServerPath, to: string,
                       now: int, lower: Folding): State {
    if ListingAt(s, server, pathFrom).None? then InvalidateServerState(s, server)
    else
      var s1 := LookupState(s, server, pathFrom);
      if pathFrom == pathTo then RenameHere(RemoveFileState(s1, server, pathFrom, to, now, lower), server, pathFrom, from, to, now, lower)
      else RenameAway(s1, server, pathFrom, from, pathTo, to, now, lower)
  }

  function RenameHere(s: State, server: Server, path: ServerPath, from: string, to: string, now: int, lower: Folding): State {
    var l := ListingAt(s, server, path);
    if l.None? then s
    else
      var i := FirstNamed(l.value.entries, from);
      if i == |l.value.entries| then s
      else if l.value.entries[i].isDir then
        var s1 := RemoveDirState(s, server, path, from, now, lower);
        var s2 := RemoveDirState(s1, server, path, to, now, lower);
        UpdateFileState(s2, server, path, to, true, DirEntry, -1, "", now, lower)
      else
        PutListing(s, server, path, RenamedFile(l.value, i, to))
  }

  function RenameAway(s: State, server: Server, pathFrom: ServerPath, from: string, pathTo: ServerPath, to: string,
                      now: int, lower: Folding): State {
    var l := ListingAt(s, server, pathFrom);
    if l.None? then s
    else
      var i := FirstNamed(l.value.entries, from);
      if i == |l.value.entries| then s
      else if l.value.entries[i].isDir then
        UpdateFileState(RemoveDirState(s, server, pathFrom, from, now, lower), server, pathTo, to, true, DirEntry, -1, "", now, lower)
      else
        UpdateFileState(RemoveFileState(s, server, pathFrom, from, now, lower), server, pathTo, to, true, FileEntry, -1, "", now, lower)
  }

  function UpdateOwnerGroupState(s: State, server: Server, path: ServerPath, name: string, ownerGroup: string): State {
    var l := ListingAt(s, server, path);
    if l.None? then InvalidateServerState(s, server)
    else
      var s1 := LookupState(s, server, path);
      var i := FirstNamed(l.value.entries, name);
      if i == |l.value.entries| then InvalidateServerState(s1, server)
      else if l.value.entries[i].isDir then s1
      else PutListing(s1, server, path, ReownedFile(l.value, i, ownerGroup))
  }

  // ---- What all of them but storing have in common ----

  /** The bookkeeping is kept, and what is still cached was cached before and has been treated faithfully. */
  ghost predicate GoodStep(s: State, s': State, lower: Folding) {
    && Linked(s') && Surplus(s') == Surplus(s) && |s'.lru| <= |s.lru|
    && Derived(s, s', lower)
  }

  ghost predicate Derived(s: State, s': State, lower: Folding) {
    forall server, path ::
      ListingAt(s', server, path).Some? ==>
        && ListingAt(s, server, path).Some?
        && Faithful(ListingAt(s, server, path).value, ListingAt(s', server, path).value, lower)
  }

  lemma GoodStepsCompose(a: State, b: State, c: State, lower: Folding)
    requires GoodStep(a, b, lower) && GoodStep(b, c, lower)
    ensures GoodStep(a, c, lower)
  {
    hide Linked, Surplus, ListingAt, Faithful;
    forall server, path | ListingAt(c, server, path).Some?
      ensures ListingAt(a, server, path).Some?
      ensures Faithful(ListingAt(a, server, path).value, ListingAt(c, server, path).value, lower)
    {
      FaithfulIsTransitive(ListingAt(a, server, path).value, ListingAt(b, server, path).value, ListingAt(c, server, path).value, lower);
    }
  }

  lemma NothingIsGood(s: State, lower: Folding)
    requires Linked(s)
    ensures GoodStep(s, s, lower)
  {
    hide Linked, Surplus, ListingAt, Faithful;
    forall server, path | ListingAt(s, server, path).Some?
      ensures Faithful(ListingAt(s, server, path).value, ListingAt(s, server, path).value, lower)
    {
      FaithfulIsReflexive(ListingAt(s, server, path).value, lower);
    }
  }

  ghost predicate FaithfulEdit(edit: Edit, lower: Folding) {
    forall l :: Faithful(l, edit.change(l), lower)
  }

  lemma FaithfulEditKeepsPaths(edit: Edit, lower: Folding)
    requires FaithfulEdit(edit, lower)
    ensures KeepsPaths(edit)
  {
    forall l ensures edit.change(l).path == l.path {
      assert Faithful(l, edit.change(l), lower);
    }
  }

  lemma TouchedKeepsLength(lru: seq<Node>, list: seq<CacheEntry>, edit: Edit)
    ensures |Touched(lru, list, edit)| == |lru|
  {
    TouchedKeeps(lru, list, edit);
    assert |multiset(Touched(lru, list, edit))| == |multiset(lru)|;
  }

  lemma {:induction false} UnlinkingShortens(lru: seq<Node>, gone: seq<CacheEntry>)
    ensures |UnlinkedAll(lru, gone)| <= |lru|
    decreases |gone|
  {
    if gone != [] {
      UnlinkingShortens(Unlinked(lru, gone[0].lru.GetOr(0)), gone[1..]);
    }
  }

  lemma EditIsGood(s: State, i: nat, edit: Edit, touch: bool, now: int, lower: Folding)
    requires Linked(s) && i < |s.servers| && FaithfulEdit(edit, lower)
    ensures GoodStep(s, EditState(s, i, edit, touch, now), lower)
  {
    var s' := EditState(s, i, edit, touch, now);
    FaithfulEditKeepsPaths(edit, lower);
    EditKeepsInv(s, i, edit, touch, now);
    TouchedKeepsLength(s.lru, s.servers[i].cacheList, edit);
    hide Linked, Surplus, ListingAt, Faithful, EditState, KeepsPaths;
    forall server, path | ListingAt(s', server, path).Some?
      ensures ListingAt(s, server, path).Some?
      ensures Faithful(ListingAt(s, server, path).value, ListingAt(s', server, path).value, lower)
    {
      ViewOfEdit(s, i, edit, touch, now, server, path);
      FaithfulIsReflexive(ListingAt(s, server, path).value, lower);
    }
  }

  lemma EditServerIsGood(s: State, server: Server, edit: Edit, touch: bool, now: int, lower: Folding)
    requires Linked(s) && FaithfulEdit(edit, lower)
    ensures GoodStep(s, EditServer(s, server, edit, touch, now), lower)
  {
    var i := ServerIndex(s.servers, server);
    hide Linked, FaithfulEdit, GoodStep, EditState;
    if i < |s.servers| {
      EditIsGood(s, i, edit, touch, now, lower);
    } else {
      NothingIsGood(s, lower);
    }
  }

  lemma EraseIsGood(s: State, i: nat, goes: ServerPath -> bool, lower: Folding)
    requires Linked(s) && i < |s.servers|
    ensures GoodStep(s, EraseState(s, i, goes), lower)
  {
    var s' := EraseState(s, i, goes);
    EraseKeepsInv(s, i, goes);
    UnlinkingShortens(s.lru, Selected(s.servers[i].cacheList, goes, true));
    hide Linked, Surplus, ListingAt, Faithful, EraseState;
    forall server, path | ListingAt(s', server, path).Some?
      ensures ListingAt(s, server, path).Some?
      ensures Faithful(ListingAt(s, server, path).value, ListingAt(s', server, path).value, lower)
    {
      ViewOfErase(s, i, goes, server, path);
      FaithfulIsReflexive(ListingAt(s, server, path).value, lower);
    }
  }

  lemma EraseServerIsGood(s: State, server: Server, goes: ServerPath -> bool, lower: Folding)
    requires Linked(s)
    ensures GoodStep(s, EraseServer(s, server, goes), lower)
  {
    var i := ServerIndex(s.servers, server);
    hide Linked, GoodStep, EraseState;
    if i < |s.servers| {
      EraseIsGood(s, i, goes, lower);
    } else {
      NothingIsGood(s, lower);
    }
  }

  lemma {:induction false} NothingSelected(list: seq<CacheEntry>)
    ensures Selected(list, _ => true, false) == []
  {
    if list != [] {
      NothingSelected(list[1..]);
    }
  }

  lemma DropIsGood(s: State, i: nat, lower: Folding)
    requires Linked(s) && i < |s.servers| && s.servers[i].cacheList == []
    ensures GoodStep(s, DropState(s, i), lower)
  {
    DropKeepsInv(s, i);
    hide Linked, Surplus, ListingAt, Faithful, DropState;
    forall server, path | ListingAt(DropState(s, i), server, path).Some?
      ensures ListingAt(s, server, path).Some?
      ensures Faithful(ListingAt(s, server, path).value, ListingAt(DropState(s, i), server, path).value, lower)
    {
      ViewOfDrop(s, i, server, path);
      FaithfulIsReflexive(ListingAt(s, server, path).value, lower);
    }
  }

  lemma InvalidateServerIsGood(s: State, server: Server, lower: Folding)
    requires Linked(s)
    ensures GoodStep(s, InvalidateServerState(s, server), lower)
  {
    var i := ServerIndex(s.servers, server);
    if i < |s.servers| {
      var goes := (_: ServerPath) => true;
      var s1 := EraseState(s, i, goes);
      assert s1.servers[i].cacheList == [] by {
        NothingSelected(s.servers[i].cacheList);
      }
      EraseIsGood(s, i, goes, lower);
      assert Linked(s1);
      hide Linked, EraseState, DropState, Derived, Surplus;
      DropIsGood(s1, i, lower);
      GoodStepsCompose(s, s1, DropState(s1, i), lower);
    } else {
      hide GoodStep;
      NothingIsGood(s, lower);
    }
  }

  lemma LookupIsGood(s: State, server: Server, path: ServerPath, lower: Folding)
    requires Linked(s)
    ensures GoodStep(s, LookupState(s, server, path), lower)
    ensures forall other, p :: ListingAt(LookupState(s, server, path), other, p) == ListingAt(s, other, p)
  {
    var s' := LookupState(s, server, path);
    var i := ServerIndex(s.servers, server);
    assert s'.servers == s.servers;
    NothingIsGood(s, lower);
    if i < |s.servers| && Hits(s.servers[i].cacheList, path) {
      TouchKeepsInv(s, i, LowerBound(s.servers[i].cacheList, path));
      TouchKeepsLength(s, i, LowerBound(s.servers[i].cacheList, path));
    }
    assert forall other, p :: ListingAt(s', other, p) == ListingAt(s, other, p);
    hide ListingAt, Linked, Surplus, Faithful;
  }

  lemma PutIsGood(s: State, server: Server, path: ServerPath, listing: Listing, lower: Folding)
    requires Linked(s)
    requires ListingAt(s, server, path).Some? ==> Faithful(ListingAt(s, server, path).value, listing, lower)
    ensures GoodStep(s, PutListing(s, server, path, listing), lower)
  {
    var i := ServerIndex(s.servers, server);
    if i < |s.servers| && Hits(s.servers[i].cacheList, path) {
      var k := LowerBound(s.servers[i].cacheList, path);
      var time := s.servers[i].cacheList[k].modificationTime;
      var s' := ReplaceState(s, i, k, listing, time);
      assert listing.path == path && PutListing(s, server, path, listing) == s';
      ReplaceKeepsInv(s, i, k, listing, time);
      ReplaceKeepsLru(s, i, k, listing, time);
      hide Linked, Surplus, ListingAt, Faithful, ReplaceState, PutListing;
      forall other, p | ListingAt(s', other, p).Some?
        ensures ListingAt(s, other, p).Some?
        ensures Faithful(ListingAt(s, other, p).value, ListingAt(s', other, p).value, lower)
      {
        ViewOfReplace(s, i, k, listing, time, other, p);
        FaithfulIsReflexive(ListingAt(s, other, p).value, lower);
      }
    } else {
      NothingIsGood(s, lower);
      hide GoodStep;
    }
  }

  // ---- Each operation ----

  lemma EditsAreFaithful(path: ServerPath, name: string, cmpCase: bool, mayCreate: bool, typ: FileType, size: int,
                         ownerGroup: string, lower: Folding)
    ensures FaithfulEdit(InvalidateFileEdit(path, name, cmpCase, lower), lower)
    ensures FaithfulEdit(InvalidateBelowEdit(path, cmpCase, lower), lower)
    ensures FaithfulEdit(UpdateFileEdit(path, name, mayCreate, typ, size, ownerGroup, lower), lower)
    ensures FaithfulEdit(RemoveFileEdit(path, name, lower), lower)
  {
    hide Faithful, InvalidatedFile, UpdatedFile, RemovedFile, Flagged, FoldFor;
    forall l
      ensures Faithful(l, InvalidateFileEdit(path, name, cmpCase, lower).change(l), lower)
      ensures Faithful(l, InvalidateBelowEdit(path, cmpCase, lower).change(l), lower)
      ensures Faithful(l, UpdateFileEdit(path, name, mayCreate, typ, size, ownerGroup, lower).change(l), lower)
      ensures Faithful(l, RemoveFileEdit(path, name, lower).change(l), lower)
    {
      InvalidateIsFaithful(l, name, FoldFor(cmpCase, lower), lower);
      FlagIsFaithful(l, lower);
      UpdateIsFaithful(l, name, mayCreate, typ, size, ownerGroup, lower, lower);
      RemoveIsFaithful(l, name, lower, lower);
    }
  }

  lemma UpdateFileIsGood(s: State, server: Server, path: ServerPath, name: string, mayCreate: bool, typ: FileType,
                         size: int, ownerGroup: string, now: int, lower: Folding)
    requires Linked(s)
    ensures GoodStep(s, UpdateFileState(s, server, path, name, mayCreate, typ, size, ownerGroup, now, lower), lower)
  {
    EditsAreFaithful(path, name, true, mayCreate, typ, size, ownerGroup, lower);
    hide GoodStep, FaithfulEdit, Linked, EditServer;
    EditServerIsGood(s, server, UpdateFileEdit(path, name, mayCreate, typ, size, ownerGroup, lower), true, now, lower);
  }

  lemma RemoveFileIsGood(s: State, server: Server, path: ServerPath, name: string, now: int, lower: Folding)
    requires Linked(s)
    ensures GoodStep(s, RemoveFileState(s, server, path, name, now, lower), lower)
  {
    EditsAreFaithful(path, name, true, true, UnknownType, 0, "", lower);
    hide GoodStep, FaithfulEdit, Linked, EditServer;
    EditServerIsGood(s, server, RemoveFileEdit(path, name, lower), true, now, lower);
  }

  lemma InvalidateFileIsGood(s: State, server: Server, path: ServerPath, name: string, cmpCase: bool,
                             now: int, lower: Folding)
    requires Linked(s)
    ensures GoodStep(s, InvalidateFileState(s, server, path, name, cmpCase, now, lower), lower)
  {
    var i := ServerIndex(s.servers, server);
    EditsAreFaithful(path, name, cmpCase, true, UnknownType, 0, "", lower);
    if i == |s.servers| {
      NothingIsGood(s, lower);
      hide GoodStep;
    } else {
      var edit := InvalidateFileEdit(path, name, cmpCase, lower);
      var below := InvalidateBelowEdit(path, cmpCase, lower);
      var s1 := EditState(s, i, edit, true, now);
      assert i < |s1.servers|;
      hide FaithfulEdit, Linked, EditState, FoundDir, CanEnter, Derived, Surplus;
      EditIsGood(s, i, edit, true, now, lower);
      assert Linked(s1);
      EditIsGood(s1, i, below, false, now, lower);
      GoodStepsCompose(s, s1, EditState(s1, i, below, false, now), lower);
    }
  }

  lemma RemoveDirIsGood(s: State, server: Server, path: ServerPath, name: string, now: int, lower: Folding)
    requires Linked(s)
    ensures GoodStep(s, RemoveDirState(s, server, path, name, now, lower), lower)
  {
    var goes := GoesWithDir(path, name, lower);
    var s1 := EraseServer(s, server, goes);
    hide Linked, EraseServer, RemoveFileState, Derived, Surplus;
    EraseServerIsGood(s, server, goes, lower);
    RemoveFileIsGood(s1, server, path, name, now, lower);
    GoodStepsCompose(s, s1, RemoveFileState(s1, server, path, name, now, lower), lower);
  }

  lemma RenameHereIsGood(s: State, server: Server, path: ServerPath, from: string, to: string, now: int, lower: Folding)
    requires Linked(s)
    ensures GoodStep(s, RenameHere(s, server, path, from, to, now, lower), lower)
  {
    var l, r := ListingAt(s, server, path), RenameHere(s, server, path, from, to, now, lower);
    hide Linked, Derived, Surplus, RemoveDirState, UpdateFileState, PutListing, ListingAt, Faithful, RenamedFile;
    NothingIsGood(s, lower);
    if l.Some? {
      var i := FirstNamed(l.value.entries, from);
      if i < |l.value.entries| {
        if l.value.entries[i].isDir {
          var s1 := RemoveDirState(s, server, path, from, now, lower);
          RemoveDirIsGood(s, server, path, from, now, lower);
          var s2 := RemoveDirState(s1, server, path, to, now, lower);
          RemoveDirIsGood(s1, server, path, to, now, lower);
          UpdateFileIsGood(s2, server, path, to, true, DirEntry, -1, "", now, lower);
          GoodStepsCompose(s, s1, s2, lower);
          GoodStepsCompose(s, s2, r, lower);
        } else {
          RenameIsFaithful(l.value, i, to, lower);
          PutIsGood(s, server, path, RenamedFile(l.value, i, to), lower);
        }
      }
    }
  }

  lemma RenameAwayIsGood(s: State, server: Server, pathFrom: ServerPath, from: string, pathTo: ServerPath, to: string,
                         now: int, lower: Folding)
    requires Linked(s)
    ensures GoodStep(s, RenameAway(s, server, pathFrom, from, pathTo, to, now, lower), lower)
  {
    var l, r := ListingAt(s, server, pathFrom), RenameAway(s, server, pathFrom, from, pathTo, to, now, lower);
    hide Linked, Derived, Surplus, RemoveDirState, RemoveFileState, UpdateFileState, ListingAt;
    NothingIsGood(s, lower);
    if l.Some? {
      var i := FirstNamed(l.value.entries, from);
      if i < |l.value.entries| {
        var isDir := l.value.entries[i].isDir;
        var s1 := if isDir then RemoveDirState(s, server, pathFrom, from, now, lower) else RemoveFileState(s, server, pathFrom, from, now, lower);
        if isDir {
          RemoveDirIsGood(s, server, pathFrom, from, now, lower);
        } else {
          RemoveFileIsGood(s, server, pathFrom, from, now, lower);
        }
        UpdateFileIsGood(s1, server, pathTo, to, true, if isDir then DirEntry else FileEntry, -1, "", now, lower);
        GoodStepsCompose(s, s1, r, lower);
      }
    }
  }

  lemma RenameIsGood(s: State, server: Server, pathFrom: ServerPath, from: string, pathTo: ServerPath, to: string,
                     now: int, lower: Folding)
    requires Linked(s)
    ensures GoodStep(s, RenameState(s, server, pathFrom, from, pathTo, to, now, lower), lower)
  {
    var r := RenameState(s, server, pathFrom, from, pathTo, to, now, lower);
    hide Linked, Derived, Surplus, InvalidateServerState, LookupState, RemoveFileState, RenameHere, RenameAway, ListingAt;
    if ListingAt(s, server, pathFrom).None? {
      InvalidateServerIsGood(s, server, lower);
    } else {
      var s1 := LookupState(s, server, pathFrom);
      LookupIsGood(s, server, pathFrom, lower);
      if pathFrom == pathTo {
        var s2 := RemoveFileState(s1, server, pathFrom, to, now, lower);
        RemoveFileIsGood(s1, server, pathFrom, to, now, lower);
        RenameHereIsGood(s2, server, pathFrom, from, to, now, lower);
        GoodStepsCompose(s, s1, s2, lower);
        GoodStepsCompose(s, s2, r, lower);
      } else {
        RenameAwayIsGood(s1, server, pathFrom, from, pathTo, to, now, lower);
        GoodStepsCompose(s, s1, r, lower);
      }
    }
  }

  lemma UpdateOwnerGroupIsGood(s: State, server: Server, path: ServerPath, name: string, ownerGroup: string, lower: Folding)
    requires Linked(s)
    ensures GoodStep(s, UpdateOwnerGroupState(s, server, path, name, ownerGroup), lower)
  {
    var l, r := ListingAt(s, server, path), UpdateOwnerGroupState(s, server, path, name, ownerGroup);
    hide Linked, Derived, Surplus, InvalidateServerState, LookupState, PutListing, ListingAt, Faithful, ReownedFile;
    if l.None? {
      InvalidateServerIsGood(s, server, lower);
    } else {
      var s1 := LookupState(s, server, path);
      var i := FirstNamed(l.value.entries, name);
      LookupIsGood(s, server, path, lower);
      if i == |l.value.entries| {
        InvalidateServerIsGood(s1, server, lower);
      } else if l.value.entries[i].isDir {
        NothingIsGood(s1, lower);
      } else {
        ReownIsFaithful(l.value, i, ownerGroup, lower);
        PutIsGood(s1, server, path, ReownedFile(l.value, i, ownerGroup), lower);
      }
      GoodStepsCompose(s, s1, r, lower);
    }
  }

  // ---- What the operations do to the map ----

  lemma ViewOfEditServer(s: State, server: Server, edit: Edit, touch: bool, now: int, other: Server, path: ServerPath)
    requires Linked(s) && KeepsPaths(edit)
    ensures
      var l := ListingAt(s, other, path);
      ListingAt(EditServer(s, server, edit, touch, now), other, path) ==
        if l.Some? && other == server then Some(EditedListing(l.value, edit)) else l
  {
    hide Linked, KeepsPaths, EditState, EditedListing;
    var i := ServerIndex(s.servers, server);
    if i < |s.servers| {
      hide ListingAt;
      ViewOfEdit(s, i, edit, touch, now, other, path);
    }
  }

  /**
   After a write to a file, the cached listings of its directory, in whatever case, are changed as one listing is
   and are all unsure; every other listing is as it was.
   */
  lemma UpdateFileView(s: State, server: Server, path: ServerPath, name: string, mayCreate: bool, typ: FileType,
                       size: int, ownerGroup: string, now: int, lower: Folding, other: Server, p: ServerPath)
    requires Linked(s)
    ensures
      var l := ListingAt(s, other, p);
      var l' := ListingAt(UpdateFileState(s, server, path, name, mayCreate, typ, size, ownerGroup, now, lower), other, p);
      if l.Some? && other == server && EqualNoCase(path, l.value.path, lower)
      then l' == Some(UpdatedFile(l.value, name, mayCreate, typ, size, ownerGroup, lower)) && UnsureFlags(l'.value) != 0
      else l' == l
  {
    var edit := UpdateFileEdit(path, name, mayCreate, typ, size, ownerGroup, lower);
    EditsAreFaithful(path, name, true, mayCreate, typ, size, ownerGroup, lower);
    FaithfulEditKeepsPaths(edit, lower);
    ViewOfEditServer(s, server, edit, true, now, other, p);
    var l := ListingAt(s, other, p);
    hide Linked, KeepsPaths, EditServer, FaithfulEdit, ListingAt, UpdatedFile;
    if l.Some? {
      UpdateIsUnsure(l.value, name, mayCreate, typ, size, ownerGroup, lower);
    }
  }

  lemma RemoveFileView(s: State, server: Server, path: ServerPath, name: string, now: int, lower: Folding, other: Server, p: ServerPath)
    requires Linked(s)
    ensures
      var l := ListingAt(s, other, p);
      var l' := ListingAt(RemoveFileState(s, server, path, name, now, lower), other, p);
      if l.Some? && other == server && EqualNoCase(path, l.value.path, lower)
      then l' == Some(RemovedFile(l.value, name, lower)) && UnsureFlags(l'.value) != 0
      else l' == l
  {
    var edit := RemoveFileEdit(path, name, lower);
    EditsAreFaithful(path, name, true, true, UnknownType, 0, "", lower);
    FaithfulEditKeepsPaths(edit, lower);
    ViewOfEditServer(s, server, edit, true, now, other, p);
    var l := ListingAt(s, other, p);
    hide Linked, KeepsPaths, EditServer, FaithfulEdit, ListingAt, RemovedFile;
    if l.Some? {
      RemoveIsUnsure(l.value, name, lower);
    }
  }

  /** Some listing of the directory, in whatever case if that is ignored, has a subdirectory of that name. */
  ghost predicate KnowsDir(s: State, server: Server, path: ServerPath, name: string, cmpCase: bool, lower: Folding) {
    exists q ::
      && ListingAt(s, server, q).Some?
      && InvalidateFileEdit(path, name, cmpCase, lower).concerns(q)
      && NamesDir(ListingAt(s, server, q).value.entries, name, FoldFor(cmpCase, lower))
  }

  lemma FoundDirInView(s: State, i: nat, path: ServerPath, name: string, cmpCase: bool, lower: Folding)
    requires Linked(s) && i < |s.servers|
    ensures
      FoundDir(s.servers[i].cacheList, InvalidateFileEdit(path, name, cmpCase, lower), name, FoldFor(cmpCase, lower)) <==>
      KnowsDir(s, s.servers[i].server, path, name, cmpCase, lower)
  {
    var server, list := s.servers[i].server, s.servers[i].cacheList;
    var edit, fold := InvalidateFileEdit(path, name, cmpCase, lower), FoldFor(cmpCase, lower);
    assert ListOk(list);
    FindsServer(s.servers, i);
    hide Linked, InvalidateFileEdit, NamesDir, FoldFor, LowerBound;
    if FoundDir(list, edit, name, fold) {
      var k :| 0 <= k < |list| && edit.concerns(list[k].listing.path) && NamesDir(list[k].listing.entries, name, fold);
      FindsEntry(list, k);
      assert ListingAt(s, server, list[k].listing.path) == Some(list[k].listing);
    }
    if q :| && ListingAt(s, server, q).Some? && edit.concerns(q)
            && NamesDir(ListingAt(s, server, q).value.entries, name, fold) {
      assert list[LowerBound(list, q)].listing == ListingAt(s, server, q).value;
    }
  }

  /**
   What invalidating a file does to every listing of every server.  The listings of its directory get their entry
   and themselves marked.  If the file is known to be a directory there, every listing below the given directory
   is marked, not only those below the file; no other listing changes.
   */
  lemma InvalidateFileView(s: State, server: Server, path: ServerPath, name: string, cmpCase: bool, now: int,
                           lower: Folding, other: Server, p: ServerPath)
    requires Linked(s)
    ensures
      var fold := FoldFor(cmpCase, lower);
      var l := ListingAt(s, other, p);
      var l' := ListingAt(InvalidateFileState(s, server, path, name, cmpCase, now, lower), other, p);
      if l.None? || other != server then l' == l
      else
        var l1 := if InvalidateFileEdit(path, name, cmpCase, lower).concerns(l.value.path) then InvalidatedFile(l.value, name, fold) else l.value;
        l' == Some(
          if KnowsDir(s, server, path, name, cmpCase, lower) && CanEnter(path, name) && IsSubdirBy(l.value.path, path, fold, true)
          then Flagged(l1, UNSURE_UNKNOWN)
          else l1)
  {
    var i := ServerIndex(s.servers, server);
    hide Linked, ListingAt, InvalidatedFile, EqualNoCase, IsSubdirBy, FoldFor, KnowsDir, CanEnter, FoundDir, EditState;
    if i < |s.servers| {
      FoundDirInView(s, i, path, name, cmpCase, lower);
      InvalidatedTwice(s, i, path, name, cmpCase, now, lower, other, p);
    } else {
      NoSuchServer(s, server, p);
    }
  }

  lemma NoSuchServer(s: State, server: Server, p: ServerPath)
    requires ServerIndex(s.servers, server) == |s.servers|
    ensures ListingAt(s, server, p) == None
  {
  }

  /** The two loops of an invalidation, seen through one path. */
  lemma InvalidatedTwice(s: State, i: nat, path: ServerPath, name: string, cmpCase: bool, now: int, lower: Folding,
                         other: Server, p: ServerPath)
    requires Linked(s) && i < |s.servers|
    ensures
      var server := s.servers[i].server;
      var edit, below := InvalidateFileEdit(path, name, cmpCase, lower), InvalidateBelowEdit(path, cmpCase, lower);
      var s1 := EditState(s, i, edit, true, now);
      var l := ListingAt(s, other, p);
      && |s1.servers| == |s.servers|
      && ListingAt(s1, other, p) == (if l.Some? && other == server then Some(EditedListing(l.value, edit)) else l)
      && ListingAt(EditState(s1, i, below, false, now), other, p) ==
           (if l.Some? && other == server then Some(EditedListing(EditedListing(l.value, edit), below)) else l)
      && (l.Some? ==> EditedListing(l.value, edit).path == l.value.path)
  {
    var edit, below := InvalidateFileEdit(path, name, cmpCase, lower), InvalidateBelowEdit(path, cmpCase, lower);
    var s1, l := EditState(s, i, edit, true, now), ListingAt(s, other, p);
    EditsAreFaithful(path, name, cmpCase, true, UnknownType, 0, "", lower);
    FaithfulEditKeepsPaths(edit, lower);
    FaithfulEditKeepsPaths(below, lower);
    EditKeepsInv(s, i, edit, true, now);
    assert s1.servers[i].server == s.servers[i].server;
    assert l.Some? ==> edit.change(l.value).path == l.value.path;
    hide Linked, Surplus, KeepsPaths, EditState, FaithfulEdit, ListingAt, InvalidateFileEdit, InvalidateBelowEdit;
    ViewOfEdit(s, i, edit, true, now, other, p);
    ViewOfEdit(s1, i, below, false, now, other, p);
  }

  /** So the listings of the directory, and all below it if the file was known as a directory, are unsure. */
  lemma InvalidatedIsUnsure(s: State, server: Server, path: ServerPath, name: string, cmpCase: bool, now: int,
                            lower: Folding, p: ServerPath)
    requires Linked(s) && ListingAt(s, server, p).Some?
    requires
      || InvalidateFileEdit(path, name, cmpCase, lower).concerns(p)
      || (KnowsDir(s, server, path, name, cmpCase, lower) && CanEnter(path, name) && IsSubdirBy(p, path, FoldFor(cmpCase, lower), true))
    ensures
      var l' := ListingAt(InvalidateFileState(s, server, path, name, cmpCase, now, lower), server, p);
      l'.Some? && UnsureFlags(l'.value) != 0
  {
    var l, fold := ListingAt(s, server, p).value, FoldFor(cmpCase, lower);
    assert l.path == p;
    InvalidateFileView(s, server, path, name, cmpCase, now, lower, server, p);
    InvalidateIsUnsure(l, name, fold);
    MoreBits(l.flags, UNSURE_UNKNOWN);
    MoreBits(InvalidatedFile(l, name, fold).flags, UNSURE_UNKNOWN);
    hide Linked, ListingAt, InvalidatedFile, InvalidateFileState, InvalidateFileEdit, KnowsDir, CanEnter, IsSubdirBy, FoldFor;
  }

  /** Removing a directory forgets it and everything below it, in whatever case, and nothing else. */
  lemma RemoveDirView(s: State, server: Server, path: ServerPath, name: string, now: int, lower: Folding, other: Server, p: ServerPath)
    requires Linked(s)
    ensures
      var l := ListingAt(s, other, p);
      var l' := ListingAt(RemoveDirState(s, server, path, name, now, lower), other, p);
      if l.None? || (other == server && GoesWithDir(path, name, lower)(p)) then l' == None
      else if other == server && EqualNoCase(path, l.value.path, lower)
      then l' == Some(RemovedFile(l.value, name, lower)) && UnsureFlags(l'.value) != 0
      else l' == l
  {
    var goes := GoesWithDir(path, name, lower);
    var s1 := EraseServer(s, server, goes);
    EraseServerIsGood(s, server, goes, lower);
    assert Linked(s1);
    RemoveFileView(s1, server, path, name, now, lower, other, p);
    assert ListingAt(s1, other, p) == if other == server && goes(p) then None else ListingAt(s, other, p) by {
      var i := ServerIndex(s.servers, server);
      if i < |s.servers| {
        hide Linked, EraseState, ListingAt;
        ViewOfErase(s, i, goes, other, p);
      }
    }
    hide Linked, EraseServer, RemoveFileState, ListingAt, RemovedFile, GoesWithDir, EqualNoCase;
  }

  /** An invalidated server has nothing cached any more; the other servers keep everything. */
  lemma InvalidateServerView(s: State, server: Server, other: Server, p: ServerPath)
    requires Linked(s)
    ensures ListingAt(InvalidateServerState(s, server), other, p) == if other == server then None else ListingAt(s, other, p)
  {
    var i := ServerIndex(s.servers, server);
    if i < |s.servers| {
      var goes := (_: ServerPath) => true;
      var s1 := EraseState(s, i, goes);
      assert i < |s1.servers| && s1.servers[i].cacheList == [] by {
        NothingSelected(s.servers[i].cacheList);
        hide Linked, ListingAt;
      }
      assert InvalidateServerState(s, server) == DropState(s1, i);
      hide Linked, Surplus, EraseState, DropState, ListingAt, InvalidateServerState;
      EraseKeepsInv(s, i, goes);
      ViewOfErase(s, i, goes, other, p);
      ViewOfDrop(s1, i, other, p);
    }
  }

  // ---- Runs ----

  datatype Op =
    | Store(listing: Listing)
    | Lookup(path: ServerPath)
    | LookupFile(path: ServerPath, byCase: Option<Index>, byNoCase: Option<Index>)
    | InvalidateFile(path: ServerPath, name: string, cmpCase: bool)
    | UpdateFile(path: ServerPath, name: string, mayCreate: bool, typ: FileType, size: int, ownerGroup: string)
    | RemoveFile(path: ServerPath, name: string)
    | RemoveDir(path: ServerPath, name: string)
    | Rename(path: ServerPath, from: string, pathTo: ServerPath, to: string)
    | UpdateOwnerGroup(path: ServerPath, name: string, ownerGroup: string)
    | InvalidateServer

  datatype Call = Call(server: Server, now: int, op: Op)

  /** Looking a file up may fill the name maps of the listing found, as DirectoryListing proves it does. */
  ghost function FillMaps(s: State, server: Server, path: ServerPath, byCase: Option<Index>, byNoCase: Option<Index>, lower: Folding): State {
    var l := ListingAt(s, server, path);
    if l.None? || !Indexed(l.value.(byCase := byCase, byNoCase := byNoCase), lower) then s
    else PutListing(LookupState(s, server, path), server, path, l.value.(byCase := byCase, byNoCase := byNoCase))
  }

  ghost function Step(s: State, call: Call, lower: Folding): State
    requires Linked(s)
  {
    var server, now := call.server, call.now;
    match call.op
    case Store(listing) => StoreState(s, server, listing, now)
    case Lookup(path) => LookupState(s, server, path)
    case LookupFile(path, byCase, byNoCase) => FillMaps(s, server, path, byCase, byNoCase, lower)
    case InvalidateFile(path, name, cmpCase) => InvalidateFileState(s, server, path, name, cmpCase, now, lower)
    case UpdateFile(path, name, mayCreate, typ, size, og) => UpdateFileState(s, server, path, name, mayCreate, typ, size, og, now, lower)
    case RemoveFile(path, name) => RemoveFileState(s, server, path, name, now, lower)
    case RemoveDir(path, name) => RemoveDirState(s, server, path, name, now, lower)
    case Rename(path, from, pathTo, to) => RenameState(s, server, path, from, pathTo, to, now, lower)
    case UpdateOwnerGroup(path, name, og) => UpdateOwnerGroupState(s, server, path, name, og)
    case InvalidateServer => InvalidateServerState(s, server)
  }

  lemma FillMapsIsGood(s: State, server: Server, path: ServerPath, byCase: Option<Index>, byNoCase: Option<Index>, lower: Folding)
    requires Linked(s)
    ensures GoodStep(s, FillMaps(s, server, path, byCase, byNoCase, lower), lower)
  {
    var l := ListingAt(s, server, path);
    hide Linked, Derived, Surplus, LookupState, PutListing, ListingAt, Indexed;
    NothingIsGood(s, lower);
    if l.Some? && Indexed(l.value.(byCase := byCase, byNoCase := byNoCase), lower) {
      var l' := l.value.(byCase := byCase, byNoCase := byNoCase);
      var s1 := LookupState(s, server, path);
      LookupIsGood(s, server, path, lower);
      MoreBits(l.value.flags, 0);
      assert Faithful(l.value, l', lower);
      PutIsGood(s1, server, path, l', lower);
      GoodStepsCompose(s, s1, PutListing(s1, server, path, l'), lower);
    }
  }

  /** No operation but storing brings in a listing, breaks the bookkeeping or changes a listing unnoticed. */
  lemma StepIsGood(s: State, call: Call, lower: Folding)
    requires Linked(s) && !call.op.Store?
    ensures GoodStep(s, Step(s, call, lower), lower)
  {
    var server, now := call.server, call.now;
    hide Linked, GoodStep, StoreState, LookupState, FillMaps, InvalidateFileState, UpdateFileState, RemoveFileState;
    hide RemoveDirState, RenameState, UpdateOwnerGroupState, InvalidateServerState;
    match call.op
    case Lookup(path) => LookupIsGood(s, server, path, lower);
    case LookupFile(path, byCase, byNoCase) => FillMapsIsGood(s, server, path, byCase, byNoCase, lower);
    case InvalidateFile(path, name, cmpCase) => InvalidateFileIsGood(s, server, path, name, cmpCase, now, lower);
    case UpdateFile(path, name, mayCreate, typ, size, og) => UpdateFileIsGood(s, server, path, name, mayCreate, typ, size, og, now, lower);
    case RemoveFile(path, name) => RemoveFileIsGood(s, server, path, name, now, lower);
    case RemoveDir(path, name) => RemoveDirIsGood(s, server, path, name, now, lower);
    case Rename(path, from, pathTo, to) => RenameIsGood(s, server, path, from, pathTo, to, now, lower);
    case UpdateOwnerGroup(path, name, og) => UpdateOwnerGroupIsGood(s, server, path, name, og, lower);
    case InvalidateServer => InvalidateServerIsGood(s, server, lower);
  }

  lemma StepKeepsInv(s: State, call: Call, lower: Folding)
    requires Linked(s)
    ensures Linked(Step(s, call, lower))
    ensures Surplus(Step(s, call, lower)) == Surplus(s) + Miscounted(s, call)
  {
    if call.op.Store? {
      StoreKeepsInv(s, call.server, call.op.listing, call.now);
      hide Linked, Surplus, StoreState;
    } else {
      hide Linked, Surplus, Step;
      StepIsGood(s, call, lower);
    }
  }

  /** The files counted for a listing that is not stored because its path is ambiguous. */
  function Miscounted(s: State, call: Call): nat {
    if call.op.Store? && Ambiguous(s, call.server, call.op.listing.path) then |call.op.listing.entries| else 0
  }

  /** The state after a run, the oldest call first. */
  ghost function Run(calls: seq<Call>, lower: Folding): (s: State)
    ensures Linked(s)
  {
    if calls == [] then EMPTY
    else
      var before := Run(calls[..|calls| - 1], lower);
      StepKeepsInv(before, calls[|calls| - 1], lower);
      Step(before, calls[|calls| - 1], lower)
  }

  ghost function TotalMiscounted(calls: seq<Call>, lower: Folding): nat {
    if calls == [] then 0
    else TotalMiscounted(calls[..|calls| - 1], lower) + Miscounted(Run(calls[..|calls| - 1], lower), calls[|calls| - 1])
  }

  /** Not empty, and no segment has a NUL. */
  predicate Plain(path: ServerPath) {
    path.data.Some? && forall k :: 0 <= k < |path.data.value.segments| ==>
      FirstNul(path.data.value.segments[k]) == |path.data.value.segments[k]|
  }

  lemma PlainAlikeIsEqual(p: ServerPath, q: ServerPath)
    requires Plain(p) && Plain(q) && Alike(p, q)
    ensures p == q
  {
    var a, b := p.data.value.segments, q.data.value.segments;
    forall k | 0 <= k < |a| ensures a[k] == b[k] {
      assert UpToNul(a[k]) == a[k] && UpToNul(b[k]) == b[k];
    }
    assert a == b;
  }

  /** A listing that can do no harm to the count. */
  predicate Countable(call: Call) {
    call.op.Store? ==> Plain(call.op.listing.path) || (call.op.listing.path.Empty() && call.op.listing.entries == [])
  }

  /**
   Accounting over whole runs: the count is too high by exactly the files that came with a listing for an
   ambiguous path, and there is none as long as files are only stored for plain paths.
   */
  lemma {:induction false} RunsCountRight(calls: seq<Call>, lower: Folding)
    ensures Surplus(Run(calls, lower)) == TotalMiscounted(calls, lower)
    ensures (forall c :: 0 <= c < |calls| ==> Countable(calls[c])) ==> Run(calls, lower).total == AllSizes(Run(calls, lower).servers)
  {
    SurplusIsMiscounted(calls, lower);
    if forall c :: 0 <= c < |calls| ==> Countable(calls[c]) {
      NothingMiscounted(calls, lower);
    }
    hide Run, TotalMiscounted;
  }

  lemma {:induction false} SurplusIsMiscounted(calls: seq<Call>, lower: Folding)
    ensures Surplus(Run(calls, lower)) == TotalMiscounted(calls, lower)
  {
    if calls != [] {
      var before, last := calls[..|calls| - 1], calls[|calls| - 1];
      assert Run(calls, lower) == Step(Run(before, lower), last, lower);
      assert TotalMiscounted(calls, lower) == TotalMiscounted(before, lower) + Miscounted(Run(before, lower), last);
      hide Linked, Step, Surplus, Run, TotalMiscounted, Miscounted;
      SurplusIsMiscounted(before, lower);
      StepKeepsInv(Run(before, lower), last, lower);
    }
  }

  lemma {:induction false} NothingMiscounted(calls: seq<Call>, lower: Folding)
    requires forall c :: 0 <= c < |calls| ==> Countable(calls[c])
    ensures TotalMiscounted(calls, lower) == 0
  {
    hide Countable, Miscounted, Run;
    if calls != [] {
      var before, last := calls[..|calls| - 1], calls[|calls| - 1];
      assert forall c :: 0 <= c < |before| ==> before[c] == calls[c];
      NothingMiscounted(before, lower);
      OrdinaryIsCounted(before, last, lower);
    }
  }

  lemma OrdinaryIsCounted(before: seq<Call>, last: Call, lower: Folding)
    requires Countable(last) && forall c :: 0 <= c < |before| ==> Countable(before[c])
    ensures Miscounted(Run(before, lower), last) == 0
  {
    var s, path := Run(before, lower), if last.op.Store? then last.op.listing.path else NOPATH;
    hide Linked, Run, ListingAt, Ambiguous, Plain, Faithful;
    if last.op.Store? && Ambiguous(s, last.server, path) && last.op.listing.entries != [] {
      AmbiguousIff(s, last.server, path);
      var q :| ListingAt(s, last.server, q).Some? && Alike(q, path);
      CachedIsFaithful(before, last.server, q, lower);
      var c := LastStoredWasStored(before, last.server, q);
      assert Countable(before[c]);
      assert path.data.Some? by {
        assert Plain(path);
      }
      PlainAlikeIsEqual(q, path);
    }
  }

  lemma {:induction false} LastStoredWasStored(calls: seq<Call>, server: Server, path: ServerPath) returns (c: nat)
    requires LastStored(calls, server, path).Some?
    ensures c < |calls| && calls[c].op.Store? && calls[c].op.listing.path == path
  {
    c := |calls| - 1;
    var last := calls[c];
    if !(last.op.Store? && last.server == server && last.op.listing.path == path) {
      c := LastStoredWasStored(calls[..|calls| - 1], server, path);
    }
  }

  lemma RunUnfolds(before: seq<Call>, last: Call, lower: Folding)
    ensures Run(before + [last], lower) == Step(Run(before, lower), last, lower)
    ensures Run([], lower) == EMPTY
  {
    assert (before + [last])[..|before|] == before;
    hide Step;
  }

  lemma RunOfOne(call: Call, lower: Folding)
    ensures Run([call], lower) == Step(EMPTY, call, lower)
  {
    RunUnfolds([], call, lower);
    assert [] + [call] == [call];
    hide *;
  }

  lemma NothingIsLinked()
    ensures Linked(EMPTY) && Surplus(EMPTY) == 0 && EMPTY.lru == []
  {
    assert AllNodes([]) == [] && AllSizes([]) == 0;
    hide Nodes, Size, ListOk;
  }

  lemma NothingIsCached(server: Server, path: ServerPath)
    ensures ListingAt(EMPTY, server, path) == None && !Ambiguous(EMPTY, server, path)
  {
    assert ServerIndex([], server) == 0;
    hide Hits, IsNew, FindIn;
  }

  lemma SurplusIs(s: State, n: int)
    ensures Surplus(s) == n ==> s.total == AllSizes(s.servers) + n
  {
  }

  lemma StoredTwice(server: Server, first: Listing, second: Listing, now: int)
    requires Alike(first.path, second.path) && first.path != second.path
    ensures Linked(EMPTY) && Linked(StoreState(EMPTY, server, first, now))
    ensures
      var s := StoreState(StoreState(EMPTY, server, first, now), server, second, now);
      && s.total == AllSizes(s.servers) + |second.entries|
      && ListingAt(s, server, second.path) == None
  {
    hide *;
    NothingIsLinked();
    NothingIsCached(server, first.path);
    NothingIsCached(server, second.path);
    var s1 := StoreState(EMPTY, server, first, now);
    StoreKeepsInv(EMPTY, server, first, now);
    StoredIsThere(EMPTY, server, first, now);
    StoreForgets(EMPTY, server, first, now, server, second.path);
    AmbiguousIff(s1, server, second.path);
    StoreKeepsInv(s1, server, second, now);
    AmbiguousStaysOut(s1, server, second, now);
    SurplusIs(StoreState(s1, server, second, now), |second.entries|);
  }

  /**
   The count does go wrong: storing listings for any two paths that are alike but not equal counts the files of
   the second, which is not there afterwards.
   */
  lemma MiscountHappens(server: Server, first: Listing, second: Listing, now: int, lower: Folding)
    requires Alike(first.path, second.path) && first.path != second.path
    ensures
      var s := Run([Call(server, now, Store(first)), Call(server, now, Store(second))], lower);
      && s.total == AllSizes(s.servers) + |second.entries|
      && ListingAt(s, server, second.path) == None
  {
    var a, b := Call(server, now, Store(first)), Call(server, now, Store(second));
    hide *;
    StoredTwice(server, first, second, now);
    RunOfOne(a, lower);
    RunUnfolds([a], b, lower);
    assert [a] + [b] == [a, b];
    StepOfStore(EMPTY, a, lower);
    StepOfStore(Run([a], lower), b, lower);
  }

  /** For example, an empty Unix path and then an empty DOS path. */
  lemma EmptyPathsMiscount(server: Server, entry: Dirent, lower: Folding)
    ensures
      var first := Listing(ServerPath(UNIX, None), 0, 0, [], None, None);
      var second := Listing(ServerPath(DOS, None), 0, 0, [entry], None, None);
      var s := Run([Call(server, 0, Store(first)), Call(server, 0, Store(second))], lower);
      s.total == AllSizes(s.servers) + 1
  {
    hide Run;
    MiscountHappens(server, Listing(ServerPath(UNIX, None), 0, 0, [], None, None),
                    Listing(ServerPath(DOS, None), 0, 0, [entry], None, None), 0, lower);
  }

  const DIR_A := ServerPath(UNIX, Some(PathData(None, ["a"])))
  const DIR_AX := ServerPath(UNIX, Some(PathData(None, ["a", "x"])))
  const DIR_AY := ServerPath(UNIX, Some(PathData(None, ["a", "y"])))

  lemma SiblingIsUnsure(s: State, server: Server, lower: Folding)
    requires Linked(s) && ListingAt(s, server, DIR_A).Some? && ListingAt(s, server, DIR_AY).Some?
    requires NamesDir(ListingAt(s, server, DIR_A).value.entries, "x", EXACT)
    ensures
      var l' := ListingAt(InvalidateFileState(s, server, DIR_A, "x", true, 0, lower), server, DIR_AY);
      l'.Some? && UnsureFlags(l'.value) != 0
  {
    hide Linked, ListingAt, NamesDir, InvalidateFileState;
    assert KnowsDir(s, server, DIR_A, "x", true, lower);
    SlashEnters();
    hide KnowsDir, CanEnter;
    InvalidatedIsUnsure(s, server, DIR_A, "x", true, 0, lower, DIR_AY);
  }

  function StoresOfTwo(server: Server, x: Dirent, inY: seq<Dirent>): seq<Call> {
    [Call(server, 0, Store(Listing(DIR_A, 0, 0, [x], None, None))),
     Call(server, 0, Store(Listing(DIR_AY, 0, 0, inY, None, None)))]
  }

  lemma BothAreCached(server: Server, x: Dirent, inY: seq<Dirent>, lower: Folding)
    ensures
      var s := Run(StoresOfTwo(server, x, inY), lower);
      && ListingAt(s, server, DIR_A) == Some(Listing(DIR_A, 0, 0, [x], None, None))
      && ListingAt(s, server, DIR_AY) == Some(Listing(DIR_AY, 0, 0, inY, None, None))
  {
    var lA, lAY := Listing(DIR_A, 0, 0, [x], None, None), Listing(DIR_AY, 0, 0, inY, None, None);
    var first, second := Call(server, 0, Store(lA)), Call(server, 0, Store(lAY));
    var s1 := Run([first], lower);
    assert StoresOfTwo(server, x, inY) == [first] + [second];
    assert !Alike(DIR_A, DIR_AY);
    RunOfOne(first, lower);
    RunUnfolds([first], second, lower);
    StepOfStore(EMPTY, first, lower);
    StepOfStore(s1, second, lower);
    hide *;
    OnlyOneCached(server, lA, DIR_AY);
    assert s1 == StoreState(EMPTY, server, lA, 0);
    FewAreKept(s1, server, lAY, 0, server, DIR_A);
    StoredIsThere(s1, server, lAY, 0);
  }

  /** Invalidating the directory /a/x marks the listing of /a/y, which is not below it. */
  lemma SiblingIsMarked(server: Server, x: Dirent, inY: seq<Dirent>, lower: Folding)
    requires x.name == "x" && x.isDir
    ensures
      var calls := StoresOfTwo(server, x, inY) + [Call(server, 0, InvalidateFile(DIR_A, "x", true))];
      var l := ListingAt(Run(calls, lower), server, DIR_AY);
      && l.Some? && UnsureFlags(l.value) != 0
      && !IsSubdirBy(DIR_AY, DIR_AX, EXACT, true)
  {
    var stores, last := StoresOfTwo(server, x, inY), Call(server, 0, InvalidateFile(DIR_A, "x", true));
    var s := Run(stores, lower);
    RunUnfolds(stores, last, lower);
    StepOfInvalidate(s, last, lower);
    assert ["a", "x"][1] != ["a", "y"][1];
    assert NamesDir([x], "x", EXACT) by {
      assert [x][0] == x;
    }
    hide Run, Linked, ListingAt, InvalidateFileState, Step, NamesDir, UnsureFlags;
    BothAreCached(server, x, inY, lower);
    SiblingIsUnsure(s, server, lower);
  }

  lemma StepOfInvalidate(s: State, call: Call, lower: Folding)
    requires Linked(s) && call.op.InvalidateFile?
    ensures Step(s, call, lower) == InvalidateFileState(s, call.server, call.op.path, call.op.name, call.op.cmpCase, call.now, lower)
  {
    hide InvalidateFileState;
  }

  lemma OnlyOneCached(server: Server, listing: Listing, path: ServerPath)
    requires !Alike(listing.path, path)
    ensures Linked(EMPTY) && !Ambiguous(EMPTY, server, listing.path)
    ensures var s := StoreState(EMPTY, server, listing, 0);
      && Linked(s) && |s.lru| < 100 && !Ambiguous(s, server, path)
      && ListingAt(s, server, listing.path) == Some(listing)
  {
    hide *;
    NothingIsLinked();
    NothingIsCached(server, listing.path);
    StoreKeepsInv(EMPTY, server, listing, 0);
    var node := StoreEvicts(EMPTY, server, listing, 0);
    StoredIsThere(EMPTY, server, listing, 0);
    var s := StoreState(EMPTY, server, listing, 0);
    assert |s.lru| < 100 by {
      PrunedIsShorter([node], s.lru);
      assert [] + [node] == [node];
    }
    if Ambiguous(s, server, path) {
      AmbiguousIff(s, server, path);
      var q :| ListingAt(s, server, q).Some? && Alike(q, path);
      NothingIsCached(server, q);
      if q != listing.path {
        StoreForgets(EMPTY, server, listing, 0, server, q);
      }
    }
  }

  lemma PrunedIsShorter(lru: seq<Node>, lru': seq<Node>)
    ensures IsPruned(lru, lru') ==> |lru'| <= |lru|
  {
  }

  lemma SlashEnters()
    ensures CanEnter(DIR_A, "x")
  {
    var d := DIR_A.data;
    assert PathFormats.Changed(UNIX, d, "x") == PathFormats.ChangedUnix(UNIX, d, "x");
  }

  /** Whatever is called, at most 50000 listings are ever cached. */
  lemma {:induction false} NodesAreBounded(calls: seq<Call>, lower: Folding)
    ensures |Run(calls, lower).lru| <= 50000
  {
    if calls != [] {
      var before, last := calls[..|calls| - 1], calls[|calls| - 1];
      var s := Run(before, lower);
      assert Run(calls, lower) == Step(s, last, lower);
      hide Linked, Step, Run;
      NodesAreBounded(before, lower);
      if last.op.Store? {
        StepOfStore(s, last, lower);
        var _ := StoreEvicts(s, last.server, last.op.listing, last.now);
      } else {
        hide Derived;
        StepIsGood(s, last, lower);
      }
    }
  }

  /** The listing that was stored last for this path on this server. */
  function LastStored(calls: seq<Call>, server: Server, path: ServerPath): Option<Listing> {
    if calls == [] then None
    else
      var last := calls[|calls| - 1];
      if last.op.Store? && last.server == server && last.op.listing.path == path then Some(last.op.listing)
      else LastStored(calls[..|calls| - 1], server, path)
  }

  lemma StoreDerives(s: State, server: Server, listing: Listing, now: int, other: Server, path: ServerPath, lower: Folding)
    requires Linked(s)
    ensures
      var r := ListingAt(StoreState(s, server, listing, now), other, path);
      r.Some? ==> if other == server && path == listing.path then r == Some(listing) else r == ListingAt(s, other, path)
  {
    hide ListingAt, StoreState, Linked;
    if other == server && path == listing.path {
      if !Ambiguous(s, server, path) {
        StoredIsThere(s, server, listing, now);
      } else {
        AmbiguousStaysOut(s, server, listing, now);
      }
    } else {
      StoreForgets(s, server, listing, now, other, path);
    }
  }

  lemma AmbiguousStaysOut(s: State, server: Server, listing: Listing, now: int)
    requires Linked(s) && Ambiguous(s, server, listing.path)
    ensures ListingAt(StoreState(s, server, listing, now), server, listing.path) == None
  {
    CreateKeepsInv(s, server);
    var s1 := CreateState(s, server);
    var i := ServerIndex(s1.servers, server);
    CreateIsNotAmbiguous(s, server, listing.path);
    assert StoreState(s, server, listing, now) == StoreAt(s1, i, listing, now);
    hide Linked, Surplus, StoreState, StoreAt, CreateState, TooBig, Ambiguous;
    StoreAmbiguous(s1, i, listing, now);
    var s2 := TouchState(s1, i, LowerBound(s1.servers[i].cacheList, listing.path)).(total := s1.total + |listing.entries|);
    assert ListingAt(s2, server, listing.path) == None;
    hide ListingAt, PruneState, TouchState;
    PruneOnlyForgets(s2);
  }

  /**
   Trusted hit: whatever has happened, a cached listing comes from the one last stored for its path, and if it
   has no unsure bits it still has the same content, apart from owners and groups.  If that one's name maps were
   right, they still are.
   */
  lemma {:induction false} CachedIsFaithful(calls: seq<Call>, server: Server, path: ServerPath, lower: Folding)
    requires ListingAt(Run(calls, lower), server, path).Some?
    ensures LastStored(calls, server, path).Some?
    ensures Faithful(LastStored(calls, server, path).value, ListingAt(Run(calls, lower), server, path).value, lower)
  {
    hide Linked, Faithful, Step;
    if calls == [] {
      assert false;
    } else {
      var before, last := calls[..|calls| - 1], calls[|calls| - 1];
      var s, s' := Run(before, lower), Run(calls, lower);
      assert s' == Step(s, last, lower);
      hide ListingAt, Run;
      if last.op.Store? {
        assert s' == StoreState(s, last.server, last.op.listing, last.now) by {
          StepOfStore(s, last, lower);
        }
        StoreDerives(s, last.server, last.op.listing, last.now, server, path, lower);
        if last.server == server && last.op.listing.path == path {
          FaithfulIsReflexive(last.op.listing, lower);
        } else {
          CachedIsFaithful(before, server, path, lower);
        }
      } else {
        StepIsGood(s, last, lower);
        CachedIsFaithful(before, server, path, lower);
        FaithfulIsTransitive(LastStored(before, server, path).value, ListingAt(s, server, path).value, ListingAt(s', server, path).value, lower);
      }
    }
  }

  lemma StepOfStore(s: State, call: Call, lower: Folding)
    requires Linked(s) && call.op.Store?
    ensures Step(s, call, lower) == StoreState(s, call.server, call.op.listing, call.now)
  {
  }

  lemma TrustedHit(calls: seq<Call>, server: Server, path: ServerPath, lower: Folding)
    requires ListingAt(Run(calls, lower), server, path).Some?
    requires UnsureFlags(ListingAt(Run(calls, lower), server, path).value) == 0
    ensures LastStored(calls, server, path).Some?
    ensures SameContent(LastStored(calls, server, path).value, ListingAt(Run(calls, lower), server, path).value)
  {
    hide Run, ListingAt, LastStored, SameContent;
    CachedIsFaithful(calls, server, path, lower);
  }
}
