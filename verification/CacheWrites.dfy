/**
 What the operations of the directory cache write into the cached listings of every server and path
 (src/engine/directorycache.cpp).
 */
module CacheWrites {
  import opened Options
  import opened ServerPaths
  import opened DirectoryListing
  import opened CacheState
  import opened CachePruning
  import opened CacheView
  import opened CacheStore
  import opened CacheEdits
  import opened CacheRuns
  import opened CacheContents

  /** The two paths agree but for case; all empty paths agree. */
  predicate SameButCase(p: ServerPath, q: ServerPath, lower: Folding) {
    Folded(p, lower) == Folded(q, lower)
  }

  lemma EqualNoCaseIs(p: ServerPath, q: ServerPath, lower: Folding)
    ensures EqualNoCase(p, q, lower) <==> SameButCase(p, q, lower)
  {
    if p.data.Some? && q.data.Some? {
      var a, b := p.data.value.segments, q.data.value.segments;
      if |a| == |b| {
        AgreeIsPrefix(a, b, lower);
        assert FoldedAll(a, lower) <= FoldedAll(b, lower) ==> FoldedAll(a, lower) == FoldedAll(b, lower);
      } else {
        assert |FoldedAll(a, lower)| != |FoldedAll(b, lower)|;
      }
      hide AgreeUpTo;
    }
  }

  lemma CachedUnderItsPath(s: State, server: Server, p: ServerPath)
    ensures ListingAt(s, server, p).Some? ==> ListingAt(s, server, p).value.path == p
  {
  }

  /** Every other listing is as before; none is new. */
  ghost predicate FileUpdated(s: State, s': State, server: Server, path: ServerPath, name: string, mayCreate: bool, typ: FileType,
                              size: int, ownerGroup: string, lower: Folding) {
    forall other, p ::
      var l, l' := ListingAt(s, other, p), ListingAt(s', other, p);
      if l.Some? && other == server && SameButCase(p, path, lower)
      then l'.Some? && WasUpdated(l.value, l'.value, name, mayCreate, typ, size, ownerGroup, lower)
      else l' == l
  }

  ghost predicate FileRemoved(s: State, s': State, server: Server, path: ServerPath, name: string, lower: Folding) {
    forall other, p ::
      var l, l' := ListingAt(s, other, p), ListingAt(s', other, p);
      if l.Some? && other == server && SameButCase(p, path, lower)
      then l'.Some? && WasRemoved(l.value, l'.value, name, lower)
      else l' == l
  }

  /** The path is that of the directory of this name, or below it but for case. */
  predicate IsInDir(p: ServerPath, path: ServerPath, name: string, lower: Folding) {
    path.data.Some? &&
    var dir := path.(data := Some(PathData(path.data.value.prefix, path.data.value.segments + [name])));
    p == dir || LiesBelow(Folded(p, lower), Folded(dir, lower))
  }

  /** What was cached in the directory is forgotten, and it is removed as a file. */
  ghost predicate DirRemoved(s: State, s': State, server: Server, path: ServerPath, name: string, lower: Folding) {
    forall other, p ::
      var l, l' := ListingAt(s, other, p), ListingAt(s', other, p);
      if l.None? || (other == server && IsInDir(p, path, name, lower)) then l'.None?
      else if other == server && SameButCase(p, path, lower)
      then l'.Some? && WasRemoved(l.value, l'.value, name, lower)
      else l' == l
  }

  predicate Concerned(p: ServerPath, path: ServerPath, cmpCase: bool, lower: Folding) {
    if cmpCase then p == path else SameButCase(p, path, lower)
  }

  /** A cached listing of the directory has a directory of this name. */
  ghost predicate KnownAsDir(s: State, server: Server, path: ServerPath, name: string, cmpCase: bool, lower: Folding) {
    exists p, k: nat ::
      && ListingAt(s, server, p).Some? && Concerned(p, path, cmpCase, lower)
      && k < |ListingAt(s, server, p).value.entries|
      && var e := ListingAt(s, server, p).value.entries[k];
         e.isDir && if cmpCase then e.name == name else lower(e.name) == lower(name)
  }

  predicate BelowToo(p: ServerPath, path: ServerPath, cmpCase: bool, lower: Folding) {
    if cmpCase then LiesIn(Folded(p, EXACT), Folded(path, EXACT)) else LiesIn(Folded(p, lower), Folded(path, lower))
  }

  /** A listing of the directory is marked; if the name is known as a directory, one below it becomes unsure. */
  ghost predicate InvalidatedAt(l: Listing, l': Option<Listing>, known: bool, path: ServerPath, name: string, cmpCase: bool, lower: Folding) {
    if Concerned(l.path, path, cmpCase, lower) then l'.Some? && WasInvalidated(l, l'.value, name, if cmpCase then EXACT else lower)
    else if known && CanEnter(path, name) && BelowToo(l.path, path, cmpCase, lower) then l' == Some(l.(flags := l.flags | 0x040))
    else l' == Some(l)
  }

  ghost predicate FileInvalidated(s: State, s': State, server: Server, path: ServerPath, name: string, cmpCase: bool, lower: Folding) {
    forall other, p ::
      var l, l' := ListingAt(s, other, p), ListingAt(s', other, p);
      if l.None? || other != server then l' == l
      else InvalidatedAt(l.value, l', KnownAsDir(s, server, path, name, cmpCase, lower), path, name, cmpCase, lower)
  }

  ghost predicate ServerForgotten(s: State, s': State, server: Server) {
    forall other, p :: ListingAt(s', other, p) == if other == server then None else ListingAt(s, other, p)
  }

  ghost predicate SameCached(s: State, s': State) {
    forall other, p :: ListingAt(s', other, p) == ListingAt(s, other, p)
  }

  /** Only the listing of this one path has changed. */
  ghost predicate OnlyAt(s: State, s': State, server: Server, path: ServerPath) {
    && ListingAt(s, server, path).Some? && ListingAt(s', server, path).Some?
    && forall other, p :: other != server || p != path ==> ListingAt(s', other, p) == ListingAt(s, other, p)
  }

  lemma UpdateFileWrites(s: State, server: Server, path: ServerPath, name: string, mayCreate: bool, typ: FileType,
                         size: int, ownerGroup: string, now: int, lower: Folding)
    requires Linked(s)
    ensures FileUpdated(s, UpdateFileState(s, server, path, name, mayCreate, typ, size, ownerGroup, now, lower),
                        server, path, name, mayCreate, typ, size, ownerGroup, lower)
  {
    var s' := UpdateFileState(s, server, path, name, mayCreate, typ, size, ownerGroup, now, lower);
    hide Linked, ListingAt, UpdateFileState, EqualNoCase, SameButCase, WasUpdated, UpdatedFile;
    forall other, p
      ensures
        var l, l' := ListingAt(s, other, p), ListingAt(s', other, p);
        if l.Some? && other == server && SameButCase(p, path, lower)
        then l'.Some? && WasUpdated(l.value, l'.value, name, mayCreate, typ, size, ownerGroup, lower)
        else l' == l
    {
      var l := ListingAt(s, other, p);
      UpdateFileView(s, server, path, name, mayCreate, typ, size, ownerGroup, now, lower, other, p);
      CachedUnderItsPath(s, other, p);
      ConcernsIs(path, p, lower);
      if l.Some? {
        UpdatedFileIs(l.value, name, mayCreate, typ, size, ownerGroup, lower);
      }
    }
  }

  lemma ConcernsIs(path: ServerPath, p: ServerPath, lower: Folding)
    ensures EqualNoCase(path, p, lower) <==> SameButCase(p, path, lower)
  {
    EqualNoCaseIs(path, p, lower);
    hide Folded;
  }

  lemma RemoveFileWrites(s: State, server: Server, path: ServerPath, name: string, now: int, lower: Folding)
    requires Linked(s)
    ensures FileRemoved(s, RemoveFileState(s, server, path, name, now, lower), server, path, name, lower)
  {
    var s' := RemoveFileState(s, server, path, name, now, lower);
    hide Linked, ListingAt, RemoveFileState, EqualNoCase, SameButCase, WasRemoved, RemovedFile;
    forall other, p
      ensures
        var l, l' := ListingAt(s, other, p), ListingAt(s', other, p);
        if l.Some? && other == server && SameButCase(p, path, lower)
        then l'.Some? && WasRemoved(l.value, l'.value, name, lower)
        else l' == l
    {
      var l := ListingAt(s, other, p);
      RemoveFileView(s, server, path, name, now, lower, other, p);
      CachedUnderItsPath(s, other, p);
      ConcernsIs(path, p, lower);
      if l.Some? {
        RemovedFileIs(l.value, name, lower);
      }
    }
  }

  lemma GoesWithDirIs(path: ServerPath, name: string, lower: Folding, p: ServerPath)
    ensures GoesWithDir(path, name, lower)(p) <==> IsInDir(p, path, name, lower)
  {
    SubdirLiesIn(p, Child(path, name), lower);
    hide IsSubdirBy, LiesBelow, Folded;
  }

  lemma RemoveDirWrites(s: State, server: Server, path: ServerPath, name: string, now: int, lower: Folding)
    requires Linked(s)
    ensures DirRemoved(s, RemoveDirState(s, server, path, name, now, lower), server, path, name, lower)
  {
    var s' := RemoveDirState(s, server, path, name, now, lower);
    hide Linked, ListingAt, RemoveDirState, EqualNoCase, SameButCase, WasRemoved, RemovedFile, GoesWithDir, IsInDir;
    forall other, p
      ensures
        var l, l' := ListingAt(s, other, p), ListingAt(s', other, p);
        if l.None? || (other == server && IsInDir(p, path, name, lower)) then l'.None?
        else if other == server && SameButCase(p, path, lower)
        then l'.Some? && WasRemoved(l.value, l'.value, name, lower)
        else l' == l
    {
      var l := ListingAt(s, other, p);
      RemoveDirView(s, server, path, name, now, lower, other, p);
      CachedUnderItsPath(s, other, p);
      ConcernsIs(path, p, lower);
      GoesWithDirIs(path, name, lower, p);
      if l.Some? {
        RemovedFileIs(l.value, name, lower);
      }
    }
  }

  lemma InvalidateConcernsIs(path: ServerPath, name: string, cmpCase: bool, lower: Folding, p: ServerPath)
    ensures InvalidateFileEdit(path, name, cmpCase, lower).concerns(p) <==> Concerned(p, path, cmpCase, lower)
  {
    ConcernsIs(path, p, lower);
    hide EqualNoCase, SameButCase;
  }

  lemma KnowsDirIs(s: State, server: Server, path: ServerPath, name: string, cmpCase: bool, lower: Folding)
    ensures KnowsDir(s, server, path, name, cmpCase, lower) <==> KnownAsDir(s, server, path, name, cmpCase, lower)
  {
    hide ListingAt, Concerned, InvalidateFileEdit;
    if KnowsDir(s, server, path, name, cmpCase, lower) {
      var p :|
        && ListingAt(s, server, p).Some?
        && InvalidateFileEdit(path, name, cmpCase, lower).concerns(p)
        && NamesDir(ListingAt(s, server, p).value.entries, name, FoldFor(cmpCase, lower));
      InvalidateConcernsIs(path, name, cmpCase, lower, p);
      var k: nat :| k < |ListingAt(s, server, p).value.entries| &&
        FoldFor(cmpCase, lower)(ListingAt(s, server, p).value.entries[k].name) == FoldFor(cmpCase, lower)(name) &&
        ListingAt(s, server, p).value.entries[k].isDir;
    }
    if KnownAsDir(s, server, path, name, cmpCase, lower) {
      var p, k: nat :|
        && ListingAt(s, server, p).Some? && Concerned(p, path, cmpCase, lower)
        && k < |ListingAt(s, server, p).value.entries|
        && var e := ListingAt(s, server, p).value.entries[k];
           e.isDir && if cmpCase then e.name == name else lower(e.name) == lower(name);
      InvalidateConcernsIs(path, name, cmpCase, lower, p);
      assert NamesDir(ListingAt(s, server, p).value.entries, name, FoldFor(cmpCase, lower));
    }
  }

  lemma MarkedTwice(l: Listing, l': Listing, name: string, fold: Folding)
    requires WasInvalidated(l, l', name, fold)
    ensures WasInvalidated(l, Flagged(l', UNSURE_UNKNOWN), name, fold)
    ensures Flagged(l, UNSURE_UNKNOWN) == l.(flags := l.flags | 0x040)
  {
    assert l.flags | 0x040 | 0x040 == l.flags | 0x040;
    hide OldAreMarked;
  }

  lemma BelowTooIs(path: ServerPath, cmpCase: bool, lower: Folding, p: ServerPath)
    ensures IsSubdirBy(p, path, FoldFor(cmpCase, lower), true) <==> BelowToo(p, path, cmpCase, lower)
  {
    SubdirLiesIn(p, path, FoldFor(cmpCase, lower));
    hide IsSubdirBy, LiesIn, Folded;
  }

  /** What the view of an invalidation says of one listing. */
  lemma InvalidatedAtIs(l: Listing, known: bool, path: ServerPath, name: string, cmpCase: bool, lower: Folding)
    ensures
      var fold := FoldFor(cmpCase, lower);
      var l1 := if InvalidateFileEdit(path, name, cmpCase, lower).concerns(l.path) then InvalidatedFile(l, name, fold) else l;
      var l2 := if known && CanEnter(path, name) && IsSubdirBy(l.path, path, fold, true) then Flagged(l1, UNSURE_UNKNOWN) else l1;
      InvalidatedAt(l, Some(l2), known, path, name, cmpCase, lower)
  {
    var fold := FoldFor(cmpCase, lower);
    assert fold == if cmpCase then EXACT else lower;
    InvalidateConcernsIs(path, name, cmpCase, lower, l.path);
    BelowTooIs(path, cmpCase, lower, l.path);
    InvalidatedFileIs(l, name, fold);
    MarkedTwice(l, InvalidatedFile(l, name, fold), name, fold);
    hide Concerned, BelowToo, IsSubdirBy, WasInvalidated, InvalidatedFile, CanEnter, Flagged, FoldFor, InvalidateFileEdit;
  }

  lemma InvalidateFileWrites(s: State, server: Server, path: ServerPath, name: string, cmpCase: bool, now: int, lower: Folding)
    requires Linked(s)
    ensures FileInvalidated(s, InvalidateFileState(s, server, path, name, cmpCase, now, lower), server, path, name, cmpCase, lower)
  {
    var s' := InvalidateFileState(s, server, path, name, cmpCase, now, lower);
    var known := KnownAsDir(s, server, path, name, cmpCase, lower);
    KnowsDirIs(s, server, path, name, cmpCase, lower);
    hide Linked, ListingAt, InvalidateFileState, InvalidateFileEdit, IsSubdirBy, InvalidatedFile, KnowsDir, KnownAsDir, CanEnter, Flagged, FoldFor,
      InvalidatedAt;
    forall other, p
      ensures
        var l, l' := ListingAt(s, other, p), ListingAt(s', other, p);
        if l.None? || other != server then l' == l else InvalidatedAt(l.value, l', known, path, name, cmpCase, lower)
    {
      var l := ListingAt(s, other, p);
      InvalidateFileView(s, server, path, name, cmpCase, now, lower, other, p);
      if l.Some? {
        InvalidatedAtIs(l.value, known, path, name, cmpCase, lower);
      }
    }
  }

  lemma InvalidateServerForgets(s: State, server: Server)
    requires Linked(s)
    ensures ServerForgotten(s, InvalidateServerState(s, server), server)
  {
    hide Linked, ListingAt, InvalidateServerState;
    forall other, p
      ensures ListingAt(InvalidateServerState(s, server), other, p) == if other == server then None else ListingAt(s, other, p)
    {
      InvalidateServerView(s, server, other, p);
    }
  }

  lemma PutIsOnlyThere(s: State, server: Server, path: ServerPath, listing: Listing)
    requires Linked(s) && ListingAt(s, server, path).Some? && listing.path == path
    ensures OnlyAt(s, PutListing(s, server, path, listing), server, path)
    ensures ListingAt(PutListing(s, server, path, listing), server, path) == Some(listing)
  {
    var i := ServerIndex(s.servers, server);
    var k := LowerBound(s.servers[i].cacheList, path);
    var time, s' := s.servers[i].cacheList[k].modificationTime, PutListing(s, server, path, listing);
    assert s' == ReplaceState(s, i, k, listing, time) && s.servers[i].server == server;
    hide Linked, ListingAt, ReplaceState, PutListing;
    forall other, p
      ensures ListingAt(s', other, p) == if other == server && p == path then Some(listing) else ListingAt(s, other, p)
    {
      ViewOfReplace(s, i, k, listing, time, other, p);
    }
  }

  /** What moving a file or directory to another directory leaves behind. */
  ghost predicate MovedAway(s: State, mid: State, s': State, server: Server, pathFrom: ServerPath, from: string, pathTo: ServerPath, to: string,
                            lower: Folding)
    requires ListingAt(s, server, pathFrom).Some?
  {
    var l := ListingAt(s, server, pathFrom).value;
    && (!HasName(l.entries, from) ==> SameCached(s, s'))
    && (forall i: nat :: IsFirst(l.entries, from, i) ==>
          && (if l.entries[i].isDir then DirRemoved(s, mid, server, pathFrom, from, lower)
              else FileRemoved(s, mid, server, pathFrom, from, lower))
          && FileUpdated(mid, s', server, pathTo, to, true, if l.entries[i].isDir then DirEntry else FileEntry, -1, "", lower))
  }

  /** In one directory, what had the new name goes first; a directory then makes way for a new one, a file is renamed. */
  ghost predicate MovedHere(s: State, mid: State, mid2: State, s': State, server: Server, path: ServerPath, from: string, to: string,
                            lower: Folding)
    requires ListingAt(s, server, path).Some?
  {
    var l := ListingAt(s, server, path).value;
    && (!HasName(l.entries, from) ==> SameCached(s, s'))
    && (forall i: nat :: IsFirst(l.entries, from, i) ==>
          if l.entries[i].isDir then
            && DirRemoved(s, mid, server, path, from, lower)
            && DirRemoved(mid, mid2, server, path, to, lower)
            && FileUpdated(mid2, s', server, path, to, true, DirEntry, -1, "", lower)
          else
            && OnlyAt(s, s', server, path)
            && WasRenamed(l, ListingAt(s', server, path).value, i, to))
  }

  lemma RenameAwayMoves(s: State, server: Server, pathFrom: ServerPath, from: string, pathTo: ServerPath, to: string, now: int, lower: Folding)
    returns (mid: State)
    requires Linked(s) && ListingAt(s, server, pathFrom).Some?
    ensures MovedAway(s, mid, RenameAway(s, server, pathFrom, from, pathTo, to, now, lower), server, pathFrom, from, pathTo, to, lower)
  {
    var l := ListingAt(s, server, pathFrom).value;
    var i := FirstNamed(l.entries, from);
    FirstNamedIs(l.entries, from);
    mid := s;
    hide Linked, ListingAt, FirstNamed, HasName, IsFirst, DirRemoved, FileRemoved, FileUpdated, RemoveDirState, RemoveFileState, UpdateFileState,
      Derived, Surplus;
    if i < |l.entries| {
      var typ := if l.entries[i].isDir then DirEntry else FileEntry;
      if l.entries[i].isDir {
        mid := RemoveDirState(s, server, pathFrom, from, now, lower);
        RemoveDirIsGood(s, server, pathFrom, from, now, lower);
        RemoveDirWrites(s, server, pathFrom, from, now, lower);
      } else {
        mid := RemoveFileState(s, server, pathFrom, from, now, lower);
        RemoveFileIsGood(s, server, pathFrom, from, now, lower);
        RemoveFileWrites(s, server, pathFrom, from, now, lower);
      }
      UpdateFileWrites(mid, server, pathTo, to, true, typ, -1, "", now, lower);
    }
  }

  lemma RenameHereMoves(s: State, server: Server, path: ServerPath, from: string, to: string, now: int, lower: Folding)
    returns (mid: State, mid2: State)
    requires Linked(s) && ListingAt(s, server, path).Some?
    ensures MovedHere(s, mid, mid2, RenameHere(s, server, path, from, to, now, lower), server, path, from, to, lower)
  {
    var l := ListingAt(s, server, path).value;
    var i := FirstNamed(l.entries, from);
    FirstNamedIs(l.entries, from);
    CachedUnderItsPath(s, server, path);
    mid, mid2 := s, s;
    hide Linked, ListingAt, FirstNamed, HasName, IsFirst, DirRemoved, FileUpdated, RemoveDirState, UpdateFileState, PutListing,
      Derived, Surplus, WasRenamed, RenamedFile, OnlyAt;
    if i < |l.entries| {
      if l.entries[i].isDir {
        mid := RemoveDirState(s, server, path, from, now, lower);
        mid2 := RemoveDirState(mid, server, path, to, now, lower);
        RemoveDirIsGood(s, server, path, from, now, lower);
        RemoveDirWrites(s, server, path, from, now, lower);
        RemoveDirIsGood(mid, server, path, to, now, lower);
        RemoveDirWrites(mid, server, path, to, now, lower);
        UpdateFileWrites(mid2, server, path, to, true, DirEntry, -1, "", now, lower);
      } else {
        var l' := RenamedFile(l, i, to);
        RenamedFileIs(l, i, to);
        assert l'.path == path by {
          assert WasRenamed(l, l', i, to) ==> l'.path == l.path;
        }
        PutIsOnlyThere(s, server, path, l');
      }
    }
  }

  /**
   What a rename does: if the directory is not cached, all of the server is forgotten; in one directory what had the
   new name is removed first.  The states between are those between the cache's own calls.
   */
  lemma RenameMoves(s: State, server: Server, pathFrom: ServerPath, from: string, pathTo: ServerPath, to: string, now: int, lower: Folding)
    returns (s1: State, s2: State, mid: State, mid2: State)
    requires Linked(s)
    ensures
      var s' := RenameState(s, server, pathFrom, from, pathTo, to, now, lower);
      && SameCached(s, s1)
      && (ListingAt(s, server, pathFrom).None? ==> ServerForgotten(s1, s', server))
      && (ListingAt(s, server, pathFrom).Some? && pathFrom != pathTo ==>
            ListingAt(s1, server, pathFrom).Some? && MovedAway(s1, mid, s', server, pathFrom, from, pathTo, to, lower))
      && (ListingAt(s, server, pathFrom).Some? && pathFrom == pathTo ==>
            && FileRemoved(s1, s2, server, pathFrom, to, lower)
            && ListingAt(s2, server, pathFrom).Some? && MovedHere(s2, mid, mid2, s', server, pathFrom, from, to, lower))
  {
    s1, s2, mid, mid2 := s, s, s, s;
    hide Linked, ListingAt, InvalidateServerState, LookupState, RemoveFileState, RenameHere, RenameAway, FileRemoved, MovedHere, MovedAway,
      Derived, Surplus;
    if ListingAt(s, server, pathFrom).None? {
      InvalidateServerForgets(s, server);
    } else {
      s1 := LookupState(s, server, pathFrom);
      LookupIsGood(s, server, pathFrom, lower);
      if pathFrom == pathTo {
        s2 := RemoveFileState(s1, server, pathFrom, to, now, lower);
        RemoveFileIsGood(s1, server, pathFrom, to, now, lower);
        RemoveFileWrites(s1, server, pathFrom, to, now, lower);
        RemovedStays(s1, s2, server, pathFrom, to, lower);
        mid, mid2 := RenameHereMoves(s2, server, pathFrom, from, to, now, lower);
      } else {
        mid := RenameAwayMoves(s1, server, pathFrom, from, pathTo, to, now, lower);
      }
    }
  }

  lemma RemovedStays(s: State, s': State, server: Server, path: ServerPath, name: string, lower: Folding)
    requires FileRemoved(s, s', server, path, name, lower) && ListingAt(s, server, path).Some?
    ensures ListingAt(s', server, path).Some?
  {
    assert SameButCase(path, path, lower);
    hide ListingAt, WasRemoved, SameButCase;
  }

  /** A change of owner concerns one file; a directory keeps its owner, and for an unknown file all of the server is forgotten. */
  lemma UpdateOwnerGroupWrites(s: State, server: Server, path: ServerPath, name: string, ownerGroup: string, lower: Folding)
    requires Linked(s)
    ensures
      var l, s' := ListingAt(s, server, path), UpdateOwnerGroupState(s, server, path, name, ownerGroup);
      && (l.None? || !HasName(l.value.entries, name) ==> ServerForgotten(s, s', server))
      && (l.Some? ==> forall i: nat :: IsFirst(l.value.entries, name, i) ==>
            if l.value.entries[i].isDir then SameCached(s, s')
            else OnlyAt(s, s', server, path) && WasReowned(l.value, ListingAt(s', server, path).value, i, ownerGroup))
  {
    var l, s1 := ListingAt(s, server, path), LookupState(s, server, path);
    LookupIsGood(s, server, path, lower);
    InvalidateServerForgets(s, server);
    InvalidateServerForgets(s1, server);
    if l.Some? {
      FirstNamedIs(l.value.entries, name);
      var i := FirstNamed(l.value.entries, name);
      CachedUnderItsPath(s, server, path);
      if i < |l.value.entries| && !l.value.entries[i].isDir {
        var l' := ReownedFile(l.value, i, ownerGroup);
        ReownedFileIs(l.value, i, ownerGroup);
        assert l'.path == path;
        PutIsOnlyThere(s1, server, path, l');
      }
    }
    hide Linked, ListingAt, InvalidateServerState, LookupState, PutListing, FirstNamed, HasName, IsFirst, WasReowned, ReownedFile, Derived, Surplus;
  }
}
