/**
 The directory cache as the object the engine uses (src/engine/directorycache.cpp), with its loops, proved
 against the functions of the Cache modules.  Times come in as parameters.
 */
module DirectoryCache {
  import opened Options
  import opened ServerPaths
  import opened DirectoryListing
  import opened CacheState
  import opened CachePruning
  import opened CacheView
  import opened CacheStore
  import opened CacheEdits
  import opened CacheRuns
  import opened CacheTimes

  // ---- Scans of one listing ----

  method FindNamed(entries: seq<Dirent>, name: string) returns (r: nat)
    ensures r == FirstNamed(entries, name)
  {
    r := 0;
    assert entries[0..] == entries;
    while r < |entries|
      invariant r <= |entries| && FirstNamed(entries, name) == r + FirstNamed(entries[r..], name)
    {
      if entries[r].name == name {
        return;
      }
      assert entries[r..][1..] == entries[r + 1..];
      r := r + 1;
    }
  }

  /** Overwriting the first element that is not done yet. */
  lemma PutNext<T>(done: seq<T>, next: seq<T>, e: T, more: seq<T>)
    requires next != []
    ensures (done + next)[|done|] == next[0]
    ensures (done + next)[|done| := e] == (done + [e]) + next[1..]
    ensures done + ([e] + more) == (done + [e]) + more
  {
  }

  function MarkedEntry(e: Dirent, name: string, fold: Folding): Dirent {
    if fold(e.name) == fold(name) then e.(unsure := true) else e
  }

  /** The scan has got to entry `i` and left `done` behind it. */
  predicate MarkedSoFar(entries: seq<Dirent>, name: string, fold: Folding, untilExact: bool, r: seq<Dirent>, i: nat, done: seq<Dirent>) {
    && i == |done| <= |entries| == |r|
    && r == done + entries[i..]
    && Marked(entries, name, fold, untilExact) == done + Marked(entries[i..], name, fold, untilExact)
  }

  lemma MarkStep(entries: seq<Dirent>, name: string, fold: Folding, untilExact: bool, r: seq<Dirent>, i: nat, done: seq<Dirent>)
    requires MarkedSoFar(entries, name, fold, untilExact, r, i, done) && i < |entries|
    ensures
      var e := MarkedEntry(entries[i], name, fold);
      && r[i] == entries[i]
      && (if untilExact && fold(entries[i].name) == fold(name) && entries[i].name == name
          then Marked(entries, name, fold, untilExact) == r[i := e]
          else MarkedSoFar(entries, name, fold, untilExact, r[i := e], i + 1, done + [e]))
  {
    var next, rest := entries[i..], entries[i + 1..];
    assert next[0] == entries[i] && next[1..] == rest;
    var e := MarkedEntry(entries[i], name, fold);
    var ends := untilExact && fold(entries[i].name) == fold(name) && entries[i].name == name;
    var more := if ends then rest else Marked(rest, name, fold, untilExact);
    assert Marked(next, name, fold, untilExact) == [e] + more;
    hide Marked, MarkedEntry;
    PutNext(done, next, e, more);
  }

  /** Whether one of the first `n` entries with the folded name is a directory. */
  predicate SawDir(entries: seq<Dirent>, name: string, fold: Folding, n: nat)
    requires n <= |entries|
  {
    n > 0 && (SawDir(entries, name, fold, n - 1) || (fold(entries[n - 1].name) == fold(name) && entries[n - 1].isDir))
  }

  lemma {:induction false} SawDirIs(entries: seq<Dirent>, name: string, fold: Folding, n: nat)
    requires n <= |entries|
    ensures SawDir(entries, name, fold, n) <==> exists i :: 0 <= i < n && fold(entries[i].name) == fold(name) && entries[i].isDir
  {
    if n > 0 {
      SawDirIs(entries, name, fold, n - 1);
    }
  }

  lemma SawDirIsAll(entries: seq<Dirent>, name: string, fold: Folding)
    ensures NamesDir(entries, name, fold) <==> SawDir(entries, name, fold, |entries|)
  {
    SawDirIs(entries, name, fold, |entries|);
  }

  /** None of the first `n` entries has exactly this name. */
  predicate NotAmong(entries: seq<Dirent>, name: string, n: nat)
    requires n <= |entries|
  {
    forall k :: 0 <= k < n ==> entries[k].name != name
  }

  lemma ScanStep(entries: seq<Dirent>, name: string, fold: Folding, n: nat)
    requires n < |entries|
    ensures NotAmong(entries, name, n + 1) <==> NotAmong(entries, name, n) && entries[n].name != name
    ensures SawDir(entries, name, fold, n + 1) <==>
      SawDir(entries, name, fold, n) || (fold(entries[n].name) == fold(name) && entries[n].isDir)
    ensures NotAmong(entries, name, n) && entries[n].name == name ==> FirstNamed(entries, name) == n
    ensures MarkedEntry(entries[n], name, fold) ==
      if fold(entries[n].name) == fold(name) then entries[n].(unsure := true) else entries[n]
  {
  }

  lemma ScanStarts(entries: seq<Dirent>, name: string, fold: Folding, untilExact: bool)
    ensures NotAmong(entries, name, 0) && !SawDir(entries, name, fold, 0)
    ensures MarkedSoFar(entries, name, fold, untilExact, entries, 0, [])
  {
    assert entries[0..] == entries && [] + entries == entries;
    assert [] + Marked(entries, name, fold, untilExact) == Marked(entries, name, fold, untilExact);
  }

  lemma ScanEnds(entries: seq<Dirent>, name: string, fold: Folding, untilExact: bool, r: seq<Dirent>, done: seq<Dirent>)
    requires MarkedSoFar(entries, name, fold, untilExact, r, |entries|, done)
    ensures r == Marked(entries, name, fold, untilExact)
    ensures NotAmong(entries, name, |entries|) ==> FirstNamed(entries, name) == |entries|
  {
    assert entries[|entries|..] == [] && Marked([], name, fold, untilExact) == [];
  }

  /** `at`: where an exact match has ended the scan; `dir`: whether a directory was met. */
  method MarkEntries(entries: seq<Dirent>, name: string, fold: Folding, untilExact: bool)
    returns (r: seq<Dirent>, at: nat, dir: bool)
    ensures r == Marked(entries, name, fold, untilExact)
    ensures at == if untilExact then FirstNamed(entries, name) else |entries|
    ensures !untilExact ==> (dir <==> NamesDir(entries, name, fold))
  {
    hide *;
    r, at, dir := entries, 0, false;
    ghost var done: seq<Dirent> := [];
    ScanStarts(entries, name, fold, untilExact);
    while at < |r|
      invariant at <= |entries| == |r|
      invariant MarkedSoFar(entries, name, fold, untilExact, r, at, done)
      invariant untilExact ==> NotAmong(entries, name, at)
      invariant dir <==> SawDir(entries, name, fold, at)
    {
      MarkStep(entries, name, fold, untilExact, r, at, done);
      ScanStep(entries, name, fold, at);
      done := done + [MarkedEntry(entries[at], name, fold)];
      if fold(r[at].name) == fold(name) {
        var exact := r[at].name == name;
        dir := dir || r[at].isDir;
        r := r[at := r[at].(unsure := true)];
        if untilExact && exact {
          return;
        }
      } else {
        assert r[at := r[at]] == r;
      }
      at := at + 1;
    }
    ScanEnds(entries, name, fold, untilExact, r, done);
    SawDirIsAll(entries, name, fold);
  }

  // ---- What the updating operations do to a listing they concern ----

  datatype Change =
    | Invalidate(name: string, fold: Folding)
    | Flag
    | Update(name: string, mayCreate: bool, typ: FileType, size: int, ownerGroup: string, fold: Folding)
    | Remove(name: string, fold: Folding)

  function Applied(c: Change, l: Listing): Listing {
    match c
    case Invalidate(name, fold) => InvalidatedFile(l, name, fold)
    case Flag => Flagged(l, UNSURE_UNKNOWN)
    case Update(name, mayCreate, typ, size, ownerGroup, fold) => UpdatedFile(l, name, mayCreate, typ, size, ownerGroup, fold)
    case Remove(name, fold) => RemovedFile(l, name, fold)
  }

  method Update(l: Listing, name: string, mayCreate: bool, typ: FileType, size: int, ownerGroup: string, fold: Folding)
    returns (r: Listing)
    ensures r == UpdatedFile(l, name, mayCreate, typ, size, ownerGroup, fold)
  {
    hide Append, NewEntry, FirstNamed, Flagged, Marked;
    var entries, at, _ := MarkEntries(l.entries, name, fold, true);
    var bits, creates := UNSURE_UNKNOWN, false;
    if at < |entries| {
      var oldType := if entries[at].isDir then DirEntry else FileEntry;
      bits := if typ != oldType then UNSURE_INVALID else if typ == DirEntry then UNSURE_DIR_CHANGED else UNSURE_FILE_CHANGED;
    } else if typ != UnknownType && mayCreate {
      bits, creates := if typ == DirEntry then UNSURE_DIR_ADDED | HAS_DIRS else UNSURE_FILE_ADDED, true;
    }
    assert bits == UpdateBits(l.entries, name, mayCreate, typ) && creates == Creates(l.entries, name, mayCreate, typ);
    hide UpdateBits, Creates;
    r := Flagged(l.(entries := entries), bits);
    if creates {
      r := Append(r, NewEntry(name, typ, size, ownerGroup));
    }
  }

  method Remove(l: Listing, name: string, fold: Folding) returns (r: Listing)
    ensures r == RemovedFile(l, name, fold)
  {
    var n := FindNamed(l.entries, name);
    if n < |l.entries| {
      return RemoveEntry(l, n);
    }
    var entries, _, _ := MarkEntries(l.entries, name, fold, false);
    r := Flagged(l.(entries := entries), UNSURE_INVALID);
  }

  method Apply(c: Change, l: Listing) returns (r: Listing, dir: bool)
    ensures r == Applied(c, l)
    ensures dir <==> c.Invalidate? && NamesDir(l.entries, c.name, c.fold)
  {
    hide UpdatedFile, RemovedFile, NamesDir;
    dir := false;
    match c
    case Invalidate(name, fold) =>
      var entries, at;
      entries, at, dir := MarkEntries(l.entries, name, fold, false);
      r := Flagged(l.(entries := entries), UNSURE_UNKNOWN);
    case Flag => r := Flagged(l, UNSURE_UNKNOWN);
    case Update(name, mayCreate, typ, size, ownerGroup, fold) => r := Update(l, name, mayCreate, typ, size, ownerGroup, fold);
    case Remove(name, fold) => r := Remove(l, name, fold);
  }

  ghost predicate Makes(c: Change, edit: Edit) {
    forall l :: edit.change(l) == Applied(c, l)
  }

  /** Whether one of the first `n` entries was concerned, and whether a directory was met in one of those. */
  predicate AnyConcerned(list: seq<CacheEntry>, edit: Edit, n: nat)
    requires n <= |list|
  {
    n > 0 && (AnyConcerned(list, edit, n - 1) || edit.concerns(list[n - 1].listing.path))
  }

  predicate MetDir(list: seq<CacheEntry>, edit: Edit, c: Change, n: nat)
    requires n <= |list|
  {
    n > 0 && c.Invalidate? &&
    (MetDir(list, edit, c, n - 1) ||
     (edit.concerns(list[n - 1].listing.path) && NamesDir(list[n - 1].listing.entries, c.name, c.fold)))
  }

  lemma {:induction false} AnyConcernedIs(list: seq<CacheEntry>, edit: Edit, n: nat)
    requires n <= |list|
    ensures AnyConcerned(list, edit, n) <==> exists k :: 0 <= k < n && edit.concerns(list[k].listing.path)
  {
    if n > 0 {
      AnyConcernedIs(list, edit, n - 1);
    }
  }

  lemma {:induction false} MetDirIs(list: seq<CacheEntry>, edit: Edit, c: Change, n: nat)
    requires n <= |list| && c.Invalidate?
    ensures MetDir(list, edit, c, n) <==>
      exists k :: 0 <= k < n && edit.concerns(list[k].listing.path) && NamesDir(list[k].listing.entries, c.name, c.fold)
  {
    hide NamesDir;
    if n > 0 {
      MetDirIs(list, edit, c, n - 1);
    }
  }

  /** Looks a name up and hands back the listing with the name maps as the lookup has filled them. */
  method LookupInListing(l: Listing, name: string, exactOnly: bool, lower: Folding)
    returns (entry: Option<Dirent>, matchedCase: bool, filled: Listing)
    requires Indexed(l, lower)
    ensures Indexed(filled, lower) && filled == l.(byCase := filled.byCase, byNoCase := filled.byNoCase)
    ensures IsAnswer(l.entries, name, exactOnly, lower, entry, matchedCase)
  {
    var object' := new DirectoryListingObject(l, lower);
    var r;
    r, matchedCase := object'.LookupFile(name, exactOnly);
    filled := object'.value;
    MatchIsAnswer(filled.entries, name, exactOnly, lower, r, matchedCase);
    entry := if r.Some? then Some(filled.entries[r.value]) else None;
  }

  // ---- The cache ----

  class Cache {
    var servers: seq<ServerEntry>
    var lru: seq<Node>
    var total: int
    var nextId: nat
    var ttl: int
    const lower: Folding

    constructor (lower: Folding)
      ensures Value() == EMPTY && Linked(Value()) && this.lower == lower && ttl == 600000
    {
      servers, lru, total, nextId, ttl := [], [], 0, 0, 600000;
      this.lower := lower;
    }

    ghost function Value(): State
      reads this
    {
      State(servers, lru, total, nextId)
    }

    /** Half a minute to a day, in milliseconds. */
    method SetTtl(duration: int)
      modifies this`ttl
      ensures ttl == (if duration < 30000 then 30000 else if duration > 86400000 then 86400000 else duration)
    {
      ttl := if duration < 30000 then 30000 else if duration > 86400000 then 86400000 else duration;
    }

    method GetServerEntry(server: Server) returns (i: nat)
      ensures i == ServerIndex(servers, server)
    {
      i := 0;
      assert servers[0..] == servers;
      while i < |servers|
        invariant i <= |servers| && ServerIndex(servers, server) == i + ServerIndex(servers[i..], server)
      {
        if servers[i].server == server {
          return;
        }
        assert servers[i..][1..] == servers[i + 1..];
        i := i + 1;
      }
    }

    method CreateServerEntry(server: Server) returns (i: nat)
      requires Linked(Value())
      modifies this
      ensures ttl == old(ttl)
      ensures Value() == CreateState(old(Value()), server) && i == ServerIndex(servers, server) < |servers|
    {
      CreatedIndex(Value(), server);
      hide *;
      i := GetServerEntry(server);
      if i == |servers| {
        servers := servers + [ServerEntry(nextId, server, [])];
        nextId := nextId + 1;
      }
    }

    method FindLowerBound(list: seq<CacheEntry>, path: ServerPath) returns (k: nat)
      ensures k == LowerBound(list, path)
    {
      k := 0;
      assert list[0..] == list;
      hide PathLess;
      while k < |list| && PathLess(list[k].listing.path, path)
        invariant k <= |list| && LowerBound(list, path) == k + LowerBound(list[k..], path)
      {
        assert list[k..][1..] == list[k + 1..];
        k := k + 1;
      }
    }

    /** The entry becomes the most recently used; one that is not in the LRU list yet is put there. */
    method UpdateLru(i: nat, k: nat)
      requires i < |servers| && k < |servers[i].cacheList|
      modifies this
      ensures i < |servers| && k < |servers[i].cacheList| && servers[i].cacheList[k].lru.Some?
      ensures ttl == old(ttl)
      ensures old(servers[i].cacheList[k].lru.Some?) ==> Value() == TouchState(old(Value()), i, k)
      ensures old(servers[i].cacheList[k].lru.None?) ==>
        && servers == WithList(old(servers), i, old(servers[i].cacheList)[k := old(servers[i].cacheList[k]).(lru := Some(old(nextId)))])
        && lru == old(lru) + [Node(old(nextId), old(servers[i].id), old(servers[i].cacheList[k].listing.path))]
        && total == old(total) && nextId == old(nextId) + 1
    {
      var list := servers[i].cacheList;
      var e := list[k];
      if e.lru.Some? {
        lru := Moved(lru, e.lru.value);
      } else {
        servers := WithList(servers, i, list[k := e.(lru := Some(nextId))]);
        lru := lru + [Node(nextId, servers[i].id, e.listing.path)];
        nextId := nextId + 1;
      }
    }

    /**
     A hit is an entry for exactly this path.  It counts as a use even when its unsure bits then turn the caller
     away.
     */
    method LookupEntry(i: nat, path: ServerPath, allowUnsure: bool, now: int) returns (k: nat, found: bool, outdated: bool)
      requires Linked(Value()) && i < |servers|
      modifies this
      ensures servers == old(servers) && k == LowerBound(servers[i].cacheList, path)
      ensures Value() == if Hits(servers[i].cacheList, path) then TouchState(old(Value()), i, k) else old(Value())
      ensures found <==> Hits(servers[i].cacheList, path) && (allowUnsure || UnsureFlags(servers[i].cacheList[k].listing) == 0)
      ensures outdated <==> found && now - servers[i].cacheList[k].listing.firstListTime > ttl
      ensures ttl == old(ttl)
    {
      k := FindLowerBound(servers[i].cacheList, path);
      found, outdated := false, false;
      if k < |servers[i].cacheList| {
        var e := servers[i].cacheList[k];
        assert ListOk(servers[i].cacheList);
        if e.listing.path == path {
          assert Hits(servers[i].cacheList, path);
          hide Linked, Moved, LowerBound, Hits;
          UpdateLru(i, k);
          if !allowUnsure && UnsureFlags(e.listing) != 0 {
            return;
          }
          outdated := now - e.listing.firstListTime > ttl;
          found := true;
        }
      }
    }

    /** The public lookup: what is found is what the cache, seen as a map, holds for the path. */
    method Lookup(server: Server, path: ServerPath, allowUnsure: bool, now: int) returns (listing: Option<Listing>, outdated: bool)
      requires Linked(Value())
      modifies this
      ensures Value() == LookupState(old(Value()), server, path)
      ensures
        var l := ListingAt(old(Value()), server, path);
        listing.Some? <==> l.Some? && (allowUnsure || UnsureFlags(l.value) == 0)
      ensures listing.Some? ==> listing == ListingAt(old(Value()), server, path)
      ensures outdated <==> listing.Some? && now - listing.value.firstListTime > ttl
      ensures ttl == old(ttl)
    {
      var i := GetServerEntry(server);
      if i == |servers| {
        return None, false;
      }
      var k, found;
      k, found, outdated := LookupEntry(i, path, allowUnsure, now);
      listing := if found then Some(servers[i].cacheList[k].listing) else None;
      hide Linked, Moved, LowerBound;
    }

    /** When the listing for a path was last changed, if there is one; asking is a use of it. */
    method GetChangeTime(server: Server, path: ServerPath, now: int) returns (time: Option<int>)
      requires Linked(Value())
      modifies this
      ensures Value() == LookupState(old(Value()), server, path)
      ensures time == ChangeTime(old(Value()), server, path)
      ensures ttl == old(ttl)
    {
      var i := GetServerEntry(server);
      if i == |servers| {
        return None;
      }
      var k, found, outdated := LookupEntry(i, path, true, now);
      time := if found then Some(servers[i].cacheList[k].modificationTime) else None;
      hide Linked, Moved, LowerBound;
    }

    /** One entry: if the operation concerns it, it is touched and changed, and its files are counted anew. */
    method EditOne(i: nat, k: nat, edit: Edit, c: Change, touch: bool, now: int) returns (concerned: bool, dir: bool)
      requires i < |servers| && k < |servers[i].cacheList| && servers[i].cacheList[k].lru.Some? && Makes(c, edit)
      modifies this
      ensures Value() == EditOneState(old(Value()), i, k, edit, touch, now)
      ensures
        var l := old(servers[i].cacheList[k].listing);
        && concerned == edit.concerns(l.path)
        && (dir <==> concerned && c.Invalidate? && NamesDir(l.entries, c.name, c.fold))
      ensures ttl == old(ttl)
    {
      hide NamesDir, Applied;
      var e := servers[i].cacheList[k];
      concerned, dir := edit.concerns(e.listing.path), false;
      if concerned {
        if touch {
          UpdateLru(i, k);
        }
        var listing;
        listing, dir := Apply(c, e.listing);
        assert listing == edit.change(e.listing);
        total := total + |listing.entries| - |e.listing.entries|;
        servers := WithList(servers, i, servers[i].cacheList[k := e.(listing := listing, modificationTime := now)]);
      } else {
        assert servers[i].cacheList[k := e] == servers[i].cacheList;
      }
    }

    /** The loop over a server's entries that the updating operations share. */
    method EditEntries(i: nat, edit: Edit, c: Change, touch: bool, now: int) returns (concerned: bool, dir: bool)
      requires Linked(Value()) && i < |servers| && Makes(c, edit)
      modifies this
      ensures Value() == EditState(old(Value()), i, edit, touch, now)
      ensures
        var list := old(servers[i].cacheList);
        && concerned == AnyConcerned(list, edit, |list|)
        && dir == MetDir(list, edit, c, |list|)
      ensures ttl == old(ttl)
    {
      ghost var s := Value();
      ghost var list := s.servers[i].cacheList;
      var k := 0;
      concerned, dir := false, false;
      assert ListOk(s.servers[i].cacheList);
      EditedUpToEnds(s, i, edit, touch, now);
      hide Linked, PathLess, EditedUpTo, EditOneState, EditState, NamesDir, Makes;
      while k < |servers[i].cacheList|
        invariant k <= |list|
        invariant Value() == EditedUpTo(s, i, edit, touch, now, k)
        invariant i < |servers| && |servers[i].cacheList| == |list|
        invariant concerned == AnyConcerned(list, edit, k) && dir == MetDir(list, edit, c, k)
        invariant ttl == old(ttl)
        decreases |list| - k
      {
        EditStep(s, i, edit, touch, now, k);
        var now', met := EditOne(i, k, edit, c, touch, now);
        concerned, dir := concerned || now', dir || met;
        k := k + 1;
      }
    }

    /** Erasing an entry takes its node out of the LRU list and its files out of the count. */
    method EraseOne(i: nat, k: nat)
      requires i < |servers| && k < |servers[i].cacheList|
      modifies this
      ensures Value() == EraseOneState(old(Value()), i, k)
      ensures ttl == old(ttl)
    {
      var e := servers[i].cacheList[k];
      total := total - |e.listing.entries|;
      lru := Unlinked(lru, e.lru.GetOr(0));
      servers := WithList(servers, i, Without(servers[i].cacheList, k));
    }

    method EraseEntries(i: nat, goes: ServerPath -> bool)
      requires Linked(Value()) && i < |servers|
      modifies this
      ensures Value() == EraseState(old(Value()), i, goes)
      ensures ttl == old(ttl)
    {
      var k := 0;
      EraseFromEnds(Value(), i, goes);
      hide Linked, EraseFrom, EraseState, EraseOneState;
      while k < |servers[i].cacheList|
        invariant i < |servers| && k <= |servers[i].cacheList|
        invariant EraseFrom(Value(), i, goes, k) == EraseState(old(Value()), i, goes)
        invariant ttl == old(ttl)
        decreases |servers[i].cacheList| - k
      {
        EraseStep(Value(), i, goes, k);
        if goes(servers[i].cacheList[k].listing.path) {
          EraseOne(i, k);
        } else {
          k := k + 1;
        }
      }
      EraseFromEnds(Value(), i, goes);
    }

    method Evict()
      requires Linked(Value()) && lru != []
      modifies this
      ensures Value() == EvictState(old(Value()))
      ensures ttl == old(ttl)
    {
      EvictStateIs(Value());
      var i := IdIndex(servers, lru[0].serverId);
      var k := LowerBound(servers[i].cacheList, lru[0].path);
      hide Linked, IdIndex, LowerBound, EvictState, Without, WithoutServer;
      total := total - |servers[i].cacheList[k].listing.entries|;
      servers := WithList(servers, i, Without(servers[i].cacheList, k));
      if servers[i].cacheList == [] {
        servers := WithoutServer(servers, i);
      }
      lru := lru[1..];
    }

    method Prune()
      requires Linked(Value())
      modifies this
      ensures Value() == PruneState(old(Value())) && Linked(Value())
      ensures ttl == old(ttl)
    {
      while |lru| > 50000 || (total > 1000000 && |lru| > 1000) || (total > 5000000 && |lru| > 100)
        invariant Linked(Value()) && PruneState(Value()) == PruneState(old(Value()))
        invariant ttl == old(ttl)
        decreases |lru|
      {
        PruneUnfolds(Value());
        hide Linked, Surplus, EvictState, PruneState;
        Evict();
      }
      hide Linked;
    }

    method InsertEntry(i: nat, k: nat, listing: Listing, now: int)
      requires i < |servers| && k == LowerBound(servers[i].cacheList, listing.path)
      modifies this
      ensures Value() == InsertState(old(Value()), i, listing, now)
      ensures ttl == old(ttl)
    {
      var list := servers[i].cacheList;
      total := total + |listing.entries|;
      servers := WithList(servers, i, list[..k] + [CacheEntry(listing, now, None)] + list[k..]);
      assert servers[i].cacheList[k] == CacheEntry(listing, now, None);
      UpdateLru(i, k);
      assert servers[i].cacheList == Inserted(list, CacheEntry(listing, now, Some(old(nextId))));
      assert servers == WithList(old(servers), i, servers[i].cacheList);
    }

    method ReplaceEntry(i: nat, k: nat, listing: Listing, now: int)
      requires i < |servers| && k < |servers[i].cacheList|
      requires servers[i].cacheList[k].lru.Some? && servers[i].cacheList[k].listing.path == listing.path
      modifies this
      ensures Value() == ReplaceState(TouchState(old(Value()), i, k), i, k, listing, now)
      ensures ttl == old(ttl)
    {
      UpdateLru(i, k);
      hide Moved;
      var e := servers[i].cacheList[k];
      total := total + |listing.entries| - |e.listing.entries|;
      servers := WithList(servers, i, servers[i].cacheList[k := e.(listing := listing, modificationTime := now)]);
    }

    method InsertAndPrune(i: nat, k: nat, listing: Listing, now: int)
      requires Linked(Value()) && i < |servers| && IsNew(servers[i].cacheList, listing.path)
      requires k == LowerBound(servers[i].cacheList, listing.path)
      modifies this
      ensures Value() == StoreAt(old(Value()), i, listing, now)
      ensures ttl == old(ttl)
    {
      StoreNew(Value(), i, listing, now);
      hide Linked, PruneState, InsertState, StoreAt;
      InsertEntry(i, k, listing, now);
      Prune();
    }

    /** The set keeps the entry it has, which is touched; the files are counted all the same. */
    method TouchAndPrune(i: nat, k: nat, listing: Listing, now: int)
      requires Linked(Value()) && i < |servers|
      requires !Hits(servers[i].cacheList, listing.path) && !IsNew(servers[i].cacheList, listing.path)
      requires k == LowerBound(servers[i].cacheList, listing.path) && servers[i].cacheList[k].lru.Some?
      modifies this
      ensures Value() == StoreAt(old(Value()), i, listing, now)
      ensures ttl == old(ttl)
    {
      StoreAmbiguous(Value(), i, listing, now);
      TouchKeepsTotal(Value(), i, k);
      hide Linked, PruneState, TouchState, StoreAt;
      UpdateLru(i, k);
      total := total + |listing.entries|;
      Prune();
    }

    method StoreInto(i: nat, listing: Listing, now: int)
      requires Linked(Value()) && i < |servers|
      modifies this
      ensures Value() == StoreAt(old(Value()), i, listing, now)
      ensures ttl == old(ttl)
    {
      assert ListOk(servers[i].cacheList);
      assert forall k :: 0 <= k < |servers[i].cacheList| ==> servers[i].cacheList[k].lru.Some?;
      LowerBoundCases(servers[i].cacheList, listing.path);
      hide *;
      var k := FindLowerBound(servers[i].cacheList, listing.path);
      if k < |servers[i].cacheList| && servers[i].cacheList[k].listing.path == listing.path {
        StoreHit(Value(), i, listing, now);
        ReplaceEntry(i, k, listing, now);
      } else if k == |servers[i].cacheList| || PathLess(listing.path, servers[i].cacheList[k].listing.path) {
        InsertAndPrune(i, k, listing, now);
      } else {
        TouchAndPrune(i, k, listing, now);
      }
    }

    method Store(listing: Listing, server: Server, now: int)
      requires Linked(Value())
      modifies this
      ensures Value() == StoreState(old(Value()), server, listing, now) && Linked(Value())
      ensures ttl == old(ttl)
    {
      ghost var s := Value();
      CreateKeepsInv(s, server);
      StoreKeepsInv(s, server, listing, now);
      assert StoreState(s, server, listing, now) ==
        StoreAt(CreateState(s, server), ServerIndex(CreateState(s, server).servers, server), listing, now);
      hide Linked, Surplus, StoreState, CreateState, StoreAt;
      var i := CreateServerEntry(server);
      StoreInto(i, listing, now);
    }

    method InvalidateServer(server: Server)
      requires Linked(Value())
      modifies this
      ensures Value() == InvalidateServerState(old(Value()), server) && Linked(Value())
      ensures ttl == old(ttl)
    {
      InvalidateServerIsGood(Value(), server, lower);
      hide Linked, Surplus, Derived, EraseState;
      var i := GetServerEntry(server);
      if i < |servers| {
        EraseEntries(i, _ => true);
        servers := WithoutServer(servers, i);
      }
    }

    method UpdateFile(server: Server, path: ServerPath, name: string, mayCreate: bool, typ: FileType, size: int,
                      ownerGroup: string, now: int)
      returns (updated: bool)
      requires Linked(Value())
      modifies this
      ensures Value() == UpdateFileState(old(Value()), server, path, name, mayCreate, typ, size, ownerGroup, now, lower)
      ensures Linked(Value()) && ttl == old(ttl)
      ensures
        var i := ServerIndex(old(servers), server);
        var list := if i < |old(servers)| then old(servers)[i].cacheList else [];
        updated <==> exists k :: 0 <= k < |list| && EqualNoCase(path, list[k].listing.path, lower)
    {
      UpdateFileIsGood(Value(), server, path, name, mayCreate, typ, size, ownerGroup, now, lower);
      var edit := UpdateFileEdit(path, name, mayCreate, typ, size, ownerGroup, lower);
      var change := Change.Update(name, mayCreate, typ, size, ownerGroup, lower);
      assert Makes(change, edit);
      hide Linked, Surplus, Derived, EditState, EqualNoCase, Makes;
      var i := GetServerEntry(server);
      if i == |servers| {
        return false;
      }
      AnyConcernedIs(servers[i].cacheList, edit, |servers[i].cacheList|);
      var dir;
      updated, dir := EditEntries(i, edit, change, true, now);
    }

    method RemoveFile(server: Server, path: ServerPath, name: string, now: int)
      requires Linked(Value())
      modifies this
      ensures Value() == RemoveFileState(old(Value()), server, path, name, now, lower)
      ensures Linked(Value()) && ttl == old(ttl)
    {
      RemoveFileIsGood(Value(), server, path, name, now, lower);
      var edit, change := RemoveFileEdit(path, name, lower), Change.Remove(name, lower);
      assert Makes(change, edit);
      hide Linked, Surplus, Derived, EditState, Makes;
      var i := GetServerEntry(server);
      if i < |servers| {
        var _, _ := EditEntries(i, edit, change, true, now);
      }
    }

    method InvalidateFile(server: Server, path: ServerPath, name: string, cmpCase: bool, now: int)
      requires Linked(Value())
      modifies this
      ensures Value() == InvalidateFileState(old(Value()), server, path, name, cmpCase, now, lower)
      ensures Linked(Value()) && ttl == old(ttl)
    {
      ghost var s := Value();
      InvalidateFileIsGood(s, server, path, name, cmpCase, now, lower);
      var i := GetServerEntry(server);
      if i < |servers| {
        var edit, change := InvalidateFileEdit(path, name, cmpCase, lower), Invalidate(name, FoldFor(cmpCase, lower));
        var below := InvalidateBelowEdit(path, cmpCase, lower);
        assert Makes(change, edit) && Makes(Flag, below);
        EditsAreFaithful(path, name, cmpCase, true, UnknownType, 0, "", lower);
        EditIsGood(s, i, edit, true, now, lower);
        assert |EditState(s, i, edit, true, now).servers| == |s.servers|;
        MetDirIs(servers[i].cacheList, edit, change, |servers[i].cacheList|);
        assert MetDir(servers[i].cacheList, edit, change, |servers[i].cacheList|) <==>
          FoundDir(servers[i].cacheList, edit, name, FoldFor(cmpCase, lower));
        hide Linked, Surplus, Derived, EditState, FoundDir, FaithfulEdit, MetDir, Makes, CanEnter;
        var _, dir := EditEntries(i, edit, change, true, now);
        if dir && CanEnter(path, name) {
          var _, _ := EditEntries(i, below, Flag, false, now);
        }
      }
    }

    method RemoveDir(server: Server, path: ServerPath, name: string, now: int)
      requires Linked(Value())
      modifies this
      ensures Value() == RemoveDirState(old(Value()), server, path, name, now, lower)
      ensures Linked(Value()) && ttl == old(ttl)
    {
      ghost var s := Value();
      EraseServerIsGood(s, server, GoesWithDir(path, name, lower), lower);
      hide Linked, Surplus, Derived, EraseState, RemoveFileState;
      var i := GetServerEntry(server);
      if i < |servers| {
        EraseEntries(i, GoesWithDir(path, name, lower));
      }
      assert Value() == EraseServer(s, server, GoesWithDir(path, name, lower));
      RemoveFile(server, path, name, now);
    }

    /** The listing a lookup that accepts unsure entries has just found. */
    method FindListing(server: Server, path: ServerPath, now: int) returns (l: Option<Listing>, outdated: bool)
      requires Linked(Value())
      modifies this
      ensures outdated <==> l.Some? && now - l.value.firstListTime > ttl
      ensures l == ListingAt(old(Value()), server, path) == ListingAt(Value(), server, path)
      ensures Value() == LookupState(old(Value()), server, path)
      ensures Linked(Value()) && ttl == old(ttl)
    {
      LookupIsGood(Value(), server, path, lower);
      hide Linked, Surplus, Derived, LookupState, ListingAt;
      l, outdated := Lookup(server, path, true, now);
    }

    /** Writes to the listing found for the path. */
    method Put(server: Server, path: ServerPath, listing: Listing)
      modifies this
      ensures Value() == PutListing(old(Value()), server, path, listing)
      ensures ttl == old(ttl)
    {
      var i := GetServerEntry(server);
      if i < |servers| {
        var k := FindLowerBound(servers[i].cacheList, path);
        hide PathLess, LowerBound;
        if k < |servers[i].cacheList| && servers[i].cacheList[k].listing.path == path {
          var e := servers[i].cacheList[k];
          total := total + |listing.entries| - |e.listing.entries|;
          servers := WithList(servers, i, servers[i].cacheList[k := e.(listing := listing)]);
        }
      }
    }

    /** Renaming within one directory; what takes the place of the old target goes first. */
    method RenameHere(server: Server, path: ServerPath, from: string, to: string, now: int)
      requires Linked(Value())
      modifies this
      ensures Value() == CacheRuns.RenameHere(old(Value()), server, path, from, to, now, lower)
      ensures Linked(Value()) && ttl == old(ttl)
    {
      RenameHereIsGood(Value(), server, path, from, to, now, lower);
      hide Linked, Surplus, Derived, ListingAt, RemoveDirState, UpdateFileState, PutListing, RenamedFile;
      var l := CurrentListing(server, path);
      if l.Some? {
        var n := FindNamed(l.value.entries, from);
        if n < |l.value.entries| {
          if l.value.entries[n].isDir {
            RemoveDir(server, path, from, now);
            RemoveDir(server, path, to, now);
            var updated := UpdateFile(server, path, to, true, DirEntry, -1, "", now);
          } else {
            Put(server, path, RenamedFile(l.value, n, to));
          }
        }
      }
    }

    method RenameAway(server: Server, pathFrom: ServerPath, from: string, pathTo: ServerPath, to: string, now: int)
      requires Linked(Value())
      modifies this
      ensures Value() == CacheRuns.RenameAway(old(Value()), server, pathFrom, from, pathTo, to, now, lower)
      ensures Linked(Value()) && ttl == old(ttl)
    {
      hide Linked, Surplus, ListingAt, RemoveDirState, RemoveFileState, UpdateFileState;
      var l := CurrentListing(server, pathFrom);
      if l.Some? {
        var n := FindNamed(l.value.entries, from);
        if n < |l.value.entries| {
          if l.value.entries[n].isDir {
            RemoveDir(server, pathFrom, from, now);
            var updated := UpdateFile(server, pathTo, to, true, DirEntry, -1, "", now);
          } else {
            RemoveFile(server, pathFrom, from, now);
            var updated := UpdateFile(server, pathTo, to, true, FileEntry, -1, "", now);
          }
        }
      }
    }

    /** The listing through the reference the caller holds: it is looked at without being touched. */
    method CurrentListing(server: Server, path: ServerPath) returns (l: Option<Listing>)
      ensures l == ListingAt(Value(), server, path)
    {
      var i := GetServerEntry(server);
      if i == |servers| {
        return None;
      }
      var k := FindLowerBound(servers[i].cacheList, path);
      hide PathLess, LowerBound;
      return if k < |servers[i].cacheList| && servers[i].cacheList[k].listing.path == path
        then Some(servers[i].cacheList[k].listing) else None;
    }

    method Rename(server: Server, pathFrom: ServerPath, from: string, pathTo: ServerPath, to: string, now: int)
      requires Linked(Value())
      modifies this
      ensures Value() == RenameState(old(Value()), server, pathFrom, from, pathTo, to, now, lower)
      ensures Linked(Value()) && ttl == old(ttl)
    {
      hide Linked, Surplus, ListingAt, LookupState, InvalidateServerState, RemoveFileState, CacheRuns.RenameHere, CacheRuns.RenameAway;
      ghost var s := Value();
      var l, _ := FindListing(server, pathFrom, now);
      if l.Some? {
        if pathFrom == pathTo {
          RemoveFile(server, pathFrom, to, now);
          RenameHere(server, pathFrom, from, to, now);
        } else {
          RenameAway(server, pathFrom, from, pathTo, to, now);
        }
        return;
      }
      assert Value() == s by {
        MissLeavesState(s, server, pathFrom);
      }
      InvalidateServer(server);
    }

    method UpdateOwnerGroup(server: Server, path: ServerPath, name: string, ownerGroup: string, now: int)
      requires Linked(Value())
      modifies this
      ensures Value() == UpdateOwnerGroupState(old(Value()), server, path, name, ownerGroup)
      ensures Linked(Value()) && ttl == old(ttl)
    {
      ghost var s := Value();
      UpdateOwnerGroupIsGood(s, server, path, name, ownerGroup, lower);
      hide Linked, Surplus, Derived, ListingAt, LookupState, InvalidateServerState, PutListing, ReownedFile;
      var l, _ := FindListing(server, path, now);
      if l.Some? {
        var n := FindNamed(l.value.entries, name);
        if n < |l.value.entries| {
          if !l.value.entries[n].isDir {
            Put(server, path, ReownedFile(l.value, n, ownerGroup));
          }
          return;
        }
      } else {
        assert Value() == s by {
          MissLeavesState(s, server, path);
        }
      }
      InvalidateServer(server);
    }

    /**
     Looking a file up, unless its listing is too old for the caller: exact names first; then, unless names on the
     server tell case apart, folded ones.  The listing's name maps may be filled on the way.
     */
    method LookupFile(server: Server, path: ServerPath, name: string, exactOnly: bool, allowOutdated: bool, now: int)
      returns (entry: Option<Dirent>, matchedCase: bool, dirExists: bool, outdated: bool,
               ghost byCase: Option<Index>, ghost byNoCase: Option<Index>)
      requires Linked(Value())
      requires ListingAt(Value(), server, path).Some? ==> Indexed(ListingAt(Value(), server, path).value, lower)
      modifies this
      ensures Linked(Value()) && ttl == old(ttl)
      ensures Value() == FillMaps(old(Value()), server, path, byCase, byNoCase, lower)
      ensures
        var l := ListingAt(old(Value()), server, path);
        && (outdated <==> l.Some? && now - l.value.firstListTime > ttl)
        && (dirExists <==> l.Some? && (!outdated || allowOutdated))
      ensures !dirExists ==> entry.None? && !matchedCase
      ensures dirExists ==> IsAnswer(ListingAt(old(Value()), server, path).value.entries, name, exactOnly, lower, entry, matchedCase)
    {
      ghost var s := Value();
      var l;
      l, outdated := FindListing(server, path, now);
      entry, matchedCase, dirExists, byCase, byNoCase := None, false, l.Some? && (!outdated || allowOutdated), None, None;
      if l.None? {
        assert Value() == s by {
          MissLeavesState(s, server, path);
        }
        return;
      }
      byCase, byNoCase := l.value.byCase, l.value.byNoCase;
      var filled := l.value;
      if dirExists {
        entry, matchedCase, filled := LookupInListing(l.value, name, exactOnly, lower);
        byCase, byNoCase := filled.byCase, filled.byNoCase;
      }
      FillMapsIsGood(s, server, path, byCase, byNoCase, lower);
      assert FillMaps(s, server, path, byCase, byNoCase, lower) == PutListing(Value(), server, path, filled) by {
        hide Linked, Surplus, Derived, ListingAt, LookupState, PutListing, Indexed;
      }
      if !dirExists {
        PutBack(Value(), server, path);
        hide *;
        return;
      }
      hide *;
      Put(server, path, filled);
    }
  }

  /** Writing back what is there changes nothing. */
  lemma PutBack(s: State, server: Server, path: ServerPath)
    requires ListingAt(s, server, path).Some?
    ensures PutListing(s, server, path, ListingAt(s, server, path).value) == s
  {
    var i := ServerIndex(s.servers, server);
    var k := LowerBound(s.servers[i].cacheList, path);
    var e := s.servers[i].cacheList[k];
    assert s.servers[i].cacheList[k := e] == s.servers[i].cacheList;
    WithListTwice(s.servers, i, s.servers[i].cacheList, s.servers[i].cacheList);
  }

  // ---- One step of the loops ----

  lemma WithListTwice(servers: seq<ServerEntry>, i: nat, a: seq<CacheEntry>, b: seq<CacheEntry>)
    requires i < |servers|
    ensures |WithList(servers, i, a)| == |servers| && WithList(servers, i, a)[i].cacheList == a
    ensures WithList(WithList(servers, i, a), i, b) == WithList(servers, i, b)
    ensures WithList(servers, i, b)[i].cacheList == b && WithList(servers, i, servers[i].cacheList) == servers
  {
  }

  lemma {:induction false} EditedAppend(a: seq<CacheEntry>, b: seq<CacheEntry>, edit: Edit, now: int)
    ensures Edited(a + b, edit, now) == Edited(a, edit, now) + Edited(b, edit, now) && |Edited(a, edit, now)| == |a|
  {
    if a == [] {
      assert a + b == b;
    } else {
      assert (a + b)[1..] == a[1..] + b;
      EditedAppend(a[1..], b, edit, now);
    }
  }

  function EditOneState(s: State, i: nat, k: nat, edit: Edit, touch: bool, now: int): State
    requires i < |s.servers| && k < |s.servers[i].cacheList|
  {
    var list := s.servers[i].cacheList;
    var e := EditedEntry(list[k], edit, now);
    s.(servers := WithList(s.servers, i, list[k := e]),
       lru := if edit.concerns(list[k].listing.path) && touch then Moved(s.lru, list[k].lru.GetOr(0)) else s.lru,
       total := s.total + |e.listing.entries| - |list[k].listing.entries|)
  }

  /** The state after the first entries have been dealt with. */
  function EditedUpTo(s: State, i: nat, edit: Edit, touch: bool, now: int, k: nat): State
    requires i < |s.servers| && k <= |s.servers[i].cacheList|
  {
    var list := s.servers[i].cacheList;
    var cur := Edited(list[..k], edit, now) + list[k..];
    s.(servers := WithList(s.servers, i, cur),
       lru := if touch then Touched(s.lru, list[..k], edit) else s.lru,
       total := s.total + Size(cur) - Size(list))
  }

  lemma EditedUpToEnds(s: State, i: nat, edit: Edit, touch: bool, now: int)
    requires i < |s.servers|
    ensures EditedUpTo(s, i, edit, touch, now, 0) == s
    ensures EditedUpTo(s, i, edit, touch, now, |s.servers[i].cacheList|) == EditState(s, i, edit, touch, now)
  {
    var list := s.servers[i].cacheList;
    assert list[..0] == [] && [] + list[0..] == list;
    assert list[..|list|] == list && list[|list|..] == [];
    assert Edited(list, edit, now) + [] == Edited(list, edit, now);
  }

  lemma {:induction false} TouchedAppend(lru: seq<Node>, a: seq<CacheEntry>, b: seq<CacheEntry>, edit: Edit)
    ensures Touched(lru, a + b, edit) == Touched(Touched(lru, a, edit), b, edit)
    decreases |a|
  {
    if a == [] {
      assert a + b == b;
    } else {
      assert (a + b)[1..] == a[1..] + b;
      TouchedAppend(if edit.concerns(a[0].listing.path) then Moved(lru, a[0].lru.GetOr(0)) else lru, a[1..], b, edit);
    }
  }

  lemma SizeOfUpdate(list: seq<CacheEntry>, k: nat, e: CacheEntry)
    requires k < |list|
    ensures Size(list[k := e]) == Size(list) + |e.listing.entries| - |list[k].listing.entries|
  {
    NodesSplit(0, list, k);
    NodesSplit(0, list[k := e], k);
    assert list[k := e][..k] == list[..k] && list[k := e][k + 1..] == list[k + 1..];
    hide Size, Nodes;
  }

  lemma EditStepLists(list: seq<CacheEntry>, k: nat, edit: Edit, now: int, lru: seq<Node>)
    requires k < |list|
    ensures
      var cur := Edited(list[..k], edit, now) + list[k..];
      && |cur| == |list| && cur[k] == list[k]
      && Edited(list[..k + 1], edit, now) + list[k + 1..] == cur[k := EditedEntry(list[k], edit, now)]
    ensures Touched(lru, list[..k + 1], edit) ==
      if edit.concerns(list[k].listing.path) then Moved(Touched(lru, list[..k], edit), list[k].lru.GetOr(0)) else Touched(lru, list[..k], edit)
  {
    assert list[..k + 1] == list[..k] + [list[k]];
    EditedAppend(list[..k], [list[k]], edit, now);
    TouchedAppend(lru, list[..k], [list[k]], edit);
    assert Edited([list[k]], edit, now) == [EditedEntry(list[k], edit, now)];
    assert list[k..][0] == list[k] && list[k..][1..] == list[k + 1..];
    hide Edited, EditedEntry;
    PutNext(Edited(list[..k], edit, now), list[k..], EditedEntry(list[k], edit, now), []);
  }

  lemma EditStep(s: State, i: nat, edit: Edit, touch: bool, now: int, k: nat)
    requires i < |s.servers| && k < |s.servers[i].cacheList| && ListOk(s.servers[i].cacheList)
    ensures
      var s1 := EditedUpTo(s, i, edit, touch, now, k);
      && i < |s1.servers| && |s1.servers[i].cacheList| == |s.servers[i].cacheList|
      && s1.servers[i].cacheList[k] == s.servers[i].cacheList[k] && s1.servers[i].cacheList[k].lru.Some?
      && EditedUpTo(s, i, edit, touch, now, k + 1) == EditOneState(s1, i, k, edit, touch, now)
    ensures |EditedUpTo(s, i, edit, touch, now, k + 1).servers| == |s.servers|
    ensures |EditedUpTo(s, i, edit, touch, now, k + 1).servers[i].cacheList| == |s.servers[i].cacheList|
  {
    var list := s.servers[i].cacheList;
    var e := EditedEntry(list[k], edit, now);
    var cur := Edited(list[..k], edit, now) + list[k..];
    EditStepLists(list, k, edit, now, s.lru);
    SizeOfUpdate(cur, k, e);
    WithListTwice(s.servers, i, cur, cur[k := e]);
    hide Edited, Touched, Size, Moved, WithList, EditedEntry, PathLess;
  }

  function EraseOneState(s: State, i: nat, k: nat): State
    requires i < |s.servers| && k < |s.servers[i].cacheList|
  {
    var list := s.servers[i].cacheList;
    s.(servers := WithList(s.servers, i, Without(list, k)),
       lru := Unlinked(s.lru, list[k].lru.GetOr(0)),
       total := s.total - |list[k].listing.entries|)
  }

  /**
   A right answer to a lookup of a file: an entry of that name, or else, unless only exact names count, one whose
   folded name is the same; nothing only if there is neither.
   */
  ghost predicate IsAnswer(entries: seq<Dirent>, name: string, exactOnly: bool, lower: Folding, entry: Option<Dirent>, matchedCase: bool) {
    && (matchedCase <==> exists d :: d in entries && d.name == name)
    && (entry.Some? <==> exists d :: d in entries && (d.name == name || (!exactOnly && lower(d.name) == lower(name))))
    && (entry.Some? ==> entry.value in entries)
    && (entry.Some? ==> if matchedCase then entry.value.name == name else lower(entry.value.name) == lower(name))
  }

  lemma MatchIsAnswer(entries: seq<Dirent>, name: string, exactOnly: bool, lower: Folding, r: Option<nat>, matchedCase: bool)
    requires matchedCase <==> exists i :: 0 <= i < |entries| && entries[i].name == name
    requires if matchedCase || exactOnly then IsMatch(entries, name, EXACT, r) else IsMatch(entries, name, lower, r)
    ensures r.Some? ==> r.value < |entries|
    ensures IsAnswer(entries, name, exactOnly, lower, if r.Some? then Some(entries[r.value]) else None, matchedCase)
  {
    if d :| d in entries && (d.name == name || (!exactOnly && lower(d.name) == lower(name))) {
      var i :| 0 <= i < |entries| && entries[i] == d;
    }
  }

  lemma MissLeavesState(s: State, server: Server, path: ServerPath)
    requires ListingAt(s, server, path).None?
    ensures LookupState(s, server, path) == s
  {
  }

  lemma LowerBoundCases(list: seq<CacheEntry>, path: ServerPath)
    ensures
      var k := LowerBound(list, path);
      && (Hits(list, path) <==> k < |list| && list[k].listing.path == path)
      && (IsNew(list, path) <==> k == |list| || PathLess(path, list[k].listing.path))
  {
  }

  lemma CreatedIndex(s: State, server: Server)
    requires Linked(s)
    ensures
      var i := ServerIndex(s.servers, server);
      if i < |s.servers| then CreateState(s, server) == s
      else
        && CreateState(s, server) == s.(servers := s.servers + [ServerEntry(s.nextId, server, [])], nextId := s.nextId + 1)
        && ServerIndex(s.servers + [ServerEntry(s.nextId, server, [])], server) == |s.servers|
  {
    if ServerIndex(s.servers, server) == |s.servers| {
      hide ServersOk, DistinctIds, AllNodes;
      NewServerOk(s.servers, s.nextId, server);
    }
  }

  lemma EvictStateIs(s: State)
    requires Linked(s) && s.lru != []
    ensures
      var i := IdIndex(s.servers, s.lru[0].serverId);
      && i < |s.servers|
      && var k := LowerBound(s.servers[i].cacheList, s.lru[0].path);
         && k < |s.servers[i].cacheList|
         && EvictState(s) == DroppedIfEmpty(WithoutFront(s, i, k), i)
  {
    FrontLeadsToEntry(s);
  }

  /** The state after erasing from the entries that have not been looked at yet. */
  function EraseFrom(s: State, i: nat, goes: ServerPath -> bool, k: nat): State
    requires i < |s.servers| && k <= |s.servers[i].cacheList|
  {
    var list := s.servers[i].cacheList;
    var gone := Selected(list[k..], goes, true);
    s.(servers := WithList(s.servers, i, list[..k] + Selected(list[k..], goes, false)),
       lru := UnlinkedAll(s.lru, gone),
       total := s.total - Size(gone))
  }

  lemma EraseFromEnds(s: State, i: nat, goes: ServerPath -> bool)
    requires i < |s.servers|
    ensures EraseFrom(s, i, goes, 0) == EraseState(s, i, goes)
    ensures EraseFrom(s, i, goes, |s.servers[i].cacheList|) == s
  {
    var list := s.servers[i].cacheList;
    assert list[0..] == list && list[|list|..] == [];
    assert list[..0] + Selected(list, goes, false) == Selected(list, goes, false);
    assert list[..|list|] + [] == list;
  }

  lemma EraseStep(s: State, i: nat, goes: ServerPath -> bool, k: nat)
    requires i < |s.servers| && k < |s.servers[i].cacheList|
    ensures
      var s1 := EraseOneState(s, i, k);
      && i < |s1.servers| && |s1.servers[i].cacheList| == |s.servers[i].cacheList| - 1
      && EraseFrom(s, i, goes, k) ==
           if goes(s.servers[i].cacheList[k].listing.path) then EraseFrom(s1, i, goes, k) else EraseFrom(s, i, goes, k + 1)
  {
    var list := s.servers[i].cacheList;
    var e, rest := list[k], list[k + 1..];
    assert list[k..][0] == e && list[k..][1..] == rest;
    WithListTwice(s.servers, i, Without(list, k), Without(list, k)[..k] + Selected(rest, goes, false));
    if goes(e.listing.path) {
      assert Without(list, k)[..k] == list[..k] && Without(list, k)[k..] == rest;
      var gone := Selected(rest, goes, true);
      assert Selected(list[k..], goes, true) == [e] + gone && Selected(list[k..], goes, false) == Selected(rest, goes, false);
      assert ([e] + gone)[1..] == gone;
      assert Size([e] + gone) == |e.listing.entries| + Size(gone);
      assert UnlinkedAll(s.lru, [e] + gone) == UnlinkedAll(Unlinked(s.lru, e.lru.GetOr(0)), gone);
      hide Selected, Size, Unlinked, UnlinkedAll, WithList, Without;
    } else {
      var kept := Selected(rest, goes, false);
      assert Selected(list[k..], goes, false) == [e] + kept && Selected(list[k..], goes, true) == Selected(rest, goes, true);
      assert list[..k] + ([e] + kept) == list[..k + 1] + kept;
      hide Selected, Size, Unlinked, UnlinkedAll, WithList, Without;
    }
  }
}
