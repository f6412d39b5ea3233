/** What the operations of the directory cache write into a listing (src/engine/directorycache.cpp), entry by entry and bit by bit. */
module CacheContents {
  import opened Options
  import opened ServerPaths
  import opened DirectoryListing
  import opened CacheState
  import opened CachePruning
  import opened CacheView
  import opened CacheStore
  import opened CacheEdits
  import opened CacheRuns

  ghost predicate HasName(entries: seq<Dirent>, name: string) {
    exists k :: 0 <= k < |entries| && entries[k].name == name
  }

  /** The first entry of exactly this name. */
  ghost predicate IsFirst(entries: seq<Dirent>, name: string, i: nat) {
    i < |entries| && entries[i].name == name && forall k :: 0 <= k < i ==> entries[k].name != name
  }

  /** Whether the scan gets to an entry: it may end at the first exact match. */
  ghost predicate IsReached(entries: seq<Dirent>, name: string, untilExact: bool, i: nat)
    requires i < |entries|
  {
    untilExact ==> forall k :: 0 <= k < i ==> entries[k].name != name
  }

  /** The old entries are there, marked as unsure if the scan has got to them and the name is the same but for case. */
  ghost predicate OldAreMarked(old_: seq<Dirent>, new_: seq<Dirent>, name: string, fold: Folding, untilExact: bool) {
    |old_| <= |new_| &&
    forall i :: 0 <= i < |old_| ==>
      new_[i] == old_[i].(unsure := old_[i].unsure || (fold(old_[i].name) == fold(name) && IsReached(old_, name, untilExact, i)))
  }

  predicate SameListing(l: Listing, l': Listing) {
    l'.path == l.path && l'.firstListTime == l.firstListTime
  }

  predicate SameMaps(l: Listing, l': Listing) {
    l'.byCase == l.byCase && l'.byNoCase == l.byNoCase
  }

  /** Whether a write puts the file in: it is not there, its kind is known and that is wanted. */
  ghost predicate PutsIn(entries: seq<Dirent>, name: string, mayCreate: bool, typ: FileType) {
    !HasName(entries, name) && typ != UnknownType && mayCreate
  }

  ghost predicate EntriesWritten(old_: seq<Dirent>, new_: seq<Dirent>, name: string, mayCreate: bool, typ: FileType, size: int,
                                 ownerGroup: string, fold: Folding) {
    && OldAreMarked(old_, new_, name, fold, true)
    && (if PutsIn(old_, name, mayCreate, typ) then |new_| == |old_| + 1 && IsFresh(new_[|old_|], name, typ, size, ownerGroup)
        else |new_| == |old_|)
  }

  /** The bit that tells why the listing is unsure. */
  ghost predicate FlagsWritten(entries: seq<Dirent>, bits: Flags, bits': Flags, name: string, mayCreate: bool, typ: FileType) {
    && (PutsIn(entries, name, mayCreate, typ) ==> bits' == bits | (if typ == DirEntry then 0x208 else 0x001))
    && (!PutsIn(entries, name, mayCreate, typ) && !HasName(entries, name) ==> bits' == bits | 0x040)
    && (forall i: nat :: IsFirst(entries, name, i) ==>
          bits' == bits |
            (if typ == UnknownType || (typ == DirEntry) != entries[i].isDir then 0x080
             else if entries[i].isDir then 0x020
             else 0x004))
  }

  /** A write to a file: it is marked, or put in at the end if it is new. */
  ghost predicate WasUpdated(l: Listing, l': Listing, name: string, mayCreate: bool, typ: FileType, size: int, ownerGroup: string, fold: Folding) {
    && SameListing(l, l') && SameMaps(l, l')
    && EntriesWritten(l.entries, l'.entries, name, mayCreate, typ, size, ownerGroup, fold)
    && FlagsWritten(l.entries, l.flags, l'.flags, name, mayCreate, typ)
  }

  predicate IsFresh(e: Dirent, name: string, typ: FileType, size: int, ownerGroup: string) {
    && e.name == name && e.size == size && e.ownerGroup == ownerGroup && e.permissions == "" && e.time == 0
    && (e.isDir <==> typ == DirEntry) && !e.isLink && e.unsure
  }

  /** One entry is gone, and the name maps with it. */
  predicate WasTakenOut(l: Listing, l': Listing, i: nat)
    requires i < |l.entries|
  {
    && l'.entries == l.entries[..i] + l.entries[i + 1..]
    && l'.flags == l.flags | (if l.entries[i].isDir then 0x010 else 0x002)
    && l'.byCase.None? && l'.byNoCase.None?
  }

  ghost predicate WasOnlyMarked(l: Listing, l': Listing, name: string, fold: Folding, bits: Flags) {
    && |l'.entries| == |l.entries| && OldAreMarked(l.entries, l'.entries, name, fold, false)
    && l'.flags == l.flags | bits && SameMaps(l, l')
  }

  /** A removal: the first of the name goes, or those of the name but for case are marked. */
  ghost predicate WasRemoved(l: Listing, l': Listing, name: string, fold: Folding) {
    && SameListing(l, l')
    && (forall i: nat :: IsFirst(l.entries, name, i) ==> WasTakenOut(l, l', i))
    && (!HasName(l.entries, name) ==> WasOnlyMarked(l, l', name, fold, 0x080))
  }

  ghost predicate WasInvalidated(l: Listing, l': Listing, name: string, fold: Folding) {
    SameListing(l, l') && WasOnlyMarked(l, l', name, fold, 0x040)
  }

  /** A renaming in place: one entry has the new name and is unsure; name maps go if there is one for exact names. */
  ghost predicate WasRenamed(l: Listing, l': Listing, i: nat, name: string)
    requires i < |l.entries|
  {
    && SameListing(l, l') && |l'.entries| == |l.entries|
    && l'.entries[i] == l.entries[i].(name := name, unsure := true)
    && (forall k :: 0 <= k < |l.entries| && k != i ==> l'.entries[k] == l.entries[k])
    && l'.flags == l.flags | 0x040
    && (if l.byCase.Some? then l'.byCase.None? && l'.byNoCase.None? else SameMaps(l, l'))
  }

  ghost predicate WasReowned(l: Listing, l': Listing, i: nat, ownerGroup: string)
    requires i < |l.entries|
  {
    && SameListing(l, l') && |l'.entries| == |l.entries| && l'.flags == l.flags
    && l'.entries[i] == l.entries[i].(ownerGroup := ownerGroup)
    && (forall k :: 0 <= k < |l.entries| && k != i ==> l'.entries[k] == l.entries[k])
    && (if l.byCase.Some? then l'.byCase.None? && l'.byNoCase.None? else SameMaps(l, l'))
  }

  lemma FirstNamedIs(entries: seq<Dirent>, name: string)
    ensures
      var i := FirstNamed(entries, name);
      if i < |entries| then IsFirst(entries, name, i) && HasName(entries, name) else !HasName(entries, name)
    ensures forall i: nat :: IsFirst(entries, name, i) ==> i == FirstNamed(entries, name)
  {
    var i := FirstNamed(entries, name);
    assert i < |entries| ==> entries[i].name == name;
    hide FirstNamed;
  }

  lemma ReachedLater(entries: seq<Dirent>, name: string, untilExact: bool, i: nat)
    requires 0 < i < |entries|
    ensures IsReached(entries, name, untilExact, i) <==>
      (untilExact ==> entries[0].name != name) && IsReached(entries[1..], name, untilExact, i - 1)
  {
    assert forall k :: 0 <= k < i - 1 ==> entries[1..][k] == entries[k + 1];
    if (untilExact ==> entries[0].name != name) && IsReached(entries[1..], name, untilExact, i - 1) {
      forall k | untilExact && 0 <= k < i ensures entries[k].name != name {
        if k > 0 {
          assert entries[1..][k - 1].name != name;
        }
      }
    }
  }

  lemma MarkedFirst(entries: seq<Dirent>, name: string, fold: Folding, untilExact: bool)
    requires entries != []
    ensures
      var r, first, rest := Marked(entries, name, fold, untilExact), entries[0], entries[1..];
      var ends := untilExact && first.name == name;
      && r[0] == first.(unsure := first.unsure || fold(first.name) == fold(name))
      && r[1..] == (if ends then rest else Marked(rest, name, fold, untilExact))
  {
  }

  lemma {:induction false} MarkedIs(entries: seq<Dirent>, name: string, fold: Folding, untilExact: bool)
    ensures OldAreMarked(entries, Marked(entries, name, fold, untilExact), name, fold, untilExact)
  {
    if entries != [] {
      var rest, r := entries[1..], Marked(entries, name, fold, untilExact);
      MarkedIs(rest, name, fold, untilExact);
      MarkedFirst(entries, name, fold, untilExact);
      hide Marked;
      forall i: nat | i < |entries|
        ensures r[i] == entries[i].(unsure := entries[i].unsure || (fold(entries[i].name) == fold(name) && IsReached(entries, name, untilExact, i)))
      {
        if i > 0 {
          ReachedLater(entries, name, untilExact, i);
          assert r[i] == r[1..][i - 1] && entries[i] == rest[i - 1];
          hide IsReached;
        }
      }
    }
  }

  lemma SameNamesSameFirst(a: seq<Dirent>, b: seq<Dirent>, name: string)
    requires |a| == |b| && forall k :: 0 <= k < |a| ==> a[k].name == b[k].name
    ensures FirstNamed(a, name) == FirstNamed(b, name)
  {
    hide FirstNamed;
  }

  lemma MarkedMore(old_: seq<Dirent>, new_: seq<Dirent>, e: Dirent, name: string, fold: Folding)
    requires OldAreMarked(old_, new_, name, fold, true) && |new_| == |old_|
    ensures OldAreMarked(old_, new_ + [e], name, fold, true) && (new_ + [e])[|old_|] == e
  {
    hide IsReached;
  }

  lemma CreatesIs(entries: seq<Dirent>, marked: seq<Dirent>, name: string, mayCreate: bool, typ: FileType)
    requires |entries| == |marked| && forall k :: 0 <= k < |entries| ==> entries[k].name == marked[k].name
    ensures Creates(marked, name, mayCreate, typ) <==> PutsIn(entries, name, mayCreate, typ)
  {
    FirstNamedIs(entries, name);
    SameNamesSameFirst(entries, marked, name);
    hide FirstNamed, HasName, IsFirst;
  }

  lemma BitsAre(entries: seq<Dirent>, marked: seq<Dirent>, bits: Flags, name: string, mayCreate: bool, typ: FileType)
    requires |entries| == |marked|
    requires forall k :: 0 <= k < |entries| ==> entries[k].name == marked[k].name && entries[k].isDir == marked[k].isDir
    ensures FlagsWritten(entries, bits, bits | UpdateBits(marked, name, mayCreate, typ), name, mayCreate, typ)
  {
    FirstNamedIs(entries, name);
    SameNamesSameFirst(entries, marked, name);
    CreatesIs(entries, marked, name, mayCreate, typ);
    assert UNSURE_DIR_ADDED | HAS_DIRS == 0x208;
    if FirstNamed(entries, name) < |entries| {
      assert !PutsIn(entries, name, mayCreate, typ);
      hide FirstNamed, HasName, PutsIn, Creates, IsFirst;
    } else {
      assert forall i: nat :: !IsFirst(entries, name, i);
      hide FirstNamed, HasName, PutsIn, Creates, IsFirst;
    }
  }

  lemma UpdatedParts(l: Listing, name: string, mayCreate: bool, typ: FileType, size: int, ownerGroup: string, fold: Folding)
    ensures
      var l', entries := UpdatedFile(l, name, mayCreate, typ, size, ownerGroup, fold), Marked(l.entries, name, fold, true);
      && l'.entries == (if Creates(entries, name, mayCreate, typ) then entries + [NewEntry(name, typ, size, ownerGroup)] else entries)
      && l'.flags == l.flags | UpdateBits(entries, name, mayCreate, typ)
      && SameListing(l, l') && SameMaps(l, l')
  {
    hide Marked, UpdateBits, Creates, NewEntry;
  }

  lemma NewEntryIs(name: string, typ: FileType, size: int, ownerGroup: string)
    ensures IsFresh(NewEntry(name, typ, size, ownerGroup), name, typ, size, ownerGroup)
  {
  }

  lemma EntriesWrittenIs(old_: seq<Dirent>, marked: seq<Dirent>, name: string, mayCreate: bool, typ: FileType, size: int,
                         ownerGroup: string, fold: Folding)
    requires OldAreMarked(old_, marked, name, fold, true) && |marked| == |old_|
    ensures EntriesWritten(old_, if PutsIn(old_, name, mayCreate, typ) then marked + [NewEntry(name, typ, size, ownerGroup)] else marked,
                           name, mayCreate, typ, size, ownerGroup, fold)
  {
    var e := NewEntry(name, typ, size, ownerGroup);
    MarkedMore(old_, marked, e, name, fold);
    NewEntryIs(name, typ, size, ownerGroup);
    hide OldAreMarked, PutsIn, IsFresh, NewEntry;
  }

  lemma UpdatedFileIs(l: Listing, name: string, mayCreate: bool, typ: FileType, size: int, ownerGroup: string, fold: Folding)
    ensures WasUpdated(l, UpdatedFile(l, name, mayCreate, typ, size, ownerGroup, fold), name, mayCreate, typ, size, ownerGroup, fold)
  {
    var entries := Marked(l.entries, name, fold, true);
    MarkedIs(l.entries, name, fold, true);
    MarkedNames(l.entries, entries, name, fold);
    CreatesIs(l.entries, entries, name, mayCreate, typ);
    BitsAre(l.entries, entries, l.flags, name, mayCreate, typ);
    UpdatedParts(l, name, mayCreate, typ, size, ownerGroup, fold);
    EntriesWrittenIs(l.entries, entries, name, mayCreate, typ, size, ownerGroup, fold);
    hide EntriesWritten, FlagsWritten, PutsIn, OldAreMarked, SameListing, SameMaps, UpdatedFile, Marked, UpdateBits, Creates, NewEntry;
  }

  lemma MarkedNames(entries: seq<Dirent>, marked: seq<Dirent>, name: string, fold: Folding)
    requires OldAreMarked(entries, marked, name, fold, true) && |marked| == |entries|
    ensures forall k :: 0 <= k < |entries| ==> entries[k].name == marked[k].name && entries[k].isDir == marked[k].isDir
  {
    hide IsReached;
  }

  lemma RemovedFileIs(l: Listing, name: string, fold: Folding)
    ensures WasRemoved(l, RemovedFile(l, name, fold), name, fold)
  {
    var k, l' := FirstNamed(l.entries, name), RemovedFile(l, name, fold);
    FirstNamedIs(l.entries, name);
    if k < |l.entries| {
      assert l' == RemoveEntry(l, k);
      TakenOutIs(l, k);
      hide FirstNamed, HasName, RemovedFile, WasTakenOut, WasOnlyMarked, RemoveEntry;
    } else {
      assert l' == Flagged(l.(entries := Marked(l.entries, name, fold, false)), UNSURE_INVALID);
      OnlyMarkedIs(l, name, fold, UNSURE_INVALID);
      hide FirstNamed, HasName, RemovedFile, IsFirst, WasTakenOut, WasOnlyMarked, Flagged, Marked;
    }
  }

  lemma TakenOutIs(l: Listing, k: nat)
    requires k < |l.entries|
    ensures WasTakenOut(l, RemoveEntry(l, k), k) && SameListing(l, RemoveEntry(l, k))
  {
    TakenOutParts(l, k);
    assert UNSURE_DIR_REMOVED == 0x010 && UNSURE_FILE_REMOVED == 0x002;
    hide RemoveEntry;
  }

  lemma TakenOutParts(l: Listing, k: nat)
    requires k < |l.entries|
    ensures
      var l' := RemoveEntry(l, k);
      && SameListing(l, l') && l'.entries == l.entries[..k] + l.entries[k + 1..] && l'.byCase.None? && l'.byNoCase.None?
      && l'.flags == l.flags | (if l.entries[k].isDir then UNSURE_DIR_REMOVED else UNSURE_FILE_REMOVED)
  {
  }

  lemma OnlyMarkedIs(l: Listing, name: string, fold: Folding, bits: Flags)
    ensures
      var l' := Flagged(l.(entries := Marked(l.entries, name, fold, false)), bits);
      WasOnlyMarked(l, l', name, fold, bits) && SameListing(l, l')
  {
    MarkedIs(l.entries, name, fold, false);
    hide Marked, OldAreMarked;
  }

  lemma InvalidatedFileIs(l: Listing, name: string, fold: Folding)
    ensures WasInvalidated(l, InvalidatedFile(l, name, fold), name, fold)
  {
    OnlyMarkedIs(l, name, fold, UNSURE_UNKNOWN);
    hide WasOnlyMarked;
  }

  lemma RenamedParts(l: Listing, i: nat, name: string)
    requires i < |l.entries|
    ensures
      var l' := RenamedFile(l, i, name);
      && SameListing(l, l') && l'.entries == l.entries[i := l.entries[i].(name := name, unsure := true)]
      && l'.flags == l.flags | UNSURE_UNKNOWN
      && (if l.byCase.Some? then l'.byCase.None? && l'.byNoCase.None? else SameMaps(l, l'))
  {
  }

  lemma RenamedFileIs(l: Listing, i: nat, name: string)
    requires i < |l.entries|
    ensures WasRenamed(l, RenamedFile(l, i, name), i, name)
  {
    RenamedParts(l, i, name);
    assert UNSURE_UNKNOWN == 0x040;
    hide RenamedFile, SameListing, SameMaps;
  }

  lemma ReownedFileIs(l: Listing, i: nat, ownerGroup: string)
    requires i < |l.entries|
    ensures WasReowned(l, ReownedFile(l, i, ownerGroup), i, ownerGroup)
  {
  }
}
