/**
 What the cache's operations do to a single listing (src/engine/directorycache.cpp), and what none of them may
 do: change a listing's content without leaving an unsure bit behind.
 */
module CacheEdits {
  import opened Options
  import opened ServerPaths
  import opened DirectoryListing
  import opened CacheState

  datatype FileType = UnknownType | FileEntry | DirEntry

  // ---- Scanning a listing ----

  /** The first entry with exactly this name, or the number of entries. */
  function FirstNamed(entries: seq<Dirent>, name: string): (r: nat)
    ensures r <= |entries| && (r < |entries| ==> entries[r].name == name)
    ensures forall i :: 0 <= i < r ==> entries[i].name != name
  {
    if entries == [] || entries[0].name == name then 0 else 1 + FirstNamed(entries[1..], name)
  }

  /** Marks every entry whose folded name is the same as unsure, possibly ending with an exact match. */
  function Marked(entries: seq<Dirent>, name: string, fold: Folding, untilExact: bool): (r: seq<Dirent>)
    ensures |r| == |entries|
    ensures forall i :: 0 <= i < |r| ==> r[i] == entries[i] || r[i] == entries[i].(unsure := true)
  {
    if entries == [] then []
    else if fold(entries[0].name) != fold(name) then [entries[0]] + Marked(entries[1..], name, fold, untilExact)
    else if untilExact && entries[0].name == name then [entries[0].(unsure := true)] + entries[1..]
    else [entries[0].(unsure := true)] + Marked(entries[1..], name, fold, untilExact)
  }

  /** Whether some entry with the same folded name is a directory. */
  predicate NamesDir(entries: seq<Dirent>, name: string, fold: Folding) {
    exists i :: 0 <= i < |entries| && fold(entries[i].name) == fold(name) && entries[i].isDir
  }

  // ---- The changes ----

  function Flagged(l: Listing, bits: Flags): Listing {
    l.(flags := l.flags | bits)
  }

  function InvalidatedFile(l: Listing, name: string, fold: Folding): Listing {
    Flagged(l.(entries := Marked(l.entries, name, fold, false)), UNSURE_UNKNOWN)
  }

  function NewEntry(name: string, typ: FileType, size: int, ownerGroup: string): Dirent {
    Dirent(name, size, "", ownerGroup, 0, typ == DirEntry, false, true)
  }

  predicate Creates(entries: seq<Dirent>, name: string, mayCreate: bool, typ: FileType) {
    FirstNamed(entries, name) == |entries| && typ != UnknownType && mayCreate
  }

  /** The bits that tell why the listing is unsure after a file was written to or created. */
  function UpdateBits(entries: seq<Dirent>, name: string, mayCreate: bool, typ: FileType): Flags {
    var i := FirstNamed(entries, name);
    if i < |entries| then
      if typ != (if entries[i].isDir then DirEntry else FileEntry) then UNSURE_INVALID
      else if typ == DirEntry then UNSURE_DIR_CHANGED
      else UNSURE_FILE_CHANGED
    else if Creates(entries, name, mayCreate, typ) then
      if typ == DirEntry then UNSURE_DIR_ADDED | HAS_DIRS else UNSURE_FILE_ADDED
    else
      UNSURE_UNKNOWN
  }

  function UpdatedFile(l: Listing, name: string, mayCreate: bool, typ: FileType, size: int, ownerGroup: string, fold: Folding): Listing {
    var entries := Marked(l.entries, name, fold, true);
    var l' := Flagged(l.(entries := entries), UpdateBits(entries, name, mayCreate, typ));
    if Creates(entries, name, mayCreate, typ) then Append(l', NewEntry(name, typ, size, ownerGroup)) else l'
  }

  function RemovedFile(l: Listing, name: string, fold: Folding): Listing {
    var i := FirstNamed(l.entries, name);
    if i < |l.entries| then RemoveEntry(l, i)
    else Flagged(l.(entries := Marked(l.entries, name, fold, false)), UNSURE_INVALID)
  }

  function RenamedFile(l: Listing, i: nat, name: string): Listing
    requires i < |l.entries|
  {
    ClearFindMap(Flagged(SetEntry(l, i, l.entries[i].(name := name, unsure := true)), UNSURE_UNKNOWN))
  }

  function ReownedFile(l: Listing, i: nat, ownerGroup: string): Listing
    requires i < |l.entries|
  {
    ClearFindMap(SetEntry(l, i, l.entries[i].(ownerGroup := ownerGroup)))
  }

  // ---- What a change may do ----

  predicate SameButOwners(a: seq<Dirent>, b: seq<Dirent>) {
    |a| == |b| && forall i :: 0 <= i < |a| ==> a[i].(ownerGroup := "") == b[i].(ownerGroup := "")
  }

  /** The listing tells the same as before, apart from owners and groups. */
  predicate SameContent(l: Listing, l': Listing) {
    l'.path == l.path && l'.firstListTime == l.firstListTime && l'.flags == l.flags && SameButOwners(l.entries, l'.entries)
  }

  /** No unsure bit is ever taken back. */
  predicate BitsStay(f: Flags, f': Flags) {
    f & f' & UNSURE_MASK == f & UNSURE_MASK
  }

  /** A listing without unsure bits is still the old one; and the name maps stay right. */
  ghost predicate Faithful(l: Listing, l': Listing, lower: Folding) {
    && l'.path == l.path
    && BitsStay(l.flags, l'.flags)
    && (UnsureFlags(l') == 0 ==> SameContent(l, l'))
    && (Indexed(l, lower) ==> Indexed(l', lower))
  }

  lemma MoreBits(f: Flags, bits: Flags)
    ensures BitsStay(f, f | bits) && BitsStay(f, f)
    ensures bits & UNSURE_MASK != 0 ==> (f | bits) & UNSURE_MASK != 0
  {
  }

  lemma BitsStayOn(f: Flags, g: Flags, h: Flags)
    requires BitsStay(f, g) && BitsStay(g, h)
    ensures BitsStay(f, h) && (h & UNSURE_MASK == 0 ==> g & UNSURE_MASK == 0)
  {
  }

  lemma FaithfulIsTransitive(a: Listing, b: Listing, c: Listing, lower: Folding)
    requires Faithful(a, b, lower) && Faithful(b, c, lower)
    ensures Faithful(a, c, lower)
  {
    BitsStayOn(a.flags, b.flags, c.flags);
    hide BitsStay, Indexed;
    if UnsureFlags(c) == 0 {
      forall i | 0 <= i < |a.entries| ensures a.entries[i].(ownerGroup := "") == c.entries[i].(ownerGroup := "") {
        assert a.entries[i].(ownerGroup := "") == b.entries[i].(ownerGroup := "");
      }
    }
  }

  lemma FaithfulIsReflexive(l: Listing, lower: Folding)
    ensures Faithful(l, l, lower)
  {
    MoreBits(l.flags, 0);
  }

  /** Setting an unsure bit makes any change of the entries faithful that leaves the maps right. */
  lemma FlaggedIsFaithful(l: Listing, l': Listing, bits: Flags, lower: Folding)
    requires l'.path == l.path && l'.flags == l.flags | bits && bits & UNSURE_MASK != 0
    requires Indexed(l, lower) ==> Indexed(l', lower)
    ensures Faithful(l, l', lower)
  {
    MoreBits(l.flags, bits);
    hide BitsStay;
  }

  lemma SameNamesKeepIndexed(l: Listing, entries: seq<Dirent>, lower: Folding)
    requires Indexed(l, lower) && |entries| == |l.entries|
    requires forall i :: 0 <= i < |entries| ==> entries[i].name == l.entries[i].name
    ensures Indexed(l.(entries := entries), lower)
  {
  }

  lemma ThrownAwayIsIndexed(l: Listing, lower: Folding)
    ensures Indexed(l.(byCase := None, byNoCase := None), lower)
  {
  }

  lemma ClearedIsIndexed(l: Listing, entries: seq<Dirent>, flags: Flags, lower: Folding)
    requires Indexed(l, lower)
    ensures Indexed(ClearFindMap(l.(entries := entries, flags := flags)), lower)
  {
  }

  // ---- Every change is faithful ----

  lemma InvalidateIsFaithful(l: Listing, name: string, fold: Folding, lower: Folding)
    ensures Faithful(l, InvalidatedFile(l, name, fold), lower)
  {
    if Indexed(l, lower) {
      SameNamesKeepIndexed(l, Marked(l.entries, name, fold, false), lower);
    }
    hide Marked, Faithful;
    FlaggedIsFaithful(l, InvalidatedFile(l, name, fold), UNSURE_UNKNOWN, lower);
  }

  lemma FlagIsFaithful(l: Listing, lower: Folding)
    ensures Faithful(l, Flagged(l, UNSURE_UNKNOWN), lower)
  {
    hide Faithful;
    FlaggedIsFaithful(l, Flagged(l, UNSURE_UNKNOWN), UNSURE_UNKNOWN, lower);
  }

  lemma UpdateIsFaithful(l: Listing, name: string, mayCreate: bool, typ: FileType, size: int, ownerGroup: string, fold: Folding, lower: Folding)
    ensures Faithful(l, UpdatedFile(l, name, mayCreate, typ, size, ownerGroup, fold), lower)
  {
    var entries := Marked(l.entries, name, fold, true);
    var l1, l' := l.(entries := entries), UpdatedFile(l, name, mayCreate, typ, size, ownerGroup, fold);
    var bits := UpdateBits(entries, name, mayCreate, typ);
    UpdateBitsAreUnsure(entries, name, mayCreate, typ);
    hide UpdateBits, Creates, Marked, Faithful;
    if Indexed(l, lower) {
      SameNamesKeepIndexed(l, entries, lower);
      hide Indexed;
      FlagsDoNotMatter(l1, bits, lower);
      AppendKeepsIndexed(Flagged(l1, bits), NewEntry(name, typ, size, ownerGroup), lower);
    }
    hide Indexed;
    FlaggedIsFaithful(l, l', bits, lower);
  }

  lemma FlagsDoNotMatter(l: Listing, bits: Flags, lower: Folding)
    requires Indexed(l, lower)
    ensures Indexed(Flagged(l, bits), lower)
  {
  }

  lemma UpdateBitsAreUnsure(entries: seq<Dirent>, name: string, mayCreate: bool, typ: FileType)
    ensures UpdateBits(entries, name, mayCreate, typ) & UNSURE_MASK != 0
  {
  }

  lemma RemoveIsFaithful(l: Listing, name: string, fold: Folding, lower: Folding)
    ensures Faithful(l, RemovedFile(l, name, fold), lower)
  {
    var i, l' := FirstNamed(l.entries, name), RemovedFile(l, name, fold);
    if i < |l.entries| {
      ThrownAwayIsIndexed(l', lower);
      hide Faithful, Indexed;
      FlaggedIsFaithful(l, l', if l.entries[i].isDir then UNSURE_DIR_REMOVED else UNSURE_FILE_REMOVED, lower);
    } else {
      if Indexed(l, lower) {
        SameNamesKeepIndexed(l, Marked(l.entries, name, fold, false), lower);
      }
      hide Faithful, Marked;
      FlaggedIsFaithful(l, l', UNSURE_INVALID, lower);
    }
  }

  lemma RenameIsFaithful(l: Listing, i: nat, name: string, lower: Folding)
    requires i < |l.entries|
    ensures Faithful(l, RenamedFile(l, i, name), lower)
  {
    var l' := RenamedFile(l, i, name);
    if Indexed(l, lower) {
      ClearedIsIndexed(l, l'.entries, l'.flags, lower);
      assert l' == ClearFindMap(l.(entries := l'.entries, flags := l'.flags));
    }
    hide Faithful, Indexed;
    FlaggedIsFaithful(l, l', UNSURE_UNKNOWN, lower);
  }

  lemma ReownIsFaithful(l: Listing, i: nat, ownerGroup: string, lower: Folding)
    requires i < |l.entries|
    ensures Faithful(l, ReownedFile(l, i, ownerGroup), lower)
  {
    var l' := ReownedFile(l, i, ownerGroup);
    MoreBits(l.flags, 0);
    if Indexed(l, lower) {
      ClearedIsIndexed(l, l'.entries, l'.flags, lower);
      assert l' == ClearFindMap(l.(entries := l'.entries, flags := l'.flags));
    }
    assert l'.flags == l.flags && SameButOwners(l.entries, l'.entries);
    hide Indexed, BitsStay, SameButOwners, ReownedFile;
  }

  // ---- Every write leaves an unsure bit, whether or not it finds the file ----

  lemma UpdateIsUnsure(l: Listing, name: string, mayCreate: bool, typ: FileType, size: int, ownerGroup: string, fold: Folding)
    ensures UnsureFlags(UpdatedFile(l, name, mayCreate, typ, size, ownerGroup, fold)) != 0
  {
    var entries := Marked(l.entries, name, fold, true);
    UpdateBitsAreUnsure(entries, name, mayCreate, typ);
    MoreBits(l.flags, UpdateBits(entries, name, mayCreate, typ));
    hide Marked, UpdateBits, BitsStay, Creates;
  }

  lemma RemoveIsUnsure(l: Listing, name: string, fold: Folding)
    ensures UnsureFlags(RemovedFile(l, name, fold)) != 0
  {
    var i := FirstNamed(l.entries, name);
    var bits := if i == |l.entries| then UNSURE_INVALID else if l.entries[i].isDir then UNSURE_DIR_REMOVED else UNSURE_FILE_REMOVED;
    assert RemovedFile(l, name, fold).flags == l.flags | bits && bits & UNSURE_MASK != 0;
    hide Marked, RemovedFile, BitsStay;
    MoreBits(l.flags, bits);
  }

  lemma InvalidateIsUnsure(l: Listing, name: string, fold: Folding)
    ensures UnsureFlags(InvalidatedFile(l, name, fold)) != 0
  {
    MoreBits(l.flags, UNSURE_UNKNOWN);
    hide Marked, BitsStay;
  }

  // ---- The removed file ----

  /** A successful removal takes out the first entry of that name and nothing else. */
  lemma RemovedFileEntries(l: Listing, name: string, fold: Folding)
    ensures
      var r := RemovedFile(l, name, fold).entries;
      if exists i :: 0 <= i < |l.entries| && l.entries[i].name == name
      then exists i :: 0 <= i < |l.entries| && l.entries[i].name == name && r == l.entries[..i] + l.entries[i + 1..]
      else |r| == |l.entries| && forall i :: 0 <= i < |r| ==> r[i].(unsure := true) == l.entries[i].(unsure := true)
  {
    var i := FirstNamed(l.entries, name);
    if i < |l.entries| {
      assert RemovedFile(l, name, fold).entries == l.entries[..i] + l.entries[i + 1..];
    }
  }
}
