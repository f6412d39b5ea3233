/**
 A directory listing with its two lazily built name maps (src/engine/directorylisting.cpp).  A map is only
 filled as far as lookups needed it, survives appends, and is thrown away by everything else.
 */
module DirectoryListing {
  import opened Options
  import opened ServerPaths

  datatype Dirent = Dirent(
    name: string,
    size: int,
    permissions: string,
    ownerGroup: string,
    time: int,
    isDir: bool,
    isLink: bool,
    unsure: bool)

  type Flags = bv12

  const UNSURE_FILE_ADDED: Flags := 0x01
  const UNSURE_FILE_REMOVED: Flags := 0x02
  const UNSURE_FILE_CHANGED: Flags := 0x04
  const UNSURE_DIR_ADDED: Flags := 0x08
  const UNSURE_DIR_REMOVED: Flags := 0x10
  const UNSURE_DIR_CHANGED: Flags := 0x20
  const UNSURE_UNKNOWN: Flags := 0x40
  const UNSURE_INVALID: Flags := 0x80
  const UNSURE_MASK: Flags := 0xff
  const HAS_DIRS: Flags := 0x200

  datatype Hit = Hit(name: string, index: nat)

  /** A multimap from folded names to indices: its pairs, in the order they were put in. */
  type Index = seq<Hit>

  datatype Listing = Listing(
    path: ServerPath,
    firstListTime: int,
    flags: Flags,
    entries: seq<Dirent>,
    byCase: Option<Index>,
    byNoCase: Option<Index>)

  function UnsureFlags(l: Listing): Flags {
    l.flags & UNSURE_MASK
  }

  // ---- Indices ----

  /** The map holds exactly the name and index of each of the first entries. */
  ghost predicate IsIndex(index: Index, entries: seq<Dirent>, fold: Folding) {
    && |index| <= |entries|
    && forall k :: 0 <= k < |index| ==> index[k] == Hit(fold(entries[k].name), k)
  }

  /** Both maps describe a prefix of the entries. */
  ghost predicate MapsRight(l: Listing, lower: Folding) {
    && (l.byCase.Some? ==> IsIndex(l.byCase.value, l.entries, EXACT))
    && (l.byNoCase.Some? ==> IsIndex(l.byNoCase.value, l.entries, lower))
  }

  /** And there is no no-case map without a case map. */
  ghost predicate Indexed(l: Listing, lower: Folding) {
    MapsRight(l, lower) && (l.byNoCase.Some? ==> l.byCase.Some?)
  }

  /** What a lookup by linear scan would accept as its answer. */
  predicate IsMatch(entries: seq<Dirent>, name: string, fold: Folding, r: Option<nat>) {
    if r.Some? then r.value < |entries| && fold(entries[r.value].name) == fold(name)
    else forall i :: 0 <= i < |entries| ==> fold(entries[i].name) != fold(name)
  }

  /** An index survives additions at the end. */
  lemma IndexSurvivesAppend(index: Index, entries: seq<Dirent>, more: seq<Dirent>, fold: Folding)
    requires IsIndex(index, entries, fold)
    ensures IsIndex(index, entries + more, fold)
  {
  }

  // ---- Changes ----

  function Append(l: Listing, e: Dirent): Listing {
    l.(entries := l.entries + [e])
  }

  function RemoveEntry(l: Listing, i: nat): Listing
    requires i < |l.entries|
  {
    l.(flags := l.flags | (if l.entries[i].isDir then UNSURE_DIR_REMOVED else UNSURE_FILE_REMOVED),
       entries := l.entries[..i] + l.entries[i + 1..],
       byCase := None, byNoCase := None)
  }

  /** Nothing happens without a case map, whatever the no-case map holds. */
  function ClearFindMap(l: Listing): Listing {
    if l.byCase.None? then l else l.(byCase := None, byNoCase := None)
  }

  function SetEntry(l: Listing, i: nat, e: Dirent): Listing
    requires i < |l.entries|
  {
    l.(entries := l.entries[i := e])
  }

  lemma AppendKeepsIndexed(l: Listing, e: Dirent, lower: Folding)
    requires Indexed(l, lower)
    ensures Indexed(Append(l, e), lower)
  {
    if l.byCase.Some? {
      IndexSurvivesAppend(l.byCase.value, l.entries, [e], EXACT);
    }
    if l.byNoCase.Some? {
      IndexSurvivesAppend(l.byNoCase.value, l.entries, [e], lower);
    }
  }

  lemma SetSameNameKeepsIndexed(l: Listing, i: nat, e: Dirent, lower: Folding)
    requires Indexed(l, lower) && i < |l.entries| && e.name == l.entries[i].name
    ensures Indexed(SetEntry(l, i, e), lower)
  {
  }

  /**
   Renaming an entry and clearing the maps leaves a correct listing exactly if the no-case map could not
   outlive the clearing: there is none, there is a case map beside it, it has not reached the entry, or the
   new name folds to the same.
   */
  lemma RenameIsSafeIff(l: Listing, i: nat, name: string, lower: Folding)
    requires i < |l.entries|
    requires l.byNoCase.Some? ==> IsIndex(l.byNoCase.value, l.entries, lower)
    ensures
      var l' := ClearFindMap(SetEntry(l, i, l.entries[i].(name := name)));
      (l'.byNoCase.Some? ==> IsIndex(l'.byNoCase.value, l'.entries, lower)) <==>
        l.byNoCase.None? || l.byCase.Some? || |l.byNoCase.value| <= i || lower(name) == lower(l.entries[i].name)
  {
    if l.byNoCase.Some? && i < |l.byNoCase.value| {
      assert l.byNoCase.value[i] == Hit(lower(l.entries[i].name), i);
    }
  }

  /** The listing as an object; the maps are filled while looking up. */
  class DirectoryListingObject {
    var value: Listing
    const lower: Folding

    constructor (value: Listing, lower: Folding)
      ensures this.value == value && this.lower == lower
    {
      this.value, this.lower := value, lower;
    }

    /**
     The search common to both lookups: first the map, then, if the map is not complete, the entries it has
     not reached, which it takes in on the way.
     */
    method Search(index: Index, key: string, fold: Folding) returns (r: Option<nat>, index': Index)
      requires IsIndex(index, value.entries, fold)
      ensures IsIndex(index', value.entries, fold)
      ensures if r.Some? then r.value < |value.entries| && fold(value.entries[r.value].name) == key
              else forall i :: 0 <= i < |value.entries| ==> fold(value.entries[i].name) != key
    {
      index' := index;
      if k :| 0 <= k < |index| && index[k].name == key {
        return Some(index[k].index), index;
      }
      var i := |index|;
      forall k | 0 <= k < i
        ensures fold(value.entries[k].name) != key
      {
        assert index[k].name != key;
      }
      while i < |value.entries|
        invariant i == |index'| <= |value.entries| && IsIndex(index', value.entries, fold)
        invariant forall k :: 0 <= k < i ==> fold(value.entries[k].name) != key
      {
        var name := fold(value.entries[i].name);
        index' := index' + [Hit(name, i)];
        if name == key {
          return Some(i), index';
        }
        i := i + 1;
      }
      return None, index';
    }

    method FindFileCmpCase(name: string) returns (r: Option<nat>)
      requires MapsRight(value, lower)
      modifies this
      ensures MapsRight(value, lower) && IsMatch(value.entries, name, EXACT, r)
      ensures value == old(value).(byCase := value.byCase)
      ensures if value.entries == [] then value == old(value) else value.byCase.Some?
    {
      if value.entries == [] {
        return None;
      }
      if value.byCase.None? {
        value := value.(byCase := Some([]));
      }
      var index;
      r, index := Search(value.byCase.value, name, EXACT);
      value := value.(byCase := Some(index));
    }

    /** Without a case lookup before it, this makes a no-case map that `ClearFindMap` will not clear. */
    method FindFileCmpNoCase(name: string) returns (r: Option<nat>)
      requires MapsRight(value, lower)
      modifies this
      ensures MapsRight(value, lower) && IsMatch(value.entries, name, lower, r)
      ensures value == old(value).(byNoCase := value.byNoCase)
      ensures if value.entries == [] then value == old(value) else value.byNoCase.Some?
    {
      if value.entries == [] {
        return None;
      }
      if value.byNoCase.None? {
        value := value.(byNoCase := Some([]));
      }
      var index;
      r, index := Search(value.byNoCase.value, lower(name), lower);
      value := value.(byNoCase := Some(index));
    }

    /** The lookup of the cache: exact first, then, where names may differ in case, folded. */
    method LookupFile(name: string, exactOnly: bool) returns (r: Option<nat>, matchedCase: bool)
      requires Indexed(value, lower)
      modifies this
      ensures Indexed(value, lower) && value == old(value).(byCase := value.byCase, byNoCase := value.byNoCase)
      ensures matchedCase <==> exists i :: 0 <= i < |value.entries| && value.entries[i].name == name
      ensures if matchedCase || exactOnly then IsMatch(value.entries, name, EXACT, r) else IsMatch(value.entries, name, lower, r)
    {
      r := FindFileCmpCase(name);
      matchedCase := r.Some?;
      if r.None? && !exactOnly {
        r := FindFileCmpNoCase(name);
      }
    }
  }
}
