/**
 What single replies mean to a recursive operation (src/commonui/remote_recursive_operation.cpp): failures, links that
 are no directories, starts that are restricted to one name, and starts that are links.
 */
module RecursionReplies {
  import opened Options
  import opened ServerPaths
  import opened RemoteRecursion

  /** The operation waits for the listing of this directory. */
  predicate Asks(s: State, d: NewDir) {
    s.mode != NoOperation && s.roots != [] && s.roots[0].dirsToVisit != [] && s.roots[0].dirsToVisit[0] == d && (s.mode == Delete ==> d.doVisit || !d.recurse)
  }

  /** The state without the directory it asks for, having said this. */
  function Without(s: State, failed: bool, said: seq<Output>): State
    requires s.roots != [] && s.roots[0].dirsToVisit != []
  {
    s.(roots := [s.roots[0].(dirsToVisit := s.roots[0].dirsToVisit[1..])] + s.roots[1..], failed := failed, out := s.out + said)
  }

  /** A first failure that is not critical only has the directory asked for again. */
  lemma FailureIsRetried(cfg: Config, s: State, d: NewDir)
    requires Asks(s, d) && !d.secondTry
    ensures
      var again := d.(secondTry := true);
      var s' := Handle(cfg, s, ListFailed(false, false));
      && Asks(s', again) && s'.failed && s'.mode == s.mode
      && s'.out == s.out + [ListCmd(d.parent, d.subdir, cfg.refresh, d.link > 0)]
      && s'.roots == [s.roots[0].(dirsToVisit := [again] + s.roots[0].dirsToVisit[1..])] + s.roots[1..]
      && s'.processedFiles == s.processedFiles && s'.processedDirectories == s.processedDirectories
  {
    var root := s.roots[0];
    var again := root.(dirsToVisit := [d.(secondTry := true)] + root.dirsToVisit[1..]);
    assert s.roots[0 := again] == [again] + s.roots[1..];
  }

  /** A second one, or a critical one, gives the directory up: a listing says so, a deletion tries to remove it. */
  lemma FailureIsFinal(cfg: Config, s: State, d: NewDir, critical: bool)
    requires Asks(s, d) && (critical || d.secondTry)
    ensures
      var said :=
        if s.mode == ListOnly then [NoteListingFailed]
        else if s.mode == Delete && d.doVisit && d.recurse && d.subdir != "" then [RemoveDirCmd(d.parent, d.subdir)]
        else [];
      Handle(cfg, s, ListFailed(false, critical)) == NextOperation(cfg, Without(s, true, said))
  {
    var root := s.roots[0];
    var rest := root.dirsToVisit[1..];
    var s1 := AfterFailure(s.(failed := true), critical);
    var popped := root.(dirsToVisit := rest);
    assert s.roots[0 := popped] == [popped] + s.roots[1..];
    assert s.out + [] == s.out;
    if DeletedAfterwards(s.mode, d) {
      MarkerIsRemoved(cfg, s1, d.(doVisit := false), rest);
      assert s1.roots[0 := popped] == [popped] + s.roots[1..];
    } else {
      assert [] + rest == rest;
    }
    hide NextOperation;
  }

  lemma MarkerIsRemoved(cfg: Config, s: State, d: NewDir, rest: seq<NewDir>)
    requires s.roots != [] && s.roots[0].dirsToVisit == [d] + rest && IsMarker(s.mode, d)
    ensures NextOperation(cfg, s) ==
      NextOperation(cfg, s.(roots := s.roots[0 := s.roots[0].(dirsToVisit := rest)], out := s.out + [RemoveDirCmd(d.parent, d.subdir)]))
  {
    assert s.roots[0].dirsToVisit[1..] == rest;
  }

  /** A cancelled operation stops at once and asks for nothing more. */
  lemma CancelStops(cfg: Config, s: State, critical: bool)
    ensures
      var s' := Handle(cfg, s, ListFailed(true, critical));
      s'.out == s.out && s'.failed && (s.mode == NoOperation || s.roots == [] || (s'.mode == NoOperation && s'.roots == []))
  {
  }

  /**
   A link that is no directory is deleted as a file, or handed over with the local directory it is in; that is the one
   it would have been if the transfer keeps the tree, without its last segment.
   */
  lemma LinkIsFile(cfg: Config, s: State, d: NewDir, connected: bool)
    requires Asks(s, d)
    ensures
      var local :=
        if s.mode == TransferFlatten || d.localDir == [] then d.localDir else d.localDir[..|d.localDir| - 1];
      var said :=
        if !connected || s.mode == ListOnly || (s.mode == Delete && d.subdir == "") then []
        else if s.mode == Delete then [DeleteCmd(d.parent, [d.subdir])]
        else [HandleInvalidLink(d.subdir, local, d.parent)];
      Handle(cfg, s, LinkIsNotDir(connected)) == NextOperation(cfg, Without(s, s.failed, said))
  {
    var popped := s.roots[0].(dirsToVisit := s.roots[0].dirsToVisit[1..]);
    assert s.roots[0 := popped] == [popped] + s.roots[1..];
    assert s.out + [] == s.out;
    hide NextOperation;
  }

  // ---- Starts ----

  function OnlyThis(cfg: Config, name: string): Config {
    cfg.(filtered := (e: DirEntry, path: ServerPath) => e.name != name)
  }

  /** A start that is restricted to one name is processed as if a filter let only this name pass. */
  lemma RestrictedIsFiltered(cfg: Config, mode: Mode, d: NewDir, name: string, l: Listing, rootsLeft: nat)
    requires d.restricted == Some(name)
    ensures
      var only, all := OnlyThis(cfg, name), d.(restricted := None);
      && Children(cfg, mode, d, l.path, l.entries) == Children(only, mode, all, l.path, l.entries)
      && DirectoryOutputs(cfg, mode, d, l, rootsLeft) == DirectoryOutputs(only, mode, all, l, rootsLeft)
      && FileCount(cfg, d, l.path, l.entries) == FileCount(only, all, l.path, l.entries)
  {
    RestrictedEntries(cfg, mode, d, name, l.path, l.entries);
    hide Children, Outputs, FilesToDelete, FileCount, OnlyThis;
  }

  lemma {:induction false} RestrictedEntries(cfg: Config, mode: Mode, d: NewDir, name: string, path: ServerPath, entries: seq<DirEntry>)
    requires d.restricted == Some(name)
    ensures
      var only, all := OnlyThis(cfg, name), d.(restricted := None);
      && Children(cfg, mode, d, path, entries) == Children(only, mode, all, path, entries)
      && Outputs(cfg, mode, d, path, entries) == Outputs(only, mode, all, path, entries)
      && FilesToDelete(cfg, mode, d, path, entries) == FilesToDelete(only, mode, all, path, entries)
      && FileCount(cfg, d, path, entries) == FileCount(only, all, path, entries)
    decreases |entries|
  {
    if entries != [] {
      RestrictedEntries(cfg, mode, d, name, path, entries[1..]);
      var only, all := OnlyThis(cfg, name), d.(restricted := None);
      assert Kept(cfg, d, path, entries[0]) == Kept(only, all, path, entries[0]);
      assert Child(cfg, mode, d, path, entries[0]) == Child(only, mode, all, path, entries[0]);
      assert EntryOutputs(cfg, mode, d, path, entries[0]) == EntryOutputs(only, mode, all, path, entries[0]);
      hide Kept, Child, EntryOutputs, OnlyThis, IsTreated;
    }
  }

  lemma {:induction false} ChildrenStart(cfg: Config, mode: Mode, d: NewDir, path: ServerPath, entries: seq<DirEntry>, x: NewDir)
    requires x in Children(cfg, mode, d, path, entries)
    ensures x.startDir == d.startDir && x.parent == path
    decreases |entries|
  {
    var rest := Children(cfg, mode, d, path, entries[1..]);
    if x in rest {
      ChildrenStart(cfg, mode, d, path, entries[1..], x);
    }
  }

  /**
   Where a link that the user gave leads becomes a start: whatever is found there is gone through exactly if its
   listing comes from below the target.
   */
  lemma LinkTargetIsStart(cfg: Config, s: State, d: NewDir, l: Listing, x: NewDir, p: ServerPath)
    requires Asks(s, d) && d.link == 2 && d.recurse && d.startDir.Empty() && l.path.data.Some?
    requires !LiesBelow(l.path, s.roots[0].startDir) && l.path != s.roots[0].startDir && Key(l.path) !in s.roots[0].visited
    requires x in Children(cfg, s.mode, d.(startDir := l.path), l.path, l.entries)
    ensures
      var s' := AfterListing(cfg, s, l);
      && s'.roots != [] && x in s'.roots[0].dirsToVisit
      && x.parent == l.path && x.startDir == l.path
      && (Below(s'.roots[0], x, p) <==> LiesBelow(p, l.path))
  {
    SubdirLiesBelow(l.path, s.roots[0].startDir);
    SubdirLiesBelow(p, l.path);
    ChildrenStart(cfg, s.mode, d.(startDir := l.path), l.path, l.entries, x);
    assert Rooted(s.roots[0], d, l.path) == d.(startDir := l.path);
    hide IsSubdirOf, LiesBelow, Children, DirectoryOutputs, FileCount;
  }
}
