/**
 The recursive operation as the object it is in src/commonui/remote_recursive_operation.cpp: every callback
 updates the roots, their stacks and the counters in place, and does exactly what the state function says.
 */
module RecursiveOperation {
  import opened Options
  import opened ServerPaths
  import opened RemoteRecursion

  class RemoteRecursiveOperation {
    var mode: Mode
    var roots: seq<Root>
    var failed: bool
    var processedFiles: nat
    var processedDirectories: nat
    var outputs: seq<Output>
    const cfg: Config
    const hasChmodData: bool

    constructor (cfg: Config, hasChmodData: bool)
      ensures Value() == State(NoOperation, [], false, 0, 0, [])
      ensures this.cfg == cfg && this.hasChmodData == hasChmodData
    {
      mode, roots, failed, processedFiles, processedDirectories, outputs := NoOperation, [], false, 0, 0, [];
      this.cfg, this.hasChmodData := cfg, hasChmodData;
    }

    function Value(): State
      reads this
    {
      State(mode, roots, failed, processedFiles, processedDirectories, outputs)
    }

    method Emit(o: Output)
      modifies this`outputs
      ensures outputs == old(outputs) + [o]
    {
      outputs := outputs + [o];
    }

    method AddRecursionRoot(root: Root)
      modifies this`roots
      ensures roots == old(roots) + if root.dirsToVisit == [] || root.startDir.Empty() then [] else [root]
    {
      if !(root.dirsToVisit == [] || root.startDir.Empty()) {
        roots := roots + [root];
      }
    }

    method StopRecursiveOperation()
      modifies this`mode, this`roots
      ensures Value() == Stopped(old(Value()))
    {
      mode, roots := NoOperation, [];
    }

    /** A second start, a change of permissions without any given, or an empty list of roots does nothing. */
    method StartRecursiveOperation(newMode: Mode)
      modifies this
      ensures
        var s := old(Value()).(failed := false);
        Value() ==
          if s.mode != NoOperation || (newMode == Chmod && !hasChmodData) || s.roots == [] then s
          else RemoteRecursion.NextOperation(cfg, s.(mode := newMode, processedFiles := 0, processedDirectories := 0))
    {
      failed := false;
      if mode != NoOperation {
        return;
      }
      if newMode == Chmod && !hasChmodData {
        return;
      }
      if roots == [] {
        return;
      }
      processedFiles, processedDirectories := 0, 0;
      mode := newMode;
      var _ := NextOperation();
    }

    method NextOperation() returns (issued: bool)
      modifies this
      ensures Value() == RemoteRecursion.NextOperation(cfg, old(Value()))
      ensures issued <==> mode != NoOperation
    {
      hide IsMarker;
      if mode == NoOperation {
        return false;
      }
      while roots != []
        invariant mode == old(mode)
        invariant RemoteRecursion.NextOperation(cfg, Value()) == RemoteRecursion.NextOperation(cfg, old(Value()))
        decreases |roots|
      {
        ghost var n := |roots|;
        while roots[0].dirsToVisit != []
          invariant mode == old(mode) && |roots| == n
          invariant RemoteRecursion.NextOperation(cfg, Value()) == RemoteRecursion.NextOperation(cfg, old(Value()))
          decreases |roots[0].dirsToVisit|
        {
          var d := roots[0].dirsToVisit[0];
          if IsMarker(mode, d) {
            Emit(RemoveDirCmd(d.parent, d.subdir));
            roots := roots[0 := roots[0].(dirsToVisit := roots[0].dirsToVisit[1..])];
          } else {
            Emit(ListCommand(cfg, d));
            return true;
          }
        }
        roots := roots[1..];
      }
      StopRecursiveOperation();
      Emit(OperationFinished);
      return false;
    }

    /** One entry: a directory goes on the stack, a file to its handler or on the list of files to delete. */
    method ProcessEntry(d: NewDir, path: ServerPath, e: DirEntry) returns (toDelete: seq<string>)
      requires roots != []
      modifies this`roots, this`processedFiles, this`outputs
      ensures outputs == old(outputs) + EntryOutputs(cfg, mode, d, path, e)
      ensures processedFiles == old(processedFiles) + FileCount(cfg, d, path, [e])
      ensures toDelete == FilesToDelete(cfg, mode, d, path, [e])
      ensures roots == old(roots)[0 := old(roots)[0].(dirsToVisit := Children(cfg, mode, d, path, [e]) + old(roots)[0].dirsToVisit)]
    {
      toDelete := [];
      assert [e][1..] == [];
      assert [] + roots[0].dirsToVisit == roots[0].dirsToVisit;
      assert roots[0 := roots[0].(dirsToVisit := roots[0].dirsToVisit)] == roots;
      if !Kept(cfg, d, path, e) {
        return;
      }
      if !e.isDir {
        processedFiles := processedFiles + 1;
      }
      if IsTreated(mode, e) {
        if d.recurse {
          PushFront(Child(cfg, mode, d, path, e));
          assert Children(cfg, mode, d, path, [e]) == [Child(cfg, mode, d, path, e)];
        }
      } else if mode == Transfer || mode == TransferFlatten {
        Emit(HandleFile(e.name, d.localDir, path, e.size));
      } else if mode == Delete {
        toDelete := [e.name];
      }
      if mode == Chmod && cfg.permissions(e).Some? {
        Emit(ChmodCmd(path, e.name, cfg.permissions(e).value));
      }
    }

    /** Goes through the entries from the last to the first, so that the first ends up in front of the stack. */
    method ProcessEntries(d: NewDir, l: Listing)
      requires roots != []
      modifies this`roots, this`processedFiles, this`outputs
      ensures
        var files := FilesToDelete(cfg, mode, d, l.path, l.entries);
        && outputs == old(outputs) + Outputs(cfg, mode, d, l.path, l.entries) + (if files == [] then [] else [DeleteCmd(l.path, files)])
        && processedFiles == old(processedFiles) + FileCount(cfg, d, l.path, l.entries)
        && roots == old(roots)[0 := old(roots)[0].(dirsToVisit := Children(cfg, mode, d, l.path, l.entries) + old(roots)[0].dirsToVisit)]
    {
      hide EntryOutputs, FileCount, FilesToDelete, Children, Outputs;
      var filesToDelete := [];
      var i := |l.entries|;
      ghost var base := old(roots)[0].dirsToVisit;
      NoEntries(cfg, mode, d, l.path);
      assert [] + base == base && old(outputs) + [] == old(outputs) && l.entries[i..] == [];
      assert old(roots)[0 := old(roots)[0].(dirsToVisit := base)] == old(roots);
      while i > 0
        invariant 0 <= i <= |l.entries|
        invariant filesToDelete == FilesToDelete(cfg, mode, d, l.path, l.entries[i..])
        invariant outputs == old(outputs) + Outputs(cfg, mode, d, l.path, l.entries[i..])
        invariant processedFiles == old(processedFiles) + FileCount(cfg, d, l.path, l.entries[i..])
        invariant roots == old(roots)[0 := old(roots)[0].(dirsToVisit := Children(cfg, mode, d, l.path, l.entries[i..]) + base)]
      {
        i := i - 1;
        OneEntry(cfg, mode, d, l.path, l.entries, i, base);
        var toDelete := ProcessEntry(d, l.path, l.entries[i]);
        filesToDelete := filesToDelete + toDelete;
      }
      assert l.entries[0..] == l.entries;
      OnlyDeletionDeletes(cfg, mode, d, l.path, l.entries);
      if mode == Delete && filesToDelete != [] {
        Emit(DeleteCmd(l.path, filesToDelete));
      }
    }

    /** Takes the front directory off the stack of the current root. */
    method PopFront() returns (d: NewDir)
      requires roots != [] && roots[0].dirsToVisit != []
      modifies this`roots
      ensures d == old(roots)[0].dirsToVisit[0]
      ensures roots == old(roots)[0 := old(roots)[0].(dirsToVisit := old(roots)[0].dirsToVisit[1..])]
    {
      d := roots[0].dirsToVisit[0];
      roots := roots[0 := roots[0].(dirsToVisit := roots[0].dirsToVisit[1..])];
    }

    method PushFront(d: NewDir)
      requires roots != []
      modifies this`roots
      ensures roots == old(roots)[0 := old(roots)[0].(dirsToVisit := [d] + old(roots)[0].dirsToVisit)]
    {
      roots := roots[0 := roots[0].(dirsToVisit := [d] + roots[0].dirsToVisit)];
    }

    method BelowRecursionRoot(path: ServerPath, d: NewDir) returns (below: bool, d': NewDir)
      requires roots != []
      ensures below == Below(roots[0], d, path)
      ensures d' == Rooted(roots[0], d, path)
    {
      d' := d;
      if !d.startDir.Empty() {
        below := IsSubdirOf(path, d.startDir);
        return;
      }
      if IsSubdirOf(path, roots[0].startDir) {
        return true, d;
      }
      if path == roots[0].startDir && roots[0].allowParent {
        return true, d;
      }
      if d.link == 2 {
        return true, d.(startDir := path);
      }
      return false, d;
    }

    method ProcessDirectoryListing(listing: Option<Listing>)
      modifies this
      ensures Value() == Handle(cfg, old(Value()), if listing.Some? then Listed(listing.value) else ListedNothing)
    {
      hide RemoteRecursion.NextOperation, Below, Children, DirectoryOutputs, FileCount;
      if listing.None? {
        StopRecursiveOperation();
        return;
      }
      var l := listing.value;
      if mode == NoOperation || roots == [] {
        return;
      }
      if l.failed {
        return;
      }
      if roots[0].dirsToVisit == [] {
        StopRecursiveOperation();
        return;
      }
      ghost var s, root := Value(), roots[0];
      var d := PopFront();
      SameRoot(root, roots[0], d, l);
      AfterListingCases(cfg, s, l);
      hide AfterListing, Rooted;
      var below, d' := BelowRecursionRoot(l.path, d);
      if !below {
        var _ := NextOperation();
        return;
      }
      d := d';
      if mode == Delete && d.doVisit && d.recurse && d.subdir != "" {
        PushFront(d.(doVisit := false));
      }
      ghost var rest := Marker(mode, d) + root.dirsToVisit[1..];
      assert roots[0] == root.(dirsToVisit := rest);
      assert roots == s.roots[0 := roots[0]];
      if d.link > 0 && !d.recurse {
        var _ := NextOperation();
        return;
      }
      if Key(l.path) in roots[0].visited {
        var _ := NextOperation();
        return;
      }
      EnterDirectory(d, l);
      assert roots == s.roots[0 := roots[0]];
      var _ := NextOperation();
    }

    /** Marks the directory as visited and processes it. */
    method EnterDirectory(d: NewDir, l: Listing)
      requires roots != []
      modifies this`roots, this`processedFiles, this`processedDirectories, this`outputs
      ensures outputs == old(outputs) + DirectoryOutputs(cfg, mode, d, l, |roots|)
      ensures processedFiles == old(processedFiles) + FileCount(cfg, d, l.path, l.entries)
      ensures processedDirectories == old(processedDirectories) + 1
      ensures
        var root := old(roots)[0];
        roots == old(roots)[0 := root.(
          dirsToVisit := Children(cfg, mode, d, l.path, l.entries) + root.dirsToVisit, visited := root.visited + {Key(l.path)})]
    {
      hide Children, Outputs, FilesToDelete, FileCount;
      roots := roots[0 := roots[0].(visited := roots[0].visited + {Key(l.path)})];
      processedDirectories := processedDirectories + 1;
      if l.entries == [] && mode == Transfer {
        NoEntries(cfg, mode, d, l.path);
        assert [] + roots[0].dirsToVisit == roots[0].dirsToVisit;
        Emit(HandleEmptyDirectory(d.localDir));
      } else {
        ProcessEntries(d, l);
      }
      Emit(DirListingEnd(|roots|, l.path));
    }

    method ListingFailed(canceled: bool, critical: bool)
      modifies this
      ensures Value() == Handle(cfg, old(Value()), ListFailed(canceled, critical))
    {
      hide RemoteRecursion.NextOperation;
      failed := true;
      if mode == NoOperation || roots == [] {
        return;
      }
      if canceled {
        StopRecursiveOperation();
        return;
      }
      if roots[0].dirsToVisit == [] {
        StopRecursiveOperation();
        return;
      }
      ghost var s, rest := Value(), roots[0].dirsToVisit[1..];
      var d := PopFront();
      if !critical && !d.secondTry {
        PushFront(d.(secondTry := true));
      } else {
        if mode == Delete && d.doVisit && d.recurse && d.subdir != "" {
          PushFront(d.(doVisit := false));
        }
        assert roots[0].dirsToVisit == Marker(mode, d) + rest;
        if mode == ListOnly {
          Emit(NoteListingFailed);
        }
      }
      assert Value() == AfterFailure(s, critical);
      var _ := NextOperation();
    }

    method HandleLinkIsNotDir(connected: bool)
      modifies this
      ensures Value() == Handle(cfg, old(Value()), LinkIsNotDir(connected))
    {
      hide RemoteRecursion.NextOperation;
      if mode == NoOperation || roots == [] {
        return;
      }
      if roots[0].dirsToVisit == [] {
        StopRecursiveOperation();
        return;
      }
      ghost var s := Value();
      var d := PopFront();
      if !connected {
        assert Value() == AfterLink(s, connected);
        var _ := NextOperation();
        return;
      }
      if mode == Delete {
        if d.subdir != "" {
          Emit(DeleteCmd(d.parent, [d.subdir]));
        }
      } else if mode != ListOnly {
        var localPath := d.localDir;
        if mode != TransferFlatten && localPath != [] {
          localPath := localPath[..|localPath| - 1];
        }
        Emit(HandleInvalidLink(d.subdir, localPath, d.parent));
      }
      assert Value() == AfterLink(s, connected);
      var _ := NextOperation();
    }
  }

  /** `AfterListing`, case by case. */
  lemma AfterListingCases(cfg: Config, s: State, l: Listing)
    requires s.roots != [] && s.roots[0].dirsToVisit != []
    ensures
      var root, t := s.roots[0], AfterListing(cfg, s, l);
      var d := root.dirsToVisit[0];
      var d', children := Rooted(root, d, l.path), Children(cfg, s.mode, Rooted(root, d, l.path), l.path, l.entries);
      var rest := Marker(s.mode, d') + root.dirsToVisit[1..];
      && d'.link == d.link && d'.recurse == d.recurse
      && if !Below(root, d, l.path) then
           t == SetFront(s, root.(dirsToVisit := root.dirsToVisit[1..]))
         else if (d.link > 0 && !d.recurse) || Key(l.path) in root.visited then
           t == SetFront(s, root.(dirsToVisit := rest))
         else
           t == SetFront(s, root.(dirsToVisit := children + rest, visited := root.visited + {Key(l.path)}))
                .(processedFiles := s.processedFiles + FileCount(cfg, d', l.path, l.entries),
                  processedDirectories := s.processedDirectories + 1,
                  out := s.out + DirectoryOutputs(cfg, s.mode, d', l, |s.roots|))
  {
    hide Below, Children, DirectoryOutputs, FileCount;
    var root := s.roots[0];
    var d' := Rooted(root, root.dirsToVisit[0], l.path);
    var children := Children(cfg, s.mode, d', l.path, l.entries);
    assert children + (Marker(s.mode, d') + root.dirsToVisit[1..]) == children + Marker(s.mode, d') + root.dirsToVisit[1..];
  }

  lemma NoEntries(cfg: Config, mode: Mode, d: NewDir, path: ServerPath)
    ensures Children(cfg, mode, d, path, []) == [] && FileCount(cfg, d, path, []) == 0
    ensures FilesToDelete(cfg, mode, d, path, []) == [] && Outputs(cfg, mode, d, path, []) == []
  {
  }

  /** Entry `i` in front of the later ones. */
  lemma OneEntry(cfg: Config, mode: Mode, d: NewDir, path: ServerPath, entries: seq<DirEntry>, i: nat, base: seq<NewDir>)
    requires i < |entries|
    ensures
      var e, now, later := [entries[i]], entries[i..], entries[i + 1..];
      && FilesToDelete(cfg, mode, d, path, now) == FilesToDelete(cfg, mode, d, path, later) + FilesToDelete(cfg, mode, d, path, e)
      && Outputs(cfg, mode, d, path, now) == Outputs(cfg, mode, d, path, later) + EntryOutputs(cfg, mode, d, path, entries[i])
      && FileCount(cfg, d, path, now) == FileCount(cfg, d, path, later) + FileCount(cfg, d, path, e)
      && Children(cfg, mode, d, path, now) + base == Children(cfg, mode, d, path, e) + (Children(cfg, mode, d, path, later) + base)
  {
    hide Kept, IsTreated, Child, EntryOutputs;
    assert entries[i..][1..] == entries[i + 1..] && [entries[i]][1..] == [];
    NoEntries(cfg, mode, d, path);
    assert FilesToDelete(cfg, mode, d, path, [entries[i]]) ==
      [] + FilesToDelete(cfg, mode, d, path, [entries[i]]);
  }

  lemma {:induction false} OnlyDeletionDeletes(cfg: Config, mode: Mode, d: NewDir, path: ServerPath, entries: seq<DirEntry>)
    ensures FilesToDelete(cfg, mode, d, path, entries) != [] ==> mode == Delete
  {
    if entries != [] {
      OnlyDeletionDeletes(cfg, mode, d, path, entries[1..]);
    }
  }
}
