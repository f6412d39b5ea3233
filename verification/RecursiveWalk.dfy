/**
 The explicit stack of the recursive operation refines a plain recursive walk: for every sequence of
 replies, what it asks of the outside is what the recursion below asks, in the same order.

 In the recursion the removal of a directory comes after the walk through everything found in it,
 which is the post-order that deletion depends on; PostOrder.dfy states it on the outputs.
 */
module RecursiveWalk {
  import opened Options
  import opened ServerPaths
  import opened RemoteRecursion

  /** What stays fixed during the walk below one root. */
  datatype Context = Context(cfg: Config, mode: Mode, startDir: ServerPath, allowParent: bool, rootsLeft: nat) {
    function RootWith(visited: set<ServerPath>): Root {
      Root(startDir, visited, [], allowParent)
    }
  }

  /** The outcome of a walk; `halted` when the operation stopped or the replies ran out inside it. */
  datatype Walk = Walk(
    out: seq<Output>,
    visited: set<ServerPath>,
    rest: seq<Reply>,
    halted: bool,
    files: nat,
    directories: nat,
    failed: bool)

  function Nothing(visited: set<ServerPath>, replies: seq<Reply>, halted: bool): Walk {
    Walk([], visited, replies, halted, 0, 0, false)
  }

  function Prefixed(out: seq<Output>, w: Walk): Walk {
    w.(out := out + w.out)
  }

  /** One walk after another. */
  function Then(a: Walk, b: Walk): Walk {
    Walk(a.out + b.out, b.visited, b.rest, b.halted, a.files + b.files, a.directories + b.directories, a.failed || b.failed)
  }

  function RemoveSelf(mode: Mode, d: NewDir): seq<Output> {
    if DeletedAfterwards(mode, d) then [RemoveDirCmd(d.parent, d.subdir)] else []
  }

  /** One directory after the other. */
  function WalkAll(c: Context, dirs: seq<NewDir>, visited: set<ServerPath>, replies: seq<Reply>): (w: Walk)
    ensures |w.rest| <= |replies|
    decreases |replies|, 2, |dirs|
  {
    if dirs == [] then Nothing(visited, replies, false)
    else
      var first := Visit(c, dirs[0], visited, replies);
      if first.halted then first
      else
        Then(first, WalkAll(c, dirs[1..], first.visited, first.rest))
  }

  function Visit(c: Context, d: NewDir, visited: set<ServerPath>, replies: seq<Reply>): (w: Walk)
    ensures |w.rest| <= |replies|
    decreases |replies|, 1, 0
  {
    Prefixed([ListCommand(c.cfg, d)], Await(c, d, visited, replies))
  }

  /** The walk once the directory was asked for. */
  function Await(c: Context, d: NewDir, visited: set<ServerPath>, replies: seq<Reply>): (w: Walk)
    ensures |w.rest| <= |replies|
    decreases |replies|, 0, 0
  {
    if replies == [] then Nothing(visited, [], true)
    else
      var rest := replies[1..];
      match replies[0]
      case ListedNothing => Nothing(visited, rest, true)
      case LinkIsNotDir(connected) =>
        Prefixed(if connected then LinkOutputs(c.mode, d) else [], Nothing(visited, rest, false))
      case ListFailed(canceled, critical) =>
        (if canceled then Nothing(visited, rest, true)
         else if !critical && !d.secondTry then Visit(c, d.(secondTry := true), visited, rest)
         else Prefixed(FailureOutputs(c.mode, d), Nothing(visited, rest, false))).(failed := true)
      case Listed(l) =>
        var root := c.RootWith(visited);
        var d' := Rooted(root, d, l.path);
        if l.failed then Await(c, d, visited, rest)
        else if !Below(root, d, l.path) then Nothing(visited, rest, false)
        else if !Enters(root, d, l) then Prefixed(RemoveSelf(c.mode, d'), Nothing(visited, rest, false))
        else
          var contents := WalkAll(c, Children(c.cfg, c.mode, d', l.path, l.entries), visited + {Key(l.path)}, rest);
          Then(Entered(c, d', l), if contents.halted then contents else Then(contents, Removed(c, d', contents)))
  }

  function FailureOutputs(mode: Mode, d: NewDir): seq<Output> {
    (if mode == ListOnly then [NoteListingFailed] else []) + RemoveSelf(mode, d)
  }

  /** Processing the directory itself, before anything in it is visited. */
  function Entered(c: Context, d: NewDir, l: Listing): Walk {
    Walk(DirectoryOutputs(c.cfg, c.mode, d, l, c.rootsLeft), {}, [], false, FileCount(c.cfg, d, l.path, l.entries), 1, false)
  }

  /** Removing the directory, after everything in it was visited. */
  function Removed(c: Context, d: NewDir, contents: Walk): Walk {
    Prefixed(RemoveSelf(c.mode, d), Nothing(contents.visited, contents.rest, false))
  }

  function ContextOf(cfg: Config, mode: Mode, root: Root, rootsLeft: nat): Context {
    Context(cfg, mode, root.startDir, root.allowParent, rootsLeft)
  }

  /** The whole operation: root after root. */
  function WalkRoots(cfg: Config, mode: Mode, roots: seq<Root>, replies: seq<Reply>): seq<Output> {
    if roots == [] then [OperationFinished]
    else
      var w := WalkAll(ContextOf(cfg, mode, roots[0], |roots|), roots[0].dirsToVisit, roots[0].visited, replies);
      w.out + if w.halted then [] else WalkRoots(cfg, mode, roots[1..], w.rest)
  }

  // ---- The refinement ----

  predicate AllToVisit(dirs: seq<NewDir>) {
    forall k :: 0 <= k < |dirs| ==> dirs[k].doVisit
  }

  lemma {:induction false} ChildrenAreToVisit(cfg: Config, mode: Mode, d: NewDir, path: ServerPath, entries: seq<DirEntry>)
    ensures AllToVisit(Children(cfg, mode, d, path, entries))
  {
    if entries != [] {
      ChildrenAreToVisit(cfg, mode, d, path, entries[1..]);
    }
  }

  lemma {:induction false} RunStopped(cfg: Config, s: State, replies: seq<Reply>)
    requires s.mode == NoOperation
    ensures Run(cfg, s, replies).out == s.out
    decreases |replies|
  {
    if replies != [] {
      RunStopped(cfg, Handle(cfg, s, replies[0]), replies[1..]);
    }
  }

  /** The state in which the front root has come down to `base` after the walk `w`. */
  function Advance(s: State, w: Walk, base: seq<NewDir>): State
    requires s.roots != []
  {
    SetFront(s, s.roots[0].(dirsToVisit := base, visited := w.visited))
    .(out := s.out + w.out,
      processedFiles := s.processedFiles + w.files,
      processedDirectories := s.processedDirectories + w.directories,
      failed := s.failed || w.failed)
  }

  /** `t`, run on `replies`, does what the walk `w` from `s` does. */
  ghost predicate Refines(cfg: Config, t: State, replies: seq<Reply>, s: State, w: Walk, base: seq<NewDir>)
    requires s.roots != []
  {
    if w.halted then Run(cfg, t, replies).out == s.out + w.out
    else Run(cfg, t, replies) == Run(cfg, NextOperation(cfg, Advance(s, w, base)), w.rest)
  }

  function ContextIn(cfg: Config, s: State): Context
    requires s.roots != []
  {
    ContextOf(cfg, s.mode, s.roots[0], |s.roots|)
  }

  lemma AdvanceTwice(s: State, a: Walk, base: seq<NewDir>, b: Walk, base': seq<NewDir>)
    requires s.roots != []
    ensures Advance(Advance(s, a, base), b, base') == Advance(s, Then(a, b), base')
    ensures Advance(s, a, base).out + b.out == s.out + Then(a, b).out
  {
  }

  /** Outputs of the state itself count as the start of the walk. */
  lemma RefinesPrefixed(cfg: Config, t: State, replies: seq<Reply>, s: State, out: seq<Output>, failed: bool, w: Walk, base: seq<NewDir>)
    requires s.roots != []
    requires var s' := s.(out := s.out + out, failed := failed || s.failed); Refines(cfg, t, replies, s', w, base)
    ensures Refines(cfg, t, replies, s, Prefixed(out, w).(failed := failed || w.failed), base)
  {
    assert s.out + out + w.out == s.out + (out + w.out);
  }

  lemma {:induction false} RunRefinesWalkAll(cfg: Config, s: State, dirs: seq<NewDir>, base: seq<NewDir>, replies: seq<Reply>)
    requires s.mode != NoOperation && s.roots != [] && s.roots[0].dirsToVisit == dirs + base && AllToVisit(dirs)
    ensures
      var w := WalkAll(ContextIn(cfg, s), dirs, s.roots[0].visited, replies);
      Refines(cfg, NextOperation(cfg, s), replies, s, w, base)
    decreases |replies|, 2, |dirs|
  {
    hide NextOperation, Run, Visit;
    var c, visited := ContextIn(cfg, s), s.roots[0].visited;
    if dirs == [] {
      NothingAdvances(s, base, replies);
    } else {
      assert [dirs[0]] + (dirs[1..] + base) == dirs + base;
      RunRefinesVisit(cfg, s, dirs[0], dirs[1..] + base, replies);
      var first := Visit(c, dirs[0], visited, replies);
      if !first.halted {
        RunRefinesWalkAll(cfg, Advance(s, first, dirs[1..] + base), dirs[1..], base, first.rest);
        hide Refines;
        RefinesLonger(cfg, NextOperation(cfg, s), replies, s, first, dirs[1..] + base,
                      WalkAll(c, dirs[1..], first.visited, first.rest), base);
      }
    }
  }

  lemma RefinesLonger(cfg: Config, t: State, replies: seq<Reply>, s: State, a: Walk, base: seq<NewDir>, b: Walk, base': seq<NewDir>)
    requires s.roots != [] && !a.halted
    requires Refines(cfg, t, replies, s, a, base)
    requires Refines(cfg, NextOperation(cfg, Advance(s, a, base)), a.rest, Advance(s, a, base), b, base')
    ensures Refines(cfg, t, replies, s, Then(a, b), base')
  {
    hide NextOperation, Run;
    AdvanceTwice(s, a, base, b, base');
  }

  lemma NothingAdvances(s: State, base: seq<NewDir>, replies: seq<Reply>)
    requires s.roots != [] && s.roots[0].dirsToVisit == base
    ensures Advance(s, Nothing(s.roots[0].visited, replies, false), base) == s
  {
    assert s.out + [] == s.out;
    assert s.roots[0 := s.roots[0]] == s.roots;
  }

  lemma {:induction false} RunRefinesVisit(cfg: Config, s: State, d: NewDir, base: seq<NewDir>, replies: seq<Reply>)
    requires s.mode != NoOperation && s.roots != [] && s.roots[0].dirsToVisit == [d] + base && d.doVisit
    ensures
      var w := Visit(ContextIn(cfg, s), d, s.roots[0].visited, replies);
      Refines(cfg, NextOperation(cfg, s), replies, s, w, base)
    decreases |replies|, 1, 0
  {
    var t := s.(out := s.out + [ListCommand(cfg, d)]);
    assert NextOperation(cfg, s) == t;
    hide NextOperation, Refines, Await;
    RunRefinesAwait(cfg, t, d, base, replies);
    RefinesPrefixed(cfg, t, replies, s, [ListCommand(cfg, d)], false, Await(ContextIn(cfg, s), d, s.roots[0].visited, replies), base);
  }

  /** A reply turns a run into a run on the other replies. */
  lemma RefinesReply(cfg: Config, s: State, replies: seq<Reply>, w: Walk, base: seq<NewDir>)
    requires s.roots != [] && replies != []
    requires Refines(cfg, Handle(cfg, s, replies[0]), replies[1..], s, w, base)
    ensures Refines(cfg, s, replies, s, w, base)
  {
    hide NextOperation, Handle;
  }

  lemma {:induction false} RunRefinesAwait(cfg: Config, s: State, d: NewDir, base: seq<NewDir>, replies: seq<Reply>)
    requires s.mode != NoOperation && s.roots != [] && s.roots[0].dirsToVisit == [d] + base && d.doVisit
    ensures
      var w := Await(ContextIn(cfg, s), d, s.roots[0].visited, replies);
      Refines(cfg, s, replies, s, w, base)
    decreases |replies|, 0, 1
  {
    var w := Await(ContextIn(cfg, s), d, s.roots[0].visited, replies);
    if replies == [] {
      assert s.out + [] == s.out;
    } else {
      hide NextOperation, Run, WalkAll, Visit;
      var r, rest := replies[0], replies[1..];
      if r.Listed? && r.listing.failed {
        RunRefinesAwait(cfg, s, d, base, rest);
        RefinesReply(cfg, s, replies, w, base);
      } else if r.Listed? {
        RunRefinesListing(cfg, s, d, base, r.listing, rest);
        RefinesReply(cfg, s, replies, w, base);
      } else if r.LinkIsNotDir? {
        assert s.roots[0].dirsToVisit[1..] == base;
        assert w.out == if r.connected then LinkOutputs(s.mode, d) else [];
        assert AfterLink(s, r.connected) == Advance(s, w, base);
        RefinesReply(cfg, s, replies, w, base);
      } else if r.ListFailed? && !r.canceled {
        RunRefinesFailure(cfg, s, d, base, r.critical, rest);
        RefinesReply(cfg, s, replies, w, base);
      } else {
        assert s.out + [] == s.out;
        RunStopped(cfg, Handle(cfg, s, r), rest);
        RefinesReply(cfg, s, replies, w, base);
      }
    }
  }

  /** A marker on top of the stack turns into the removal of its directory. */
  lemma MarkerIsRemoved(cfg: Config, s: State, d: NewDir, base: seq<NewDir>)
    requires s.mode != NoOperation && s.roots != [] && s.roots[0].dirsToVisit == Marker(s.mode, d) + base
    ensures
      NextOperation(cfg, s) ==
      NextOperation(cfg, SetFront(s, s.roots[0].(dirsToVisit := base)).(out := s.out + RemoveSelf(s.mode, d)))
  {
    if DeletedAfterwards(s.mode, d) {
      assert (Marker(s.mode, d) + base)[1..] == base;
    } else {
      assert Marker(s.mode, d) + base == base && s.out + [] == s.out;
      assert SetFront(s, s.roots[0]) == s;
    }
  }

  lemma {:induction false} RunRefinesFailure(cfg: Config, s: State, d: NewDir, base: seq<NewDir>, critical: bool, rest: seq<Reply>)
    requires s.mode != NoOperation && s.roots != [] && s.roots[0].dirsToVisit == [d] + base && d.doVisit
    ensures
      var r := ListFailed(false, critical);
      var w := Await(ContextIn(cfg, s), d, s.roots[0].visited, [r] + rest);
      Refines(cfg, Handle(cfg, s, r), rest, s, w, base)
    decreases |rest| + 1, 0, 0
  {
    var visited := s.roots[0].visited;
    var w := Await(ContextIn(cfg, s), d, visited, [ListFailed(false, critical)] + rest);
    FailureUnfolds(cfg, s, d, base, critical, rest);
    hide NextOperation, Run, Handle, Await, Visit;
    if !critical && !d.secondTry {
      RunRefinesRetry(cfg, s, d, base, rest);
    } else {
      PoppedRefines(cfg, s, d, base, rest, if s.mode == ListOnly then [NoteListingFailed] else [], true);
    }
  }

  /** A directory that is done with: its marker, if any, is removed at once. */
  lemma PoppedRefines(cfg: Config, s: State, d: NewDir, base: seq<NewDir>, rest: seq<Reply>, note: seq<Output>, failed: bool)
    requires s.mode != NoOperation && s.roots != []
    ensures
      var t := SetFront(s, s.roots[0].(dirsToVisit := Marker(s.mode, d) + base)).(out := s.out + note, failed := failed || s.failed);
      var w := Prefixed(note + RemoveSelf(s.mode, d), Nothing(s.roots[0].visited, rest, false)).(failed := failed);
      Refines(cfg, NextOperation(cfg, t), rest, s, w, base)
  {
    hide NextOperation, Run;
    var t := SetFront(s, s.roots[0].(dirsToVisit := Marker(s.mode, d) + base)).(out := s.out + note, failed := failed || s.failed);
    var w := Prefixed(note + RemoveSelf(s.mode, d), Nothing(s.roots[0].visited, rest, false)).(failed := failed);
    MarkerIsRemoved(cfg, t, d, base);
    assert s.out + note + RemoveSelf(s.mode, d) == s.out + w.out;
    assert SetFront(t, t.roots[0].(dirsToVisit := base)).(out := t.out + RemoveSelf(s.mode, d)) == Advance(s, w, base);
  }

  /** The state before `NextOperation` after a failure that is retried, ... */
  function Retried(s: State, d: NewDir, base: seq<NewDir>): State
    requires s.roots != []
  {
    SetFront(s, s.roots[0].(dirsToVisit := [d.(secondTry := true)] + base)).(failed := true)
  }

  /** ... and after one that is not. */
  function GivenUp(s: State, d: NewDir, base: seq<NewDir>): State
    requires s.roots != []
  {
    var note := if s.mode == ListOnly then [NoteListingFailed] else [];
    SetFront(s, s.roots[0].(dirsToVisit := Marker(s.mode, d) + base)).(failed := true, out := s.out + note)
  }

  /** The failure case of both sides, spelled out. */
  lemma FailureUnfolds(cfg: Config, s: State, d: NewDir, base: seq<NewDir>, critical: bool, rest: seq<Reply>)
    requires s.mode != NoOperation && s.roots != [] && s.roots[0].dirsToVisit == [d] + base
    ensures
      var r, again := ListFailed(false, critical), !critical && !d.secondTry;
      Handle(cfg, s, r) == NextOperation(cfg, if again then Retried(s, d, base) else GivenUp(s, d, base))
    ensures
      var r, again, visited := ListFailed(false, critical), !critical && !d.secondTry, s.roots[0].visited;
      var w := if again then Visit(ContextIn(cfg, s), d.(secondTry := true), visited, rest)
               else Prefixed(FailureOutputs(s.mode, d), Nothing(visited, rest, false));
      Await(ContextIn(cfg, s), d, visited, [r] + rest) == w.(failed := true)
  {
    hide NextOperation, Visit, WalkAll;
    assert s.roots[0].dirsToVisit[1..] == base && ([ListFailed(false, critical)] + rest)[1..] == rest;
  }

  lemma {:induction false} RunRefinesRetry(cfg: Config, s: State, d: NewDir, base: seq<NewDir>, rest: seq<Reply>)
    requires s.mode != NoOperation && s.roots != [] && d.doVisit
    ensures
      var d' := d.(secondTry := true);
      var t := Retried(s, d, base);
      var w := Visit(ContextIn(cfg, s), d', s.roots[0].visited, rest).(failed := true);
      Refines(cfg, NextOperation(cfg, t), rest, s, w, base)
    decreases |rest|, 1, 1
  {
    hide NextOperation, Run, Visit;
    var d' := d.(secondTry := true);
    var t := Retried(s, d, base);
    assert ContextIn(cfg, t) == ContextIn(cfg, s);
    RunRefinesVisit(cfg, t, d', base, rest);
    var v := Visit(ContextIn(cfg, s), d', s.roots[0].visited, rest);
    assert Advance(t, v, base) == Advance(s, v.(failed := true), base);
  }

  lemma {:induction false} RunRefinesListing(cfg: Config, s: State, d: NewDir, base: seq<NewDir>, l: Listing, rest: seq<Reply>)
    requires s.mode != NoOperation && s.roots != [] && s.roots[0].dirsToVisit == [d] + base && d.doVisit && !l.failed
    ensures
      var w := Await(ContextIn(cfg, s), d, s.roots[0].visited, [Listed(l)] + rest);
      Refines(cfg, Handle(cfg, s, Listed(l)), rest, s, w, base)
    decreases |rest| + 1, 0, 0
  {
    var root, c := s.roots[0], ContextIn(cfg, s);
    var t, d' := AfterListing(cfg, s, l), Rooted(root, d, l.path);
    var w := Await(c, d, root.visited, [Listed(l)] + rest);
    ListingUnfolds(cfg, s, d, base, l, rest);
    hide NextOperation, Run, Handle, Await, WalkAll, AfterListing, Below, Enters, Rooted, Children, DirectoryOutputs;
    if !Below(root, d, l.path) {
      assert s.out + [] == s.out;
      assert t == Advance(s, w, base);
    } else if !Enters(root, d, l) {
      hide Refines;
      assert [] + RemoveSelf(s.mode, d') == RemoveSelf(s.mode, d') && s.out + [] == s.out;
      PoppedRefines(cfg, s, d', base, rest, [], false);
    } else {
      hide Refines;
      var children := Children(cfg, s.mode, d', l.path, l.entries);
      RunRefinesContents(cfg, s, t, d', base, l, rest, WalkAll(c, children, root.visited + {Key(l.path)}, rest));
    }
  }

  /** The listing case of both sides, spelled out. */
  lemma ListingUnfolds(cfg: Config, s: State, d: NewDir, base: seq<NewDir>, l: Listing, rest: seq<Reply>)
    requires s.mode != NoOperation && s.roots != [] && s.roots[0].dirsToVisit == [d] + base && !l.failed
    ensures Handle(cfg, s, Listed(l)) == NextOperation(cfg, AfterListing(cfg, s, l))
    ensures
      var root, t := s.roots[0], AfterListing(cfg, s, l);
      var d' := Rooted(root, d, l.path);
      var entered := Entered(ContextIn(cfg, s), d', l).(visited := root.visited + {Key(l.path)});
      if !Below(root, d, l.path) then t == SetFront(s, root.(dirsToVisit := base))
      else if !Enters(root, d, l) then t == SetFront(s, root.(dirsToVisit := Marker(s.mode, d') + base))
      else t == Advance(s, entered, Children(cfg, s.mode, d', l.path, l.entries) + Marker(s.mode, d') + base)
    ensures
      var root, c := s.roots[0], ContextIn(cfg, s);
      var w, d' := Await(c, d, root.visited, [Listed(l)] + rest), Rooted(root, d, l.path);
      var contents := WalkAll(c, Children(cfg, s.mode, d', l.path, l.entries), root.visited + {Key(l.path)}, rest);
      if !Below(root, d, l.path) then w == Nothing(root.visited, rest, false)
      else if !Enters(root, d, l) then w == Prefixed(RemoveSelf(s.mode, d'), Nothing(root.visited, rest, false))
      else w == Then(Entered(c, d', l), if contents.halted then contents else Then(contents, Removed(c, d', contents)))
  {
    hide NextOperation, Visit, WalkAll, Children, DirectoryOutputs, FileCount;
    var root, c := s.roots[0], ContextIn(cfg, s);
    assert root.dirsToVisit[1..] == base && ([Listed(l)] + rest)[1..] == rest;
    SameRoot(root, c.RootWith(root.visited), d, l);
    hide Below, Enters, Rooted;
  }

  lemma {:induction false} RunRefinesContents(cfg: Config, s: State, t: State, d: NewDir, base: seq<NewDir>, l: Listing, rest: seq<Reply>, contents: Walk)
    requires s.mode != NoOperation && s.roots != []
    requires
      var entered := Entered(ContextIn(cfg, s), d, l).(visited := s.roots[0].visited + {Key(l.path)});
      var children := Children(cfg, s.mode, d, l.path, l.entries);
      && t == Advance(s, entered, children + Marker(s.mode, d) + base)
      && contents == WalkAll(ContextIn(cfg, s), children, entered.visited, rest)
    ensures
      var c := ContextIn(cfg, s);
      var w := Then(Entered(c, d, l), if contents.halted then contents else Then(contents, Removed(c, d, contents)));
      Refines(cfg, NextOperation(cfg, t), rest, s, w, base)
    decreases |rest|, 3, 0
  {
    hide NextOperation, Run, WalkAll;
    var c, children := ContextIn(cfg, s), Children(cfg, s.mode, d, l.path, l.entries);
    var entered := Entered(c, d, l).(visited := s.roots[0].visited + {Key(l.path)});
    var marked := Marker(s.mode, d) + base;
    ChildrenAreToVisit(cfg, s.mode, d, l.path, l.entries);
    assert children + Marker(s.mode, d) + base == children + marked;
    RunRefinesWalkAll(cfg, t, children, marked, rest);
    assert ContextIn(cfg, t) == c;
    if !contents.halted {
      var u := Advance(t, contents, marked);
      MarkerIsRemoved(cfg, u, d, base);
      assert RemoveSelf(s.mode, d) + [] == RemoveSelf(s.mode, d);
      assert SetFront(u, u.roots[0].(dirsToVisit := base)).(out := u.out + RemoveSelf(s.mode, d)) == Advance(u, Removed(c, d, contents), base);
      AdvanceTwice(t, contents, marked, Removed(c, d, contents), base);
      AdvanceTwice(s, entered, children + Marker(s.mode, d) + base, Then(contents, Removed(c, d, contents)), base);
    } else {
      AdvanceTwice(s, entered, children + Marker(s.mode, d) + base, contents, base);
    }
  }

  /** A root that is done is dropped before anything else. */
  lemma DoneRootIsDropped(cfg: Config, s: State, w: Walk)
    requires s.mode != NoOperation && s.roots != []
    ensures
      var t := Advance(s, w, []);
      NextOperation(cfg, t) == NextOperation(cfg, s.(roots := s.roots[1..], out := s.out + w.out,
        processedFiles := t.processedFiles, processedDirectories := t.processedDirectories, failed := t.failed))
  {
    var t := Advance(s, w, []);
    assert t.roots[1..] == s.roots[1..];
    assert NextOperation(cfg, t) == NextOperation(cfg, t.(roots := t.roots[1..]));
    hide NextOperation;
  }

  lemma WalkRootsUnfolds(cfg: Config, mode: Mode, roots: seq<Root>, replies: seq<Reply>)
    requires roots != []
    ensures
      var w := WalkAll(ContextOf(cfg, mode, roots[0], |roots|), roots[0].dirsToVisit, roots[0].visited, replies);
      WalkRoots(cfg, mode, roots, replies) == if w.halted then w.out else w.out + WalkRoots(cfg, mode, roots[1..], w.rest)
  {
    hide WalkAll;
  }

  lemma OutputsRegroup(a: seq<Output>, b: seq<Output>, c: seq<Output>)
    ensures a + b + c == a + (b + c)
  {
  }

  /**
   The refinement.  From the start of an operation, under any replies whatever, the outputs of the stack
   machine are those of the recursive walk.
   */
  lemma {:induction false} StackRefinesRecursion(cfg: Config, s: State, replies: seq<Reply>)
    requires s.mode != NoOperation && forall k :: 0 <= k < |s.roots| ==> AllToVisit(s.roots[k].dirsToVisit)
    ensures Run(cfg, NextOperation(cfg, s), replies).out == s.out + WalkRoots(cfg, s.mode, s.roots, replies)
    decreases |s.roots|
  {
    if s.roots == [] {
      RunStopped(cfg, NextOperation(cfg, s), replies);
    } else {
      var root := s.roots[0];
      var w := WalkAll(ContextIn(cfg, s), root.dirsToVisit, root.visited, replies);
      assert root.dirsToVisit + [] == root.dirsToVisit;
      hide WalkAll, WalkRoots, Run, NextOperation, AllToVisit;
      RunRefinesWalkAll(cfg, s, root.dirsToVisit, [], replies);
      WalkRootsUnfolds(cfg, s.mode, s.roots, replies);
      if !w.halted {
        var t := Advance(s, w, []);
        var next := s.(roots := s.roots[1..], out := s.out + w.out,
          processedFiles := t.processedFiles, processedDirectories := t.processedDirectories, failed := t.failed);
        DoneRootIsDropped(cfg, s, w);
        hide Advance;
        StackRefinesRecursion(cfg, next, w.rest);
        OutputsRegroup(s.out, w.out, WalkRoots(cfg, s.mode, s.roots[1..], w.rest));
      }
    }
  }
}
