/**
 The order of the recursive walk, for every sequence of replies: the outputs under one root are those of a forest
 of visits.  A directory's removal stands behind everything found in it, and nothing of that comes later.
 */
module PostOrder {
  import opened Options
  import opened ServerPaths
  import opened RemoteRecursion
  import opened RecursiveWalk

  /** `listing`: the one that was gone through, if it came to that; `before`: from asking for it to its end. */
  datatype Tree = Tree(dir: NewDir, listing: Option<Listing>, before: seq<Output>, inside: seq<Tree>, removed: bool)

  function Removal(t: Tree): seq<Output> {
    if t.removed then [RemoveDirCmd(t.dir.parent, t.dir.subdir)] else []
  }

  function Flat(t: Tree): seq<Output> {
    t.before + FlatAll(t.inside) + Removal(t)
  }

  function FlatAll(trees: seq<Tree>): seq<Output> {
    if trees == [] then [] else Flat(trees[0]) + FlatAll(trees[1..])
  }

  // ---- The forest of a walk ----

  function Forest(c: Context, dirs: seq<NewDir>, visited: set<ServerPath>, replies: seq<Reply>): seq<Tree>
    decreases |replies|, 2, |dirs|
  {
    if dirs == [] then []
    else
      var first := Visit(c, dirs[0], visited, replies);
      [VisitTree(c, dirs[0], visited, replies)] +
      if first.halted then [] else Forest(c, dirs[1..], first.visited, first.rest)
  }

  function VisitTree(c: Context, d: NewDir, visited: set<ServerPath>, replies: seq<Reply>): Tree
    decreases |replies|, 1, 0
  {
    var t := AwaitTree(c, d, visited, replies);
    t.(before := [ListCommand(c.cfg, d)] + t.before)
  }

  function AwaitTree(c: Context, d: NewDir, visited: set<ServerPath>, replies: seq<Reply>): Tree
    decreases |replies|, 0, 0
  {
    if replies == [] then Tree(d, None, [], [], false)
    else
      var rest := replies[1..];
      match replies[0]
      case ListedNothing => Tree(d, None, [], [], false)
      case LinkIsNotDir(connected) => Tree(d, None, if connected then LinkOutputs(c.mode, d) else [], [], false)
      case ListFailed(canceled, critical) =>
        if canceled then Tree(d, None, [], [], false)
        else if !critical && !d.secondTry then VisitTree(c, d.(secondTry := true), visited, rest)
        else Tree(d, None, if c.mode == ListOnly then [NoteListingFailed] else [], [], DeletedAfterwards(c.mode, d))
      case Listed(l) =>
        var root := c.RootWith(visited);
        var d' := Rooted(root, d, l.path);
        if l.failed then AwaitTree(c, d, visited, rest)
        else if !Below(root, d, l.path) then Tree(d, None, [], [], false)
        else if !Enters(root, d, l) then Tree(d', None, [], [], DeletedAfterwards(c.mode, d'))
        else EnteredTree(c, d', l, visited + {Key(l.path)}, rest)
  }

  /** `visited` has the directory already. */
  function EnteredTree(c: Context, d: NewDir, l: Listing, visited: set<ServerPath>, replies: seq<Reply>): Tree
    decreases |replies|, 3, 0
  {
    var children := Children(c.cfg, c.mode, d, l.path, l.entries);
    Tree(d, Some(l), DirectoryOutputs(c.cfg, c.mode, d, l, c.rootsLeft), Forest(c, children, visited, replies),
         !WalkAll(c, children, visited, replies).halted && DeletedAfterwards(c.mode, d))
  }

  /** The outputs of the walk are those of the forest. */
  lemma {:induction false} WalkIsForest(c: Context, dirs: seq<NewDir>, visited: set<ServerPath>, replies: seq<Reply>)
    ensures WalkAll(c, dirs, visited, replies).out == FlatAll(Forest(c, dirs, visited, replies))
    decreases |replies|, 2, |dirs|
  {
    if dirs != [] {
      var first := Visit(c, dirs[0], visited, replies);
      var t := VisitTree(c, dirs[0], visited, replies);
      VisitIsTree(c, dirs[0], visited, replies);
      var more := if first.halted then [] else Forest(c, dirs[1..], first.visited, first.rest);
      if !first.halted {
        WalkIsForest(c, dirs[1..], first.visited, first.rest);
      }
      assert Forest(c, dirs, visited, replies) == [t] + more;
      hide Visit, VisitTree, Forest;
      FlatOfMore(t, more);
    }
  }

  lemma FlatOfMore(t: Tree, more: seq<Tree>)
    ensures FlatAll([t] + more) == Flat(t) + FlatAll(more)
    ensures more == [] ==> FlatAll([t] + more) == Flat(t)
  {
    assert ([t] + more)[0] == t && ([t] + more)[1..] == more;
    hide Flat;
  }

  lemma {:induction false} VisitIsTree(c: Context, d: NewDir, visited: set<ServerPath>, replies: seq<Reply>)
    ensures Visit(c, d, visited, replies).out == Flat(VisitTree(c, d, visited, replies))
    decreases |replies|, 1, 0
  {
    AwaitIsTree(c, d, visited, replies);
    var t := AwaitTree(c, d, visited, replies);
    hide Await, AwaitTree;
    assert [ListCommand(c.cfg, d)] + (t.before + FlatAll(t.inside) + Removal(t)) ==
      [ListCommand(c.cfg, d)] + t.before + FlatAll(t.inside) + Removal(t);
  }

  lemma EnteredOut(c: Context, d: NewDir, l: Listing, contents: Walk)
    ensures
      Then(Entered(c, d, l), if contents.halted then contents else Then(contents, Removed(c, d, contents))).out ==
        DirectoryOutputs(c.cfg, c.mode, d, l, c.rootsLeft) + contents.out + if contents.halted then [] else RemoveSelf(c.mode, d)
  {
    var out := DirectoryOutputs(c.cfg, c.mode, d, l, c.rootsLeft);
    assert out + (contents.out + RemoveSelf(c.mode, d)) == out + contents.out + RemoveSelf(c.mode, d);
    assert RemoveSelf(c.mode, d) + [] == RemoveSelf(c.mode, d) && out + contents.out + [] == out + contents.out;
    hide DirectoryOutputs, RemoveSelf;
  }

  lemma FlatOfTree(t: Tree)
    ensures Flat(t) == t.before + FlatAll(t.inside) + Removal(t)
    ensures t.inside == [] ==> Flat(t) == t.before + Removal(t)
    ensures t.inside == [] && !t.removed ==> Flat(t) == t.before
    ensures t.inside == [] && t.before == [] ==> Flat(t) == Removal(t)
  {
  }

  lemma EnteredFlat(c: Context, d: NewDir, l: Listing, visited: set<ServerPath>, replies: seq<Reply>)
    ensures
      var contents := WalkAll(c, Children(c.cfg, c.mode, d, l.path, l.entries), visited, replies);
      Flat(EnteredTree(c, d, l, visited, replies)) ==
        DirectoryOutputs(c.cfg, c.mode, d, l, c.rootsLeft) +
        FlatAll(Forest(c, Children(c.cfg, c.mode, d, l.path, l.entries), visited, replies)) +
        if contents.halted then [] else RemoveSelf(c.mode, d)
  {
    FlatOfTree(EnteredTree(c, d, l, visited, replies));
    hide WalkAll, Forest, DirectoryOutputs, Children, FlatAll, Flat;
  }

  lemma {:induction false} AwaitIsTree(c: Context, d: NewDir, visited: set<ServerPath>, replies: seq<Reply>)
    ensures Await(c, d, visited, replies).out == Flat(AwaitTree(c, d, visited, replies))
    decreases |replies|, 0, 0
  {
    var t := AwaitTree(c, d, visited, replies);
    FlatOfTree(t);
    hide Flat, FlatAll;
    if replies != [] {
      var rest := replies[1..];
      match replies[0]
      case ListedNothing =>
      case LinkIsNotDir(connected) =>
      case ListFailed(canceled, critical) =>
        if !canceled && !critical && !d.secondTry {
          VisitIsTree(c, d.(secondTry := true), visited, rest);
        }
      case Listed(l) =>
        var root := c.RootWith(visited);
        var d' := Rooted(root, d, l.path);
        if l.failed {
          AwaitIsTree(c, d, visited, rest);
        } else if Enters(root, d, l) {
          var children := Children(c.cfg, c.mode, d', l.path, l.entries);
          WalkIsForest(c, children, visited + {Key(l.path)}, rest);
          EnteredOut(c, d', l, WalkAll(c, children, visited + {Key(l.path)}, rest));
          EnteredFlat(c, d', l, visited + {Key(l.path)}, rest);
          hide WalkAll, Forest, DirectoryOutputs, Children, Entered, Removed, Then, IsLinkTarget, IsSubdirOf, EnteredTree;
        }
    }
  }

  // ---- What the trees look like ----

  predicate NoRemovals(out: seq<Output>) {
    forall k :: 0 <= k < |out| ==> !out[k].RemoveDirCmd?
  }

  /** The same directory, apart from where it starts and how often it was tried. */
  predicate SameDir(d: NewDir, e: NewDir) {
    d == e.(startDir := d.startDir, secondTry := d.secondTry)
  }

  predicate SameDirs(trees: seq<Tree>, dirs: seq<NewDir>) {
    |trees| <= |dirs| && forall k :: 0 <= k < |trees| ==> SameDir(trees[k].dir, dirs[k])
  }

  /** The visit starts by asking for its directory, and what is inside are children found in its listing. */
  predicate Grown(c: Context, t: Tree) {
    && t.before != [] && t.before[0] == ListCommand(c.cfg, t.dir) && NoRemovals(t.before)
    && (t.removed ==> DeletedAfterwards(c.mode, t.dir))
    && (if t.listing.None? then t.inside == []
        else SameDirs(t.inside, Children(c.cfg, c.mode, t.dir, t.listing.value.path, t.listing.value.entries)))
    && AllGrown(c, t.inside)
  }

  predicate AllGrown(c: Context, trees: seq<Tree>) {
    trees == [] || (Grown(c, trees[0]) && AllGrown(c, trees[1..]))
  }

  lemma {:induction false} OutputsRemoveNothing(cfg: Config, mode: Mode, d: NewDir, path: ServerPath, entries: seq<DirEntry>)
    ensures NoRemovals(Outputs(cfg, mode, d, path, entries))
  {
    if entries != [] {
      OutputsRemoveNothing(cfg, mode, d, path, entries[1..]);
    }
  }

  lemma {:induction false} ForestIsGrown(c: Context, dirs: seq<NewDir>, visited: set<ServerPath>, replies: seq<Reply>)
    ensures AllGrown(c, Forest(c, dirs, visited, replies)) && SameDirs(Forest(c, dirs, visited, replies), dirs)
    decreases |replies|, 2, |dirs|
  {
    if dirs != [] {
      var first := Visit(c, dirs[0], visited, replies);
      var t := VisitTree(c, dirs[0], visited, replies);
      VisitIsGrown(c, dirs[0], visited, replies);
      var more := if first.halted then [] else Forest(c, dirs[1..], first.visited, first.rest);
      if !first.halted {
        ForestIsGrown(c, dirs[1..], first.visited, first.rest);
      }
      assert Forest(c, dirs, visited, replies) == [t] + more;
      hide Visit, VisitTree, Forest, Grown;
      OneMoreTree(c, t, more, dirs);
    }
  }

  lemma OneMoreTree(c: Context, t: Tree, more: seq<Tree>, dirs: seq<NewDir>)
    requires dirs != [] && Grown(c, t) && SameDir(t.dir, dirs[0]) && AllGrown(c, more) && SameDirs(more, dirs[1..])
    ensures AllGrown(c, [t] + more) && SameDirs([t] + more, dirs)
  {
    assert ([t] + more)[0] == t && ([t] + more)[1..] == more;
    hide Grown, SameDir;
  }

  lemma {:induction false} VisitIsGrown(c: Context, d: NewDir, visited: set<ServerPath>, replies: seq<Reply>)
    ensures var t := VisitTree(c, d, visited, replies); Grown(c, t) && SameDir(t.dir, d)
    decreases |replies|, 1, 0
  {
    AwaitIsGrown(c, d, visited, replies);
    hide AwaitTree, Children;
  }

  lemma EnteredIsGrown(c: Context, d: NewDir, l: Listing, visited: set<ServerPath>, replies: seq<Reply>)
    requires
      var children := Children(c.cfg, c.mode, d, l.path, l.entries);
      AllGrown(c, Forest(c, children, visited, replies)) && SameDirs(Forest(c, children, visited, replies), children)
    ensures
      var t := EnteredTree(c, d, l, visited, replies);
      && NoRemovals(t.before) && (t.removed ==> DeletedAfterwards(c.mode, t.dir)) && t.dir == d && t.listing == Some(l)
      && SameDirs(t.inside, Children(c.cfg, c.mode, t.dir, l.path, l.entries)) && AllGrown(c, t.inside)
  {
    OutputsRemoveNothing(c.cfg, c.mode, d, l.path, l.entries);
    hide WalkAll, Forest, Children, Outputs, FilesToDelete, AllGrown, SameDirs;
  }

  lemma AskedFirst(c: Context, d: NewDir, t: Tree)
    requires NoRemovals(t.before) && SameDir(t.dir, d) && (t.removed ==> DeletedAfterwards(c.mode, t.dir))
    requires
      if t.listing.None? then t.inside == []
      else SameDirs(t.inside, Children(c.cfg, c.mode, t.dir, t.listing.value.path, t.listing.value.entries))
    requires AllGrown(c, t.inside)
    ensures Grown(c, t.(before := [ListCommand(c.cfg, d)] + t.before))
  {
    hide Children, AllGrown, SameDirs;
  }

  lemma {:induction false} AwaitIsGrown(c: Context, d: NewDir, visited: set<ServerPath>, replies: seq<Reply>)
    ensures
      var t := AwaitTree(c, d, visited, replies);
      Grown(c, t.(before := [ListCommand(c.cfg, d)] + t.before)) && SameDir(t.dir, d)
    decreases |replies|, 0, 0
  {
    var t := AwaitTree(c, d, visited, replies);
    hide Grown, Children, EnteredTree, VisitTree, Below, SameDirs;
    assert AllGrown(c, []);
    if replies != [] {
      var rest := replies[1..];
      match replies[0]
      case ListedNothing => AskedFirst(c, d, t);
      case LinkIsNotDir(connected) => AskedFirst(c, d, t);
      case ListFailed(canceled, critical) =>
        if !canceled && !critical && !d.secondTry {
          RetryIsGrown(c, d, visited, rest);
        } else {
          AskedFirst(c, d, t);
        }
      case Listed(l) =>
        var root := c.RootWith(visited);
        var d' := Rooted(root, d, l.path);
        if l.failed {
          AwaitIsGrown(c, d, visited, rest);
        } else if Enters(root, d, l) {
          ForestIsGrown(c, Children(c.cfg, c.mode, d', l.path, l.entries), visited + {Key(l.path)}, rest);
          EnteredIsGrown(c, d', l, visited + {Key(l.path)}, rest);
          assert t == EnteredTree(c, d', l, visited + {Key(l.path)}, rest);
          hide *;
          assert SameDir(d', d) by {
            RootedIsSame(root, d, l.path);
          }
          AskedFirst(c, d, t);
        } else {
          AskedFirst(c, d, t);
        }
    } else {
      AskedFirst(c, d, t);
    }
  }

  lemma RootedIsSame(root: Root, d: NewDir, path: ServerPath)
    ensures SameDir(Rooted(root, d, path), d)
  {
    hide IsLinkTarget;
  }

  lemma RetryIsGrown(c: Context, d: NewDir, visited: set<ServerPath>, rest: seq<Reply>)
    ensures
      var t := VisitTree(c, d.(secondTry := true), visited, rest);
      Grown(c, t.(before := [ListCommand(c.cfg, d)] + t.before)) && SameDir(t.dir, d)
    decreases |rest|, 2, 0
  {
    VisitIsGrown(c, d.(secondTry := true), visited, rest);
    hide VisitTree, Children;
  }

  // ---- Every removal was asked for ----

  /** How many more times the directory was asked for than removed. */
  function Open(out: seq<Output>, parent: ServerPath, subdir: string): int {
    if out == [] then 0
    else
      var o := out[|out| - 1];
      Open(out[..|out| - 1], parent, subdir) +
      if o.ListCmd? && o.parent == parent && o.subdir == subdir then 1
      else if o == RemoveDirCmd(parent, subdir) then -1
      else 0
  }

  /** At no point was it removed more often than asked for. */
  ghost predicate NeverAhead(out: seq<Output>, parent: ServerPath, subdir: string) {
    forall n: nat :: n <= |out| ==> Open(out[..n], parent, subdir) >= 0
  }

  lemma {:induction false} OpenAdds(a: seq<Output>, b: seq<Output>, parent: ServerPath, subdir: string)
    ensures Open(a + b, parent, subdir) == Open(a, parent, subdir) + Open(b, parent, subdir)
    decreases |b|
  {
    if b == [] {
      assert a + b == a;
    } else {
      assert (a + b)[..|a + b| - 1] == a + b[..|b| - 1];
      OpenAdds(a, b[..|b| - 1], parent, subdir);
    }
  }

  lemma AheadAdds(a: seq<Output>, b: seq<Output>, parent: ServerPath, subdir: string)
    requires NeverAhead(a, parent, subdir) && NeverAhead(b, parent, subdir)
    ensures NeverAhead(a + b, parent, subdir) && Open(a, parent, subdir) >= 0
  {
    assert a[..|a|] == a;
    forall n: nat | n <= |a + b| ensures Open((a + b)[..n], parent, subdir) >= 0 {
      if n <= |a| {
        assert (a + b)[..n] == a[..n];
      } else {
        assert (a + b)[..n] == a + b[..n - |a|];
        OpenAdds(a, b[..n - |a|], parent, subdir);
      }
    }
  }

  lemma {:induction false} NothingRemoved(out: seq<Output>, parent: ServerPath, subdir: string)
    requires NoRemovals(out)
    ensures NeverAhead(out, parent, subdir)
    ensures out != [] && out[0].ListCmd? && out[0].parent == parent && out[0].subdir == subdir ==> Open(out, parent, subdir) >= 1
    decreases |out|
  {
    if out != [] {
      var init := out[..|out| - 1];
      NothingRemoved(init, parent, subdir);
      forall n: nat | n <= |out| ensures Open(out[..n], parent, subdir) >= 0 {
        if n < |out| {
          assert out[..n] == init[..n];
        } else {
          assert init[..|init|] == init && out[..n] == out;
        }
      }
    }
  }

  lemma {:induction false} TreesAreAskedFor(c: Context, trees: seq<Tree>, parent: ServerPath, subdir: string)
    requires AllGrown(c, trees)
    ensures NeverAhead(FlatAll(trees), parent, subdir)
    decreases trees
  {
    hide Grown, Open, Flat;
    if trees != [] {
      TreeIsAskedFor(c, trees[0], parent, subdir);
      TreesAreAskedFor(c, trees[1..], parent, subdir);
      AheadAdds(Flat(trees[0]), FlatAll(trees[1..]), parent, subdir);
    } else {
      NothingRemoved([], parent, subdir);
    }
  }

  lemma {:induction false} TreeIsAskedFor(c: Context, t: Tree, parent: ServerPath, subdir: string)
    requires Grown(c, t)
    ensures NeverAhead(Flat(t), parent, subdir)
    decreases t
  {
    var before, inside := t.before, FlatAll(t.inside);
    NothingRemoved(before, parent, subdir);
    TreesAreAskedFor(c, t.inside, parent, subdir);
    AheadAdds(before, inside, parent, subdir);
    FlatOfTree(t);
    OpenAdds(before, inside, parent, subdir);
    assert Open(inside, parent, subdir) >= 0 by {
      assert inside[..|inside|] == inside;
    }
    var o := RemoveDirCmd(t.dir.parent, t.dir.subdir);
    var all := before + inside;
    assert t.before[0] == ListCommand(c.cfg, t.dir);
    hide Grown, FlatAll, Flat, Open, AllGrown;
    if t.removed {
      OneRemoval(all, o, parent, subdir);
    } else {
      assert all + [] == all;
    }
  }

  lemma OneRemoval(all: seq<Output>, o: Output, parent: ServerPath, subdir: string)
    requires o.RemoveDirCmd? && NeverAhead(all, parent, subdir)
    requires o == RemoveDirCmd(parent, subdir) ==> Open(all, parent, subdir) >= 1
    ensures NeverAhead(all + [o], parent, subdir)
  {
    assert all[..|all|] == all && (all + [o])[..|all|] == all;
    forall n: nat | n <= |all + [o]| ensures Open((all + [o])[..n], parent, subdir) >= 0 {
      if n <= |all| {
        assert (all + [o])[..n] == all[..n];
      } else {
        assert (all + [o])[..n] == all + [o];
      }
    }
  }

  // ---- Nothing found in a directory comes after its removal ----

  /** The path that an output is about: where the thing it names was found. */
  function Where(o: Output): Option<ServerPath> {
    match o
    case ListCmd(parent, _, _, _) => Some(Key(parent))
    case RemoveDirCmd(parent, _) => Some(Key(parent))
    case DeleteCmd(path, _) => Some(Key(path))
    case ChmodCmd(path, _, _) => Some(Key(path))
    case HandleFile(_, _, path, _) => Some(Key(path))
    case HandleInvalidLink(_, _, path) => Some(Key(path))
    case DirListingEnd(_, path) => Some(Key(path))
    case _ => None
  }

  /** The outputs are about paths that are given or not among `keys`. */
  ghost predicate Apart(out: seq<Output>, given: set<ServerPath>, keys: set<ServerPath>) {
    forall o :: o in out && Where(o).Some? ==> Where(o).value in given || Where(o).value !in keys
  }

  /** All outputs of the walk, `after` included, that come once the directory is done are about other paths. */
  ghost predicate DoneWith(t: Tree, after: seq<Output>, given: set<ServerPath>)
    decreases t
  {
    (t.listing.Some? ==> Apart(after, given, {Key(t.listing.value.path)})) && AllDoneWith(t.inside, Removal(t) + after, given)
  }

  ghost predicate AllDoneWith(trees: seq<Tree>, after: seq<Output>, given: set<ServerPath>)
    decreases trees
  {
    trees == [] || (DoneWith(trees[0], FlatAll(trees[1..]) + after, given) && AllDoneWith(trees[1..], after, given))
  }

  /** The directories were found in places given or visited. */
  predicate FoundIn(dirs: seq<NewDir>, places: set<ServerPath>) {
    forall k :: 0 <= k < |dirs| ==> Key(dirs[k].parent) in places
  }

  lemma {:induction false} ChildrenFoundIn(c: Context, d: NewDir, path: ServerPath, entries: seq<DirEntry>)
    ensures FoundIn(Children(c.cfg, c.mode, d, path, entries), {Key(path)})
  {
    if entries != [] {
      ChildrenFoundIn(c, d, path, entries[1..]);
    }
  }

  lemma {:induction false} OutputsAreAbout(cfg: Config, mode: Mode, d: NewDir, path: ServerPath, entries: seq<DirEntry>)
    ensures forall o :: o in Outputs(cfg, mode, d, path, entries) ==> Where(o) == Some(Key(path))
  {
    if entries != [] {
      OutputsAreAbout(cfg, mode, d, path, entries[1..]);
    }
  }

  lemma DirectoryIsAbout(c: Context, d: NewDir, l: Listing)
    ensures forall o :: o in DirectoryOutputs(c.cfg, c.mode, d, l, c.rootsLeft) ==> Where(o) == None || Where(o) == Some(Key(l.path))
  {
    OutputsAreAbout(c.cfg, c.mode, d, l.path, l.entries);
    hide Outputs, FilesToDelete;
  }

  // ---- Where a walk puts out, and what it visits ----

  /** Outputs about the given places or paths not visited before, and nothing visited is forgotten. */
  ghost predicate Within(w: Walk, places: set<ServerPath>, visited: set<ServerPath>) {
    visited <= w.visited && forall o :: o in w.out && Where(o).Some? ==> Where(o).value in places || Where(o).value !in visited
  }

  lemma {:induction false} WalkIsWithin(c: Context, dirs: seq<NewDir>, visited: set<ServerPath>, replies: seq<Reply>, places: set<ServerPath>)
    requires FoundIn(dirs, places)
    ensures Within(WalkAll(c, dirs, visited, replies), places, visited)
    decreases |replies|, 2, |dirs|
  {
    if dirs != [] {
      var first := Visit(c, dirs[0], visited, replies);
      VisitIsWithin(c, dirs[0], visited, replies, places);
      if !first.halted {
        WalkIsWithin(c, dirs[1..], first.visited, first.rest, places);
      }
      hide Visit;
    }
  }

  lemma {:induction false} VisitIsWithin(c: Context, d: NewDir, visited: set<ServerPath>, replies: seq<Reply>, places: set<ServerPath>)
    requires Key(d.parent) in places
    ensures Within(Visit(c, d, visited, replies), places, visited)
    decreases |replies|, 1, 0
  {
    AwaitIsWithin(c, d, visited, replies, places);
    hide Await;
  }

  lemma EnteredIsWithin(c: Context, d: NewDir, l: Listing, contents: Walk, visited: set<ServerPath>, places: set<ServerPath>)
    requires Key(d.parent) in places && Key(l.path) !in visited
    requires Within(contents, {Key(l.path)}, visited + {Key(l.path)})
    ensures Within(Then(Entered(c, d, l), if contents.halted then contents else Then(contents, Removed(c, d, contents))), places, visited)
  {
    DirectoryIsAbout(c, d, l);
    EnteredOut(c, d, l, contents);
    hide DirectoryOutputs;
  }

  lemma {:induction false} AwaitIsWithin(c: Context, d: NewDir, visited: set<ServerPath>, replies: seq<Reply>, places: set<ServerPath>)
    requires Key(d.parent) in places
    ensures Within(Await(c, d, visited, replies), places, visited)
    decreases |replies|, 0, 0
  {
    if replies != [] {
      var rest := replies[1..];
      match replies[0]
      case ListedNothing =>
      case LinkIsNotDir(connected) =>
      case ListFailed(canceled, critical) =>
        if !canceled && !critical && !d.secondTry {
          VisitIsWithin(c, d.(secondTry := true), visited, rest, places);
          hide Visit;
        }
      case Listed(l) =>
        var root := c.RootWith(visited);
        var d' := Rooted(root, d, l.path);
        if l.failed {
          AwaitIsWithin(c, d, visited, rest, places);
        } else if Enters(root, d, l) {
          var children := Children(c.cfg, c.mode, d', l.path, l.entries);
          ChildrenFoundIn(c, d', l.path, l.entries);
          WalkIsWithin(c, children, visited + {Key(l.path)}, rest, {Key(l.path)});
          EnteredIsWithin(c, d', l, WalkAll(c, children, visited + {Key(l.path)}, rest), visited, places);
          hide WalkAll, Children, Entered, Removed, Then, IsLinkTarget, IsSubdirOf, Within;
        }
    }
  }

  // ---- And so nothing comes later ----

  lemma FoundInMore(dirs: seq<NewDir>, places: set<ServerPath>, more: set<ServerPath>)
    requires FoundIn(dirs, places) && places <= more
    ensures FoundIn(dirs, more)
  {
  }

  lemma ApartFromFewer(out: seq<Output>, given: set<ServerPath>, keys: set<ServerPath>, fewer: set<ServerPath>)
    requires Apart(out, given, keys) && fewer <= keys
    ensures Apart(out, given, fewer)
  {
  }

  lemma ApartBoth(a: seq<Output>, b: seq<Output>, given: set<ServerPath>, keys: set<ServerPath>)
    requires Apart(a, given, keys) && Apart(b, given, keys)
    ensures Apart(a + b, given, keys)
  {
  }

  /** What a walk puts out later is apart from what was visited meanwhile. */
  lemma LaterIsApart(w: Walk, visited: set<ServerPath>, meanwhile: set<ServerPath>, given: set<ServerPath>)
    requires Within(w, visited + given, meanwhile)
    ensures Apart(w.out, given, meanwhile - visited)
  {
  }

  lemma {:induction false} ForestIsDone(c: Context, dirs: seq<NewDir>, visited: set<ServerPath>, replies: seq<Reply>,
                                        after: seq<Output>, given: set<ServerPath>)
    requires FoundIn(dirs, visited + given)
    requires Apart(after, given, WalkAll(c, dirs, visited, replies).visited - visited)
    ensures AllDoneWith(Forest(c, dirs, visited, replies), after, given)
    decreases |replies|, 2, |dirs|
  {
    if dirs != [] {
      var d, rest := dirs[0], dirs[1..];
      var first := Visit(c, d, visited, replies);
      var t := VisitTree(c, d, visited, replies);
      var more := if first.halted then [] else Forest(c, rest, first.visited, first.rest);
      var w := if first.halted then Nothing(first.visited, first.rest, true) else WalkAll(c, rest, first.visited, first.rest);
      assert WalkAll(c, dirs, visited, replies).visited == w.visited;
      assert Forest(c, dirs, visited, replies) == [t] + more;
      VisitIsWithin(c, d, visited, replies, visited + given);
      if !first.halted {
        WalkIsWithin(c, rest, first.visited, first.rest, visited + given);
        WalkIsForest(c, rest, first.visited, first.rest);
      }
      assert FlatAll(more) == w.out && Within(w, visited + given, first.visited);
      assert first.visited <= w.visited && visited <= first.visited;
      LaterIsApart(w, visited, first.visited, given);
      ApartFromFewer(after, given, w.visited - visited, first.visited - visited);
      ApartBoth(FlatAll(more), after, given, first.visited - visited);
      VisitIsDone(c, d, visited, replies, FlatAll(more) + after, given);
      if !first.halted {
        ApartFromFewer(after, given, w.visited - visited, w.visited - first.visited);
        FoundInMore(rest, visited + given, first.visited + given);
        ForestIsDone(c, rest, first.visited, first.rest, after, given);
      }
      OneMoreDone(t, more, after, given);
    }
  }

  lemma OneMoreDone(t: Tree, more: seq<Tree>, after: seq<Output>, given: set<ServerPath>)
    requires DoneWith(t, FlatAll(more) + after, given) && (more == [] || AllDoneWith(more, after, given))
    ensures AllDoneWith([t] + more, after, given)
  {
    assert ([t] + more)[0] == t && ([t] + more)[1..] == more;
    hide DoneWith, FlatAll;
  }

  lemma {:induction false} VisitIsDone(c: Context, d: NewDir, visited: set<ServerPath>, replies: seq<Reply>,
                                       after: seq<Output>, given: set<ServerPath>)
    requires Key(d.parent) in visited + given
    requires Apart(after, given, Visit(c, d, visited, replies).visited - visited)
    ensures DoneWith(VisitTree(c, d, visited, replies), after, given)
    decreases |replies|, 1, 0
  {
    AwaitIsDone(c, d, visited, replies, after, given);
    hide Await, AwaitTree, Apart, AllDoneWith;
  }

  lemma EnteredIsDone(c: Context, d: NewDir, l: Listing, visited: set<ServerPath>, replies: seq<Reply>,
                      after: seq<Output>, given: set<ServerPath>)
    requires Apart(after, given, {Key(l.path)})
    requires
      var t := EnteredTree(c, d, l, visited, replies);
      AllDoneWith(Forest(c, Children(c.cfg, c.mode, d, l.path, l.entries), visited, replies), Removal(t) + after, given)
    ensures DoneWith(EnteredTree(c, d, l, visited, replies), after, given)
  {
    hide WalkAll, Forest, Children, DirectoryOutputs, Apart, AllDoneWith, Removal;
  }

  lemma RemovalIsApart(t: Tree, after: seq<Output>, visited: set<ServerPath>, given: set<ServerPath>, all: set<ServerPath>, fewer: set<ServerPath>)
    requires Key(t.dir.parent) in visited + given && Apart(after, given, all) && fewer <= all && fewer !! visited
    ensures Apart(Removal(t) + after, given, fewer)
  {
  }

  lemma {:induction false} AwaitIsDone(c: Context, d: NewDir, visited: set<ServerPath>, replies: seq<Reply>,
                                       after: seq<Output>, given: set<ServerPath>)
    requires Key(d.parent) in visited + given
    requires Apart(after, given, Await(c, d, visited, replies).visited - visited)
    ensures DoneWith(AwaitTree(c, d, visited, replies), after, given)
    decreases |replies|, 0, 0
  {
    hide Apart;
    assert forall out :: AllDoneWith([], out, given);
    if replies != [] {
      var rest := replies[1..];
      match replies[0]
      case ListedNothing =>
      case LinkIsNotDir(connected) =>
      case ListFailed(canceled, critical) =>
        if !canceled && !critical && !d.secondTry {
          VisitIsDone(c, d.(secondTry := true), visited, rest, after, given);
        }
      case Listed(l) =>
        var root := c.RootWith(visited);
        var d' := Rooted(root, d, l.path);
        if l.failed {
          AwaitIsDone(c, d, visited, rest, after, given);
        } else if Enters(root, d, l) {
          var children, key := Children(c.cfg, c.mode, d', l.path, l.entries), Key(l.path);
          var contents := WalkAll(c, children, visited + {key}, rest);
          var t := EnteredTree(c, d', l, visited + {key}, rest);
          assert Await(c, d, visited, replies).visited == contents.visited;
          assert AwaitTree(c, d, visited, replies) == t;
          hide Await, AwaitTree, AllDoneWith, DoneWith, Forest, WalkAll;
          ChildrenFoundIn(c, d', l.path, l.entries);
          WalkIsWithin(c, children, visited + {key}, rest, {key});
          assert key !in visited && visited + {key} <= contents.visited;
          assert t.dir.parent == d.parent;
          RemovalIsApart(t, after, visited, given, contents.visited - visited, contents.visited - (visited + {key}));
          FoundInMore(children, {key}, visited + {key} + given);
          ForestIsDone(c, children, visited + {key}, rest, Removal(t) + after, given);
          ApartFromFewer(after, given, contents.visited - visited, {key});
          EnteredIsDone(c, d', l, visited + {key}, rest, after, given);
        }
    }
  }

  // ---- Whole runs of the stack machine ----

  /** One forest for each root that the replies lead to. */
  function Orchard(cfg: Config, mode: Mode, roots: seq<Root>, replies: seq<Reply>): seq<seq<Tree>> {
    if roots == [] then []
    else
      var c := ContextOf(cfg, mode, roots[0], |roots|);
      var w := WalkAll(c, roots[0].dirsToVisit, roots[0].visited, replies);
      [Forest(c, roots[0].dirsToVisit, roots[0].visited, replies)] +
      if w.halted then [] else Orchard(cfg, mode, roots[1..], w.rest)
  }

  function OrchardOut(orchard: seq<seq<Tree>>): seq<Output> {
    if orchard == [] then [] else FlatAll(orchard[0]) + OrchardOut(orchard[1..])
  }

  /** Where the directories of a root were given. */
  function Given(root: Root): set<ServerPath> {
    set k | 0 <= k < |root.dirsToVisit| :: Key(root.dirsToVisit[k].parent)
  }

  /** Every forest has grown from its root's directories, and is done with each directory when it is removed. */
  ghost predicate InPostOrder(cfg: Config, mode: Mode, roots: seq<Root>, orchard: seq<seq<Tree>>) {
    orchard == [] ||
    (roots != [] &&
     var c := ContextOf(cfg, mode, roots[0], |roots|);
     && AllGrown(c, orchard[0]) && SameDirs(orchard[0], roots[0].dirsToVisit)
     && AllDoneWith(orchard[0], [], Given(roots[0]))
     && InPostOrder(cfg, mode, roots[1..], orchard[1..]))
  }

  lemma ForestOfRoot(c: Context, root: Root, replies: seq<Reply>)
    ensures
      var forest := Forest(c, root.dirsToVisit, root.visited, replies);
      && AllGrown(c, forest) && SameDirs(forest, root.dirsToVisit) && AllDoneWith(forest, [], Given(root))
      && WalkAll(c, root.dirsToVisit, root.visited, replies).out == FlatAll(forest)
  {
    ForestIsGrown(c, root.dirsToVisit, root.visited, replies);
    ForestIsDone(c, root.dirsToVisit, root.visited, replies, [], Given(root));
    WalkIsForest(c, root.dirsToVisit, root.visited, replies);
  }

  lemma OneMoreForest(forest: seq<Tree>, more: seq<seq<Tree>>)
    ensures ([forest] + more)[0] == forest && ([forest] + more)[1..] == more
    ensures OrchardOut([forest] + more) == FlatAll(forest) + OrchardOut(more)
  {
    assert ([forest] + more)[0] == forest && ([forest] + more)[1..] == more;
    hide FlatAll;
  }

  /** What the outputs of the roots may be: all of the forests, and the end if it has come to that. */
  predicate IsOutOf(out: seq<Output>, orchard: seq<seq<Tree>>) {
    out == OrchardOut(orchard) || out == OrchardOut(orchard) + [OperationFinished]
  }

  lemma OutOfMore(forest: seq<Tree>, more: seq<seq<Tree>>, out: seq<Output>)
    requires IsOutOf(out, more)
    ensures IsOutOf(FlatAll(forest) + out, [forest] + more)
  {
    OneMoreForest(forest, more);
    var a, b := FlatAll(forest), OrchardOut(more);
    assert a + (b + [OperationFinished]) == a + b + [OperationFinished];
    hide FlatAll, OrchardOut;
  }

  lemma {:induction false} RootsAreInPostOrder(cfg: Config, mode: Mode, roots: seq<Root>, replies: seq<Reply>)
    ensures
      var orchard := Orchard(cfg, mode, roots, replies);
      InPostOrder(cfg, mode, roots, orchard) && IsOutOf(WalkRoots(cfg, mode, roots, replies), orchard)
    decreases |roots|
  {
    if roots == [] {
      assert [] + [OperationFinished] == [OperationFinished];
      NoForest();
    } else {
      var c := ContextOf(cfg, mode, roots[0], |roots|);
      var w := WalkAll(c, roots[0].dirsToVisit, roots[0].visited, replies);
      var forest := Forest(c, roots[0].dirsToVisit, roots[0].visited, replies);
      var more := if w.halted then [] else Orchard(cfg, mode, roots[1..], w.rest);
      var out := if w.halted then [] else WalkRoots(cfg, mode, roots[1..], w.rest);
      ForestOfRoot(c, roots[0], replies);
      assert Orchard(cfg, mode, roots, replies) == [forest] + more && WalkRoots(cfg, mode, roots, replies) == w.out + out;
      if !w.halted {
        RootsAreInPostOrder(cfg, mode, roots[1..], w.rest);
      } else {
        NoForest();
      }
      OneMoreForest(forest, more);
      hide WalkAll, Forest, FlatAll, AllGrown, SameDirs, AllDoneWith, OrchardOut, Orchard, WalkRoots;
      OutOfMore(forest, more, out);
    }
  }

  lemma NoForest()
    ensures OrchardOut([]) == []
  {
  }

  lemma {:induction false} OrchardIsAskedFor(cfg: Config, mode: Mode, roots: seq<Root>, orchard: seq<seq<Tree>>, parent: ServerPath, subdir: string)
    requires InPostOrder(cfg, mode, roots, orchard)
    ensures NeverAhead(OrchardOut(orchard), parent, subdir)
    decreases |orchard|
  {
    hide AllGrown, SameDirs, AllDoneWith, NeverAhead;
    if orchard == [] {
      NothingRemoved([], parent, subdir);
    } else {
      TreesAreAskedFor(ContextOf(cfg, mode, roots[0], |roots|), orchard[0], parent, subdir);
      OrchardIsAskedFor(cfg, mode, roots[1..], orchard[1..], parent, subdir);
      AheadAdds(FlatAll(orchard[0]), OrchardOut(orchard[1..]), parent, subdir);
    }
  }

  /**
   Post-order under any replies whatever.  The outputs of the stack machine are those of one forest of visits for
   each root.  In it, asking for a directory comes first, what was found in the directory comes next, its removal
   last, and nothing that comes later was found there; and no directory was ever removed more often than asked for.
   */
  lemma EveryRunIsInPostOrder(cfg: Config, s: State, replies: seq<Reply>, parent: ServerPath, subdir: string)
    requires s.mode != NoOperation && forall k :: 0 <= k < |s.roots| ==> AllToVisit(s.roots[k].dirsToVisit)
    ensures
      var orchard, out := Orchard(cfg, s.mode, s.roots, replies), Run(cfg, NextOperation(cfg, s), replies).out;
      && InPostOrder(cfg, s.mode, s.roots, orchard)
      && s.out <= out && IsOutOf(out[|s.out|..], orchard) && NeverAhead(out[|s.out|..], parent, subdir)
  {
    var orchard := Orchard(cfg, s.mode, s.roots, replies);
    StackRefinesRecursion(cfg, s, replies);
    RootsAreInPostOrder(cfg, s.mode, s.roots, replies);
    OrchardIsAskedFor(cfg, s.mode, s.roots, orchard, parent, subdir);
    NothingRemoved([OperationFinished], parent, subdir);
    AheadAdds(OrchardOut(orchard), [OperationFinished], parent, subdir);
    var tail := WalkRoots(cfg, s.mode, s.roots, replies);
    assert NeverAhead(tail, parent, subdir);
    hide *;
    assert (s.out + tail)[|s.out|..] == tail;
  }
}
