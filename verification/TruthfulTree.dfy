/**
 Deleting a tree on a server that tells the truth: the operation of
 src/commonui/remote_recursive_operation.cpp lists every directory once, deletes its files, and removes it after
 everything in it, and does nothing else.
 */
module TruthfulTree {
  import opened Options
  import opened ServerPaths
  import opened RemoteRecursion
  import opened RecursiveWalk

  /** A leaf is anything a deletion does not enter: a file, or a link. */
  datatype Node = Leaf(entry: DirEntry) | Branch(name: string, size: int, entries: seq<Node>)

  function EntryOf(n: Node): DirEntry {
    match n
    case Leaf(e) => e
    case Branch(name, size, _) => DirEntry(name, true, false, size)
  }

  function Entries(nodes: seq<Node>): seq<DirEntry> {
    if nodes == [] then [] else [EntryOf(nodes[0])] + Entries(nodes[1..])
  }

  function Down(path: ServerPath, name: string): ServerPath {
    if path.data.None? then path
    else path.(data := Some(path.data.value.(segments := path.data.value.segments + [name])))
  }

  // ---- What the server replies, and what should come out ----

  /** The directories of a tree, each before what is in it, as the set of visited paths tells them apart. */
  function Paths(path: ServerPath, nodes: seq<Node>): seq<ServerPath>
    decreases nodes
  {
    if nodes == [] then []
    else if nodes[0].Leaf? then Paths(path, nodes[1..])
    else
      var child := Down(path, nodes[0].name);
      [Key(child)] + Paths(child, nodes[0].entries) + Paths(path, nodes[1..])
  }

  function Replies(path: ServerPath, nodes: seq<Node>): seq<Reply>
    decreases nodes
  {
    if nodes == [] then []
    else if nodes[0].Leaf? then Replies(path, nodes[1..])
    else
      var child := Down(path, nodes[0].name);
      [Listed(Listing(child, Entries(nodes[0].entries), false))] + Replies(child, nodes[0].entries) + Replies(path, nodes[1..])
  }

  /** The names of the leaves, from the last to the first. */
  function Leaves(nodes: seq<Node>): seq<string> {
    if nodes == [] then []
    else Leaves(nodes[1..]) + if nodes[0].Leaf? then [nodes[0].entry.name] else []
  }

  /** Ask for the directory, delete its files, deal with what is in it, and remove it. */
  function Deletion(path: ServerPath, nodes: seq<Node>, refresh: bool, rootsLeft: nat): seq<Output>
    decreases nodes
  {
    if nodes == [] then []
    else if nodes[0].Leaf? then Deletion(path, nodes[1..], refresh, rootsLeft)
    else
      var n := nodes[0];
      var child := Down(path, n.name);
      [ListCmd(path, n.name, refresh, false)] +
      (if Leaves(n.entries) == [] then [] else [DeleteCmd(child, Leaves(n.entries))]) +
      [DirListingEnd(rootsLeft, child)] +
      Deletion(child, n.entries, refresh, rootsLeft) +
      [RemoveDirCmd(path, n.name)] +
      Deletion(path, nodes[1..], refresh, rootsLeft)
  }

  // ---- Assumptions ----

  /** Names are not empty, and leaves are what a deletion takes for files. */
  predicate WellFormed(nodes: seq<Node>)
    decreases nodes
  {
    nodes == [] ||
    (WellFormed(nodes[1..]) &&
     match nodes[0]
     case Leaf(e) => !IsTreated(Delete, e)
     case Branch(name, _, entries) => name != "" && WellFormed(entries))
  }

  predicate Distinct(paths: seq<ServerPath>) {
    forall a, b :: 0 <= a < b < |paths| ==> paths[a] != paths[b]
  }

  /** A start below which every longer path is a subdirectory. */
  predicate IsStart(start: ServerPath) {
    && start.data.Some?
    && (TraitsOf(start.typ).hasRoot || start.data.value.segments != [])
    && (TraitsOf(start.typ).prefixIsSuffix ==> start.data.value.prefix.Some?)
  }

  predicate AtOrBelow(path: ServerPath, start: ServerPath) {
    path == start || IsSubdirOf(path, start)
  }

  lemma DownIsBelow(path: ServerPath, name: string, start: ServerPath)
    requires IsStart(start) && AtOrBelow(path, start)
    ensures IsSubdirOf(Down(path, name), start)
  {
    if path != start {
      var p, q := path.data.value.segments, start.data.value.segments;
      forall k | 0 <= k < |q| ensures EXACT(q[k]) == EXACT((p + [name])[k]) {
        assert EXACT(q[k]) == EXACT(p[k]);
      }
    }
  }

  /** The directory being dealt with, as the operation describes it. */
  predicate IsEntered(d: NewDir) {
    d.recurse && d.doVisit && d.restricted.None? && d.startDir.Empty() && d.link == 0
  }

  predicate Unfiltered(cfg: Config, nodes: seq<Node>, path: ServerPath)
    decreases nodes
  {
    nodes == [] ||
    (!cfg.filtered(EntryOf(nodes[0]), path) && Unfiltered(cfg, nodes[1..], path) &&
     (nodes[0].Branch? ==> Unfiltered(cfg, nodes[0].entries, Down(path, nodes[0].name))))
  }

  // ---- One listing ----

  function ChildOf(path: ServerPath, d: NewDir, name: string): NewDir {
    NewDir(path, name, d.localDir, None, d.startDir, 0, true, true, false)
  }

  function Subdirs(path: ServerPath, d: NewDir, nodes: seq<Node>): seq<NewDir> {
    if nodes == [] then []
    else (if nodes[0].Branch? then [ChildOf(path, d, nodes[0].name)] else []) + Subdirs(path, d, nodes[1..])
  }

  lemma ListingOutputs(cfg: Config, d: NewDir, path: ServerPath, nodes: seq<Node>)
    requires IsEntered(d) && WellFormed(nodes) && Unfiltered(cfg, nodes, path)
    ensures FilesToDelete(cfg, Delete, d, path, Entries(nodes)) == Leaves(nodes)
    ensures Outputs(cfg, Delete, d, path, Entries(nodes)) == []
    ensures Children(cfg, Delete, d, path, Entries(nodes)) == Subdirs(path, d, nodes)
    decreases |nodes|
  {
    if nodes != [] {
      ListingOutputs(cfg, d, path, nodes[1..]);
      assert Entries(nodes)[0] == EntryOf(nodes[0]) && Entries(nodes)[1..] == Entries(nodes[1..]);
    }
  }

  function ListingOf(path: ServerPath, n: Node): Listing
    requires n.Branch?
  {
    Listing(Down(path, n.name), Entries(n.entries), false)
  }

  /** What is said and done for a directory before anything in it is visited. */
  function Before(path: ServerPath, n: Node, refresh: bool, rootsLeft: nat): seq<Output>
    requires n.Branch?
  {
    var child := Down(path, n.name);
    [ListCmd(path, n.name, refresh, false)] +
    (if Leaves(n.entries) == [] then [] else [DeleteCmd(child, Leaves(n.entries))]) +
    [DirListingEnd(rootsLeft, child)]
  }

  /** One directory whose listing is true, around what is in it. */
  lemma VisitTruth(c: Context, path: ServerPath, d: NewDir, n: Node, visited: set<ServerPath>, replies: seq<Reply>)
    requires c.mode == Delete && n.Branch? && n.name != "" && WellFormed(n.entries)
    requires IsEntered(d) && d.parent == path && d.subdir == n.name
    requires Unfiltered(c.cfg, n.entries, Down(path, n.name))
    requires IsSubdirOf(Down(path, n.name), c.startDir) && Key(Down(path, n.name)) !in visited
    requires
      var child := Down(path, n.name);
      !WalkAll(c, Subdirs(child, d, n.entries), visited + {Key(child)}, replies).halted
    ensures
      var child := Down(path, n.name);
      var w := WalkAll(c, Subdirs(child, d, n.entries), visited + {Key(child)}, replies);
      var v := Visit(c, d, visited, [Listed(ListingOf(path, n))] + replies);
      && !v.halted && v.failed == w.failed && v.visited == w.visited && v.rest == w.rest
      && v.out == Before(path, n, c.cfg.refresh, c.rootsLeft) + w.out + [RemoveDirCmd(path, n.name)]
  {
    var child, l := Down(path, n.name), ListingOf(path, n);
    var all := [Listed(l)] + replies;
    assert all[0] == Listed(l) && all[1..] == replies;
    ListingOutputs(c.cfg, d, child, n.entries);
    var w := WalkAll(c, Subdirs(child, d, n.entries), visited + {Key(child)}, replies);
    var root := c.RootWith(visited);
    assert Below(root, d, child) && Enters(root, d, l) && Rooted(root, d, child) == d by {
      hide IsSubdirBy;
    }
    hide WalkAll, Children, Outputs, FilesToDelete, Leaves, Subdirs, Below, Enters, Rooted, IsSubdirOf;
    assert Await(c, d, visited, all) == Then(Entered(c, d, l), Then(w, Removed(c, d, w)));
    var files := if Leaves(n.entries) == [] then [] else [DeleteCmd(child, Leaves(n.entries))];
    assert DirectoryOutputs(c.cfg, Delete, d, l, c.rootsLeft) == files + [DirListingEnd(c.rootsLeft, child)] by {
      assert [] + files == files;
    }
    hide DirectoryOutputs, Await;
    assert Removed(c, d, w).out == [RemoveDirCmd(path, n.name)] by {
      assert [RemoveDirCmd(path, n.name)] + [] == [RemoveDirCmd(path, n.name)];
    }
    hide Removed;
    Regroup([ListCommand(c.cfg, d)], files, [DirListingEnd(c.rootsLeft, child)], w.out, [RemoveDirCmd(path, n.name)]);
  }

  lemma Regroup(a: seq<Output>, b: seq<Output>, c: seq<Output>, d: seq<Output>, e: seq<Output>)
    ensures a + ((b + c) + (d + e)) == a + b + c + d + e
  {
  }

  // ---- The whole tree ----

  function PathSet(paths: seq<ServerPath>): set<ServerPath> {
    set p | p in paths
  }

  predicate NoneVisited(paths: seq<ServerPath>, visited: set<ServerPath>) {
    forall k :: 0 <= k < |paths| ==> paths[k] !in visited
  }

  lemma DistinctParts(first: ServerPath, a: seq<ServerPath>, b: seq<ServerPath>)
    requires Distinct([first] + a + b)
    ensures Distinct(a) && Distinct(b) && first !in a && first !in b
    ensures forall k :: 0 <= k < |b| ==> b[k] !in a
  {
    var all := [first] + a + b;
    assert all[0] == first;
    assert forall k :: 0 <= k < |a| ==> a[k] == all[k + 1];
    assert forall k :: 0 <= k < |b| ==> b[k] == all[k + 1 + |a|];
  }

  lemma UnvisitedParts(first: ServerPath, a: seq<ServerPath>, b: seq<ServerPath>, visited: set<ServerPath>)
    requires NoneVisited([first] + a + b, visited)
    ensures first !in visited && NoneVisited(a, visited) && NoneVisited(b, visited)
  {
    var all := [first] + a + b;
    assert all[0] == first;
    assert forall k :: 0 <= k < |a| ==> a[k] == all[k + 1];
    assert forall k :: 0 <= k < |b| ==> b[k] == all[k + 1 + |a|];
  }

  lemma PathSetOfParts(first: ServerPath, a: seq<ServerPath>, b: seq<ServerPath>, visited: set<ServerPath>)
    ensures visited + {first} + PathSet(a) + PathSet(b) == visited + PathSet([first] + a + b)
  {
  }

  /** Of distinct paths, those of one part are still to be visited after the others were. */
  lemma PartsStayUnvisited(first: ServerPath, a: seq<ServerPath>, b: seq<ServerPath>, visited: set<ServerPath>)
    requires Distinct([first] + a + b) && NoneVisited([first] + a + b, visited)
    ensures first !in visited && Distinct(a) && Distinct(b)
    ensures NoneVisited(a, visited + {first}) && NoneVisited(b, visited + {first} + PathSet(a))
    ensures visited + {first} + PathSet(a) + PathSet(b) == visited + PathSet([first] + a + b)
  {
    DistinctParts(first, a, b);
    UnvisitedParts(first, a, b, visited);
    PathSetOfParts(first, a, b, visited);
    hide Distinct;
  }

  lemma RepliesRegroup(l: Reply, a: seq<Reply>, b: seq<Reply>, more: seq<Reply>)
    ensures [l] + a + b + more == [l] + (a + (b + more))
  {
  }

  lemma WalkAllUnfolds(c: Context, d: NewDir, dirs: seq<NewDir>, visited: set<ServerPath>, replies: seq<Reply>)
    ensures
      var first := Visit(c, d, visited, replies);
      WalkAll(c, [d] + dirs, visited, replies) ==
        if first.halted then first else Then(first, WalkAll(c, dirs, first.visited, first.rest))
  {
    assert ([d] + dirs)[0] == d && ([d] + dirs)[1..] == dirs;
    hide Visit;
  }

  /** What the walk through some nodes does, and what it leaves. */
  predicate Tells(c: Context, path: ServerPath, nodes: seq<Node>, visited: set<ServerPath>, more: seq<Reply>, w: Walk) {
    && !w.halted && !w.failed && w.rest == more
    && w.visited == visited + PathSet(Paths(path, nodes))
    && w.out == Deletion(path, nodes, c.cfg.refresh, c.rootsLeft)
  }

  /** What has to be true of the tree, and of where it is. */
  predicate Suits(c: Context, path: ServerPath, nodes: seq<Node>, visited: set<ServerPath>) {
    && c.mode == Delete && IsStart(c.startDir) && AtOrBelow(path, c.startDir)
    && WellFormed(nodes) && Unfiltered(c.cfg, nodes, path)
    && Distinct(Paths(path, nodes)) && NoneVisited(Paths(path, nodes), visited)
  }

  lemma {:induction false} WalkTellsTheTree(c: Context, path: ServerPath, d: NewDir, nodes: seq<Node>, visited: set<ServerPath>, more: seq<Reply>)
    requires Suits(c, path, nodes, visited) && IsEntered(d)
    ensures Tells(c, path, nodes, visited, more, WalkAll(c, Subdirs(path, d, nodes), visited, Replies(path, nodes) + more))
    decreases nodes
  {
    if nodes == [] {
      assert [] + more == more && PathSet([]) == {};
    } else if nodes[0].Leaf? {
      assert Suits(c, path, nodes[1..], visited);
      assert [] + Subdirs(path, d, nodes[1..]) == Subdirs(path, d, nodes[1..]);
      WalkTellsTheTree(c, path, d, nodes[1..], visited, more);
      hide WalkAll, Subdirs, Suits;
    } else {
      WalkBranch(c, path, d, nodes, visited, more);
      var n, rest := nodes[0], nodes[1..];
      var child, dir := Down(path, n.name), ChildOf(path, d, n.name);
      assert IsEntered(dir);
      hide WalkAll, Subdirs, Replies, Deletion, Paths, Suits, IsEntered;
      WalkTellsTheTree(c, child, dir, n.entries, visited + {Key(child)}, Replies(path, rest) + more);
      WalkTellsTheTree(c, path, d, rest, visited + {Key(child)} + PathSet(Paths(child, n.entries)), more);
    }
  }

  /** The parts of a tree that suits do so in their turn. */
  lemma PartsSuit(c: Context, path: ServerPath, nodes: seq<Node>, visited: set<ServerPath>)
    requires nodes != [] && nodes[0].Branch? && Suits(c, path, nodes, visited)
    ensures
      var child := Down(path, nodes[0].name);
      && Suits(c, child, nodes[0].entries, visited + {Key(child)})
      && Suits(c, path, nodes[1..], visited + {Key(child)} + PathSet(Paths(child, nodes[0].entries)))
      && Key(child) !in visited && IsSubdirOf(child, c.startDir)
      && PathSet(Paths(path, nodes)) + visited ==
           visited + {Key(child)} + PathSet(Paths(child, nodes[0].entries)) + PathSet(Paths(path, nodes[1..]))
  {
    var n, rest := nodes[0], nodes[1..];
    var child := Down(path, n.name);
    assert Paths(path, nodes) == [Key(child)] + Paths(child, n.entries) + Paths(path, rest);
    DownIsBelow(path, n.name, c.startDir);
    hide Paths, Distinct, NoneVisited, PathSet, IsSubdirOf, IsStart;
    PartsStayUnvisited(Key(child), Paths(child, n.entries), Paths(path, rest), visited);
  }

  /** A directory in front: if its contents are told and the rest is, so is the whole. */
  lemma WalkBranch(c: Context, path: ServerPath, d: NewDir, nodes: seq<Node>, visited: set<ServerPath>, more: seq<Reply>)
    requires nodes != [] && nodes[0].Branch? && Suits(c, path, nodes, visited) && IsEntered(d)
    ensures
      var n, rest := nodes[0], nodes[1..];
      var child, dir := Down(path, n.name), ChildOf(path, d, n.name);
      var visited1 := visited + {Key(child)};
      var visited2 := visited1 + PathSet(Paths(child, n.entries));
      var w1 := WalkAll(c, Subdirs(child, dir, n.entries), visited1, Replies(child, n.entries) + (Replies(path, rest) + more));
      var w2 := WalkAll(c, Subdirs(path, d, rest), visited2, Replies(path, rest) + more);
      && Suits(c, child, n.entries, visited1) && Suits(c, path, rest, visited2)
      && (Tells(c, child, n.entries, visited1, Replies(path, rest) + more, w1) && Tells(c, path, rest, visited2, more, w2) ==>
            Tells(c, path, nodes, visited, more, WalkAll(c, Subdirs(path, d, nodes), visited, Replies(path, nodes) + more)))
  {
    var n, rest := nodes[0], nodes[1..];
    var child, dir := Down(path, n.name), ChildOf(path, d, n.name);
    var visited1 := visited + {Key(child)};
    var after := Replies(path, rest) + more;
    var inside := Replies(child, n.entries) + after;
    var w1 := WalkAll(c, Subdirs(child, dir, n.entries), visited1, inside);
    PartsSuit(c, path, nodes, visited);
    assert Subdirs(path, d, nodes) == [dir] + Subdirs(path, d, rest);
    assert Replies(path, nodes) == [Listed(ListingOf(path, n))] + Replies(child, n.entries) + Replies(path, rest);
    assert Deletion(path, nodes, c.cfg.refresh, c.rootsLeft) ==
      Before(path, n, c.cfg.refresh, c.rootsLeft) + Deletion(child, n.entries, c.cfg.refresh, c.rootsLeft) +
      [RemoveDirCmd(path, n.name)] + Deletion(path, rest, c.cfg.refresh, c.rootsLeft);
    assert n.name != "" && WellFormed(n.entries) && Unfiltered(c.cfg, n.entries, child) && IsEntered(dir);
    hide WalkAll, Subdirs, Replies, Deletion, Paths, Suits, IsEntered, PathSet, Before, Visit, WellFormed, Unfiltered, IsSubdirOf;
    RepliesRegroup(Listed(ListingOf(path, n)), Replies(child, n.entries), Replies(path, rest), more);
    WalkAllUnfolds(c, dir, Subdirs(path, d, rest), visited, [Listed(ListingOf(path, n))] + inside);
    if !w1.halted {
      VisitTruth(c, path, dir, n, visited, inside);
    }
  }

  // ---- Different names make different paths ----

  /** The names of directories, as paths with them are told apart: up to a NUL. */
  function DirNames(nodes: seq<Node>): seq<string> {
    if nodes == [] then []
    else (if nodes[0].Branch? then [UpToNul(nodes[0].name)] else []) + DirNames(nodes[1..])
  }

  /** No directory holds two directories of the same name. */
  predicate NamesDiffer(nodes: seq<Node>)
    decreases nodes
  {
    nodes == [] ||
    (NamesDiffer(nodes[1..]) &&
     (nodes[0].Branch? ==> UpToNul(nodes[0].name) !in DirNames(nodes[1..]) && NamesDiffer(nodes[0].entries)))
  }

  predicate Extends(p: ServerPath, path: ServerPath, names: seq<string>)
    requires path.data.Some?
  {
    var n := |path.data.value.segments|;
    p.data.Some? && |p.data.value.segments| > n && p.data.value.segments[n] in names
  }

  lemma {:induction false} PathsExtend(path: ServerPath, nodes: seq<Node>)
    requires path.data.Some?
    ensures forall p :: p in Paths(path, nodes) ==> Extends(p, path, DirNames(nodes))
    decreases nodes
  {
    if nodes != [] {
      PathsExtend(path, nodes[1..]);
      if nodes[0].Branch? {
        var name, child := nodes[0].name, Down(path, nodes[0].name);
        KeyOfChild(path, name);
        PathsExtend(child, nodes[0].entries);
        PathsBelow(child, nodes[0].entries);
        forall p | p in Paths(child, nodes[0].entries) ensures Extends(p, path, DirNames(nodes)) {
          assert StartsWith(p, child);
          assert p.data.value.segments[|path.data.value.segments|] == UpToNul(name);
        }
      }
    }
  }

  lemma KeyOfChild(path: ServerPath, name: string)
    requires path.data.Some?
    ensures StartsWith(Key(Down(path, name)), path)
    ensures
      var n, key := |path.data.value.segments|, Key(Down(path, name));
      |key.data.value.segments| == n + 1 && key.data.value.segments[n] == UpToNul(name)
  {
  }

  predicate StartsWith(p: ServerPath, path: ServerPath)
    requires path.data.Some?
  {
    p.data.Some? && |path.data.value.segments| < |p.data.value.segments| &&
    forall k :: 0 <= k < |path.data.value.segments| ==> p.data.value.segments[k] == UpToNul(path.data.value.segments[k])
  }

  lemma {:induction false} PathsBelow(path: ServerPath, nodes: seq<Node>)
    requires path.data.Some?
    ensures forall p :: p in Paths(path, nodes) ==> StartsWith(p, path)
    decreases nodes
  {
    if nodes != [] {
      PathsBelow(path, nodes[1..]);
      if nodes[0].Branch? {
        var child := Down(path, nodes[0].name);
        KeyOfChild(path, nodes[0].name);
        PathsBelow(child, nodes[0].entries);
        forall p | p in Paths(child, nodes[0].entries) ensures StartsWith(p, path) {
          assert StartsWith(p, child);
          forall k | 0 <= k < |path.data.value.segments| ensures p.data.value.segments[k] == UpToNul(path.data.value.segments[k]) {
            assert child.data.value.segments[k] == path.data.value.segments[k];
          }
        }
      }
    }
  }

  lemma JoinedAreDistinct(first: ServerPath, a: seq<ServerPath>, b: seq<ServerPath>)
    requires Distinct(a) && Distinct(b) && first !in a && first !in b && forall p :: p in a ==> p !in b
    ensures Distinct([first] + a + b)
  {
    var all := [first] + a + b;
    forall i, j | 0 <= i < j < |all| ensures all[i] != all[j] {
      if i == 0 {
        assert all[i] == first && (if j <= |a| then all[j] == a[j - 1] else all[j] == b[j - 1 - |a|]);
      } else if i > |a| {
        assert all[i] == b[i - 1 - |a|] && all[j] == b[j - 1 - |a|];
      } else if j > |a| {
        assert all[i] == a[i - 1] && all[j] == b[j - 1 - |a|];
        assert all[i] in a && all[j] in b;
      } else {
        assert all[i] == a[i - 1] && all[j] == a[j - 1];
      }
    }
  }

  lemma {:induction false} NamesMakePathsDistinct(path: ServerPath, nodes: seq<Node>)
    requires path.data.Some? && NamesDiffer(nodes)
    ensures Distinct(Paths(path, nodes))
    decreases nodes
  {
    if nodes != [] {
      var rest := nodes[1..];
      NamesMakePathsDistinct(path, rest);
      if nodes[0].Branch? {
        var name, child := nodes[0].name, Down(path, nodes[0].name);
        var inside, others := Paths(child, nodes[0].entries), Paths(path, rest);
        var n := |path.data.value.segments|;
        KeyOfChild(path, name);
        NamesMakePathsDistinct(child, nodes[0].entries);
        PathsBelow(child, nodes[0].entries);
        PathsExtend(path, rest);
        assert Paths(path, nodes) == [Key(child)] + inside + others;
        hide Paths, NamesDiffer, Distinct, DirNames;
        forall p | p in inside ensures p.data.Some? && |p.data.value.segments| > n + 1 && p.data.value.segments[n] == UpToNul(name) {
          assert StartsWith(p, child);
        }
        forall p | p in others ensures p != Key(child) && p !in inside {
          assert Extends(p, path, DirNames(rest));
        }
        JoinedAreDistinct(Key(child), inside, others);
      }
    }
  }

  /**
   Deleting a tree whose directories are listed truthfully: starting from one directory to delete, whatever the
   replies that come later, the operation asks for every directory of the tree once, deletes its files, and
   removes it after everything in it; then it is finished.
   */
  lemma DeletesTheTree(cfg: Config, root: Root, d: NewDir, top: Node, more: seq<Reply>)
    requires root.dirsToVisit == [d] && IsEntered(d) && top.Branch? && d.subdir == top.name && !d.secondTry
    requires d == ChildOf(d.parent, d, top.name)
    requires IsStart(root.startDir) && AtOrBelow(d.parent, root.startDir) && root.visited == {}
    requires WellFormed([top]) && Unfiltered(cfg, [top], d.parent) && NamesDiffer([top])
    ensures
      var s := State(Delete, [root], false, 0, 0, []);
      Run(cfg, NextOperation(cfg, s), Replies(d.parent, [top]) + more).out ==
        Deletion(d.parent, [top], cfg.refresh, 1) + [OperationFinished]
  {
    var s := State(Delete, [root], false, 0, 0, []);
    var c := Context(cfg, Delete, root.startDir, root.allowParent, 1);
    var replies := Replies(d.parent, [top]) + more;
    assert Suits(c, d.parent, [top], root.visited) by {
      assert d.parent.data.Some?;
      NamesMakePathsDistinct(d.parent, [top]);
    }
    assert Subdirs(d.parent, d, [top]) == [d] by {
      assert [top][1..] == [] && [d] + [] == [d];
    }
    assert AllToVisit(root.dirsToVisit) by {
      assert d.doVisit;
    }
    assert [root][1..] == [];
    hide WalkAll, Subdirs, Replies, Deletion, Suits, Run, NextOperation;
    StackRefinesRecursion(cfg, s, replies);
    WalkTellsTheTree(c, d.parent, d, [top], root.visited, more);
    var w := WalkAll(c, [d], root.visited, replies);
    assert WalkRoots(cfg, Delete, [root], replies) == w.out + [OperationFinished];
    assert [] + (w.out + [OperationFinished]) == w.out + [OperationFinished];
  }
}
