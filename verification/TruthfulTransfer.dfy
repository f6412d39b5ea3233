/**
 Transferring, changing or listing a tree on a server that tells the truth
 (src/commonui/remote_recursive_operation.cpp): every directory that no filter takes out is listed once, and every
 file in it is handed over with the local directory it belongs to.
 */
module TruthfulTransfer {
  import opened Options
  import opened ServerPaths
  import opened RemoteRecursion
  import opened RecursiveWalk
  import opened TruthfulTree

  /** What asking for a link leads to: a listing of its target, or that it is no directory. */
  type Links = (ServerPath, string) -> Option<Listing>

  /** What is fixed for one operation. */
  datatype Task = Task(cfg: Config, mode: Mode, rootsLeft: nat, links: Links)

  predicate IsKept(task: Task, path: ServerPath, n: Node) {
    !task.cfg.filtered(EntryOf(n), path)
  }

  predicate IsDirectory(n: Node) {
    n.Branch? || n.entry.isDir
  }

  /** Leaves are files, or links to directories. */
  predicate OnlyLinks(nodes: seq<Node>)
    decreases nodes
  {
    nodes == [] ||
    (OnlyLinks(nodes[1..]) &&
     match nodes[0]
     case Leaf(e) => e.isDir ==> e.isLink
     case Branch(_, _, entries) => OnlyLinks(entries))
  }

  // ---- What should come out ----

  /** Only a transfer that keeps the tree goes down in the local tree, by the sanitised name if it is not empty. */
  function LocalOf(task: Task, local: LocalDir, name: string): LocalDir {
    if task.mode == Transfer && task.cfg.sanitize(name) != "" then local + [task.cfg.sanitize(name)] else local
  }

  /** What one entry of a directory leads to at once. */
  function Said(task: Task, path: ServerPath, local: LocalDir, n: Node): seq<Output> {
    var e := EntryOf(n);
    if !IsKept(task, path, n) then []
    else if task.mode == Chmod then
      if task.cfg.permissions(e).Some? then [ChmodCmd(path, e.name, task.cfg.permissions(e).value)] else []
    else if (task.mode == Transfer || task.mode == TransferFlatten) && !e.isDir then [HandleFile(e.name, local, path, e.size)]
    else []
  }

  /** From the last entry to the first. */
  function SaidAll(task: Task, path: ServerPath, local: LocalDir, nodes: seq<Node>): seq<Output> {
    if nodes == [] then [] else SaidAll(task, path, local, nodes[1..]) + Said(task, path, local, nodes[0])
  }

  function Processed(task: Task, path: ServerPath, local: LocalDir, nodes: seq<Node>): seq<Output> {
    (if nodes == [] && task.mode == Transfer then [HandleEmptyDirectory(local)] else SaidAll(task, path, local, nodes)) +
    [DirListingEnd(task.rootsLeft, path)]
  }

  function Without(local: LocalDir): LocalDir {
    if local == [] then local else local[..|local| - 1]
  }

  /** A link that is no directory is handed over, where a directory of its name would have gone. */
  function LinkSaid(task: Task, path: ServerPath, local: LocalDir, name: string): seq<Output> {
    if task.links(path, name).Some? || task.mode == ListOnly then []
    else
      [HandleInvalidLink(name, if task.mode == TransferFlatten then local else Without(LocalOf(task, local, name)), path)]
  }

  /** The directories of one listing, one after the other, each with all in it. */
  function Going(task: Task, path: ServerPath, local: LocalDir, nodes: seq<Node>): seq<Output>
    decreases nodes
  {
    if nodes == [] then []
    else
      var n, rest := nodes[0], Going(task, path, local, nodes[1..]);
      if !IsKept(task, path, n) || !IsDirectory(n) then rest
      else if n.Leaf? then
        [ListCmd(path, n.entry.name, task.cfg.refresh, true)] + LinkSaid(task, path, local, n.entry.name) + rest
      else
        var child, inner := Down(path, n.name), LocalOf(task, local, n.name);
        [ListCmd(path, n.name, task.cfg.refresh, false)] + Processed(task, child, inner, n.entries) +
        Going(task, child, inner, n.entries) + rest
  }

  /** The replies of the server to all this. */
  function Told(task: Task, path: ServerPath, nodes: seq<Node>): seq<Reply>
    decreases nodes
  {
    if nodes == [] then []
    else
      var n, rest := nodes[0], Told(task, path, nodes[1..]);
      if !IsKept(task, path, n) || !IsDirectory(n) then rest
      else if n.Leaf? then [LinkReply(task, path, n.entry.name)] + rest
      else
        var child := Down(path, n.name);
        [Listed(ListingOf(path, n))] + Told(task, child, n.entries) + rest
  }

  function LinkReply(task: Task, path: ServerPath, name: string): Reply {
    var target := task.links(path, name);
    if target.Some? then Listed(target.value.(failed := false)) else LinkIsNotDir(true)
  }

  // ---- One listing ----

  function Sub(task: Task, path: ServerPath, d: NewDir, n: Node): NewDir {
    var e := EntryOf(n);
    NewDir(path, e.name, LocalOf(task, d.localDir, e.name), None, d.startDir, if e.isLink then 1 else 0, true, !e.isLink, false)
  }

  function Subs(task: Task, path: ServerPath, d: NewDir, nodes: seq<Node>): seq<NewDir> {
    if nodes == [] then []
    else
      (if IsKept(task, path, nodes[0]) && IsDirectory(nodes[0]) then [Sub(task, path, d, nodes[0])] else []) +
      Subs(task, path, d, nodes[1..])
  }

  lemma {:induction false} EntriesLeadTo(task: Task, d: NewDir, path: ServerPath, nodes: seq<Node>)
    requires IsEntered(d) && task.mode != Delete && task.mode != NoOperation
    ensures Children(task.cfg, task.mode, d, path, Entries(nodes)) == Subs(task, path, d, nodes)
    ensures Outputs(task.cfg, task.mode, d, path, Entries(nodes)) == SaidAll(task, path, d.localDir, nodes)
    ensures FilesToDelete(task.cfg, task.mode, d, path, Entries(nodes)) == []
    decreases |nodes|
  {
    if nodes != [] {
      EntriesLeadTo(task, d, path, nodes[1..]);
      assert Entries(nodes)[0] == EntryOf(nodes[0]) && Entries(nodes)[1..] == Entries(nodes[1..]);
      EntryLeadsTo(task, d, path, nodes[0]);
      hide EntryOutputs, Said, IsKept, Kept, IsTreated;
    }
  }

  lemma EntryLeadsTo(task: Task, d: NewDir, path: ServerPath, n: Node)
    requires IsEntered(d) && task.mode != Delete && task.mode != NoOperation
    ensures EntryOutputs(task.cfg, task.mode, d, path, EntryOf(n)) == Said(task, path, d.localDir, n)
    ensures Kept(task.cfg, d, path, EntryOf(n)) == IsKept(task, path, n) && IsTreated(task.mode, EntryOf(n)) == IsDirectory(n)
    ensures Child(task.cfg, task.mode, d, path, EntryOf(n)) == Sub(task, path, d, n)
  {
  }

  lemma DirectoryIsProcessed(task: Task, d: NewDir, path: ServerPath, nodes: seq<Node>)
    requires IsEntered(d) && task.mode != Delete && task.mode != NoOperation
    ensures DirectoryOutputs(task.cfg, task.mode, d, Listing(path, Entries(nodes), false), task.rootsLeft) ==
      Processed(task, path, d.localDir, nodes)
  {
    EntriesLeadTo(task, d, path, nodes);
    assert Entries(nodes) == [] <==> nodes == [];
    hide Outputs, FilesToDelete, SaidAll, Entries;
    assert SaidAll(task, path, d.localDir, nodes) + [] == SaidAll(task, path, d.localDir, nodes);
  }

  // ---- One directory ----

  function ContextFor(task: Task, start: ServerPath, allowParent: bool): Context {
    Context(task.cfg, task.mode, start, allowParent, task.rootsLeft)
  }

  lemma VisitLink(c: Context, task: Task, path: ServerPath, d: NewDir, name: string, visited: set<ServerPath>, replies: seq<Reply>)
    requires c == ContextFor(task, c.startDir, c.allowParent) && task.mode != Delete && task.mode != NoOperation
    requires d.parent == path && d.subdir == name && d.link == 1 && !d.recurse && d.startDir.Empty()
    ensures
      var v := Visit(c, d, visited, [LinkReply(task, path, name)] + replies);
      && !v.halted && !v.failed && v.visited == visited && v.rest == replies
      && v.out == [ListCmd(path, name, task.cfg.refresh, true)] +
           if task.links(path, name).Some? then [] else LinkOutputs(task.mode, d)
  {
    var all := [LinkReply(task, path, name)] + replies;
    assert all[0] == LinkReply(task, path, name) && all[1..] == replies;
    hide Below, LinkOutputs;
  }

  lemma VisitDirectory(c: Context, task: Task, path: ServerPath, d: NewDir, n: Node, visited: set<ServerPath>, replies: seq<Reply>)
    requires c == ContextFor(task, c.startDir, c.allowParent) && task.mode != Delete && task.mode != NoOperation && n.Branch?
    requires IsEntered(d) && d.parent == path && d.subdir == n.name
    requires IsSubdirOf(Down(path, n.name), c.startDir) && Key(Down(path, n.name)) !in visited
    requires !WalkAll(c, Subs(task, Down(path, n.name), d, n.entries), visited + {Key(Down(path, n.name))}, replies).halted
    ensures
      var child := Down(path, n.name);
      var w := WalkAll(c, Subs(task, child, d, n.entries), visited + {Key(child)}, replies);
      var v := Visit(c, d, visited, [Listed(ListingOf(path, n))] + replies);
      && !v.halted && v.failed == w.failed && v.visited == w.visited && v.rest == w.rest
      && v.out == [ListCmd(path, n.name, task.cfg.refresh, false)] + Processed(task, child, d.localDir, n.entries) + w.out
  {
    var child, l := Down(path, n.name), ListingOf(path, n);
    var all := [Listed(l)] + replies;
    assert all[0] == Listed(l) && all[1..] == replies;
    EntriesLeadTo(task, d, child, n.entries);
    DirectoryIsProcessed(task, d, child, n.entries);
    var w := WalkAll(c, Subs(task, child, d, n.entries), visited + {Key(child)}, replies);
    var root := c.RootWith(visited);
    assert Below(root, d, child) && Enters(root, d, l) && Rooted(root, d, child) == d by {
      hide IsSubdirBy;
    }
    hide WalkAll, Children, Outputs, FilesToDelete, Subs, Below, Enters, Rooted, IsSubdirOf, Processed, DirectoryOutputs;
    assert Await(c, d, visited, all) == Then(Entered(c, d, l), Then(w, Removed(c, d, w)));
    hide Await;
    assert Removed(c, d, w).out == [];
    var head := Processed(task, child, d.localDir, n.entries);
    ThreeParts([ListCommand(c.cfg, d)], head, w.out);
  }

  lemma ThreeParts(a: seq<Output>, b: seq<Output>, c: seq<Output>)
    ensures a + (b + (c + [])) == a + b + c
  {
  }

  // ---- The whole tree ----

  predicate GoesWell(task: Task, path: ServerPath, local: LocalDir, nodes: seq<Node>, visited: set<ServerPath>, more: seq<Reply>, w: Walk) {
    && !w.halted && !w.failed && w.rest == more
    && w.visited <= visited + PathSet(Paths(path, nodes))
    && w.out == Going(task, path, local, nodes)
  }

  ghost predicate Fits(c: Context, task: Task, path: ServerPath, nodes: seq<Node>, visited: set<ServerPath>) {
    && c == ContextFor(task, c.startDir, c.allowParent) && task.mode != Delete && task.mode != NoOperation
    && IsStart(c.startDir) && AtOrBelow(path, c.startDir) && OnlyLinks(nodes)
    && Distinct(Paths(path, nodes)) && NoneVisited(Paths(path, nodes), visited)
  }

  lemma FewerVisited(paths: seq<ServerPath>, visited: set<ServerPath>, fewer: set<ServerPath>)
    requires NoneVisited(paths, visited) && fewer <= visited
    ensures NoneVisited(paths, fewer)
  {
  }

  lemma PartsFit(c: Context, task: Task, path: ServerPath, nodes: seq<Node>, visited: set<ServerPath>)
    requires nodes != [] && Fits(c, task, path, nodes, visited)
    ensures nodes[0].Leaf? ==> Fits(c, task, path, nodes[1..], visited) && PathSet(Paths(path, nodes[1..])) == PathSet(Paths(path, nodes))
    ensures nodes[0].Branch? ==>
      var child := Down(path, nodes[0].name);
      && Fits(c, task, child, nodes[0].entries, visited + {Key(child)})
      && Fits(c, task, path, nodes[1..], visited)
      && Fits(c, task, path, nodes[1..], visited + {Key(child)} + PathSet(Paths(child, nodes[0].entries)))
      && Key(child) !in visited && IsSubdirOf(child, c.startDir)
      && visited + PathSet(Paths(path, nodes)) ==
           visited + {Key(child)} + PathSet(Paths(child, nodes[0].entries)) + PathSet(Paths(path, nodes[1..]))
  {
    var n, rest := nodes[0], nodes[1..];
    if n.Branch? {
      var child := Down(path, n.name);
      assert Paths(path, nodes) == [Key(child)] + Paths(child, n.entries) + Paths(path, rest);
      DownIsBelow(path, n.name, c.startDir);
      assert OnlyLinks(rest) && OnlyLinks(n.entries);
      hide Paths, Distinct, NoneVisited, PathSet, IsSubdirOf, IsStart, OnlyLinks;
      PartsStayUnvisited(Key(child), Paths(child, n.entries), Paths(path, rest), visited);
      FewerVisited(Paths(path, rest), visited + {Key(child)} + PathSet(Paths(child, n.entries)), visited);
    }
  }

  lemma {:induction false} WalkGoesWell(c: Context, task: Task, path: ServerPath, d: NewDir, nodes: seq<Node>, visited: set<ServerPath>,
                                        more: seq<Reply>)
    requires Fits(c, task, path, nodes, visited) && IsEntered(d)
    ensures GoesWell(task, path, d.localDir, nodes, visited, more,
                     WalkAll(c, Subs(task, path, d, nodes), visited, Told(task, path, nodes) + more))
    decreases nodes
  {
    if nodes == [] {
      assert [] + more == more && PathSet([]) == {};
    } else {
      var n, rest := nodes[0], nodes[1..];
      PartsFit(c, task, path, nodes, visited);
      if !IsKept(task, path, n) || !IsDirectory(n) {
        WalkGoesWell(c, task, path, d, rest, visited, more);
        Skipped(c, task, path, d, nodes, visited, more);
      } else if n.Leaf? {
        WalkGoesWell(c, task, path, d, rest, visited, more);
        WalkLink(c, task, path, d, nodes, visited, more);
      } else {
        var child, dir := Down(path, n.name), Sub(task, path, d, n);
        assert IsEntered(dir) && dir.localDir == LocalOf(task, d.localDir, n.name);
        hide WalkAll, Subs, Told, Going, Fits, IsEntered, LocalOf, Sub, GoesWell;
        WalkGoesWell(c, task, child, dir, n.entries, visited + {Key(child)}, Told(task, path, rest) + more);
        var w1 := WalkAll(c, Subs(task, child, dir, n.entries), visited + {Key(child)}, Told(task, child, n.entries) + (Told(task, path, rest) + more));
        assert w1.visited <= visited + {Key(child)} + PathSet(Paths(child, n.entries)) by {
          assert GoesWell(task, child, dir.localDir, n.entries, visited + {Key(child)}, Told(task, path, rest) + more, w1);
          VisitedBound(task, child, dir.localDir, n.entries, visited + {Key(child)}, Told(task, path, rest) + more, w1);
        }
        FitsFewer(c, task, path, rest, visited + {Key(child)} + PathSet(Paths(child, n.entries)), w1.visited);
        WalkGoesWell(c, task, path, d, rest, w1.visited, more);
        WalkDirectory(c, task, path, d, nodes, visited, more);
      }
    }
  }

  lemma VisitedBound(task: Task, path: ServerPath, local: LocalDir, nodes: seq<Node>, visited: set<ServerPath>, more: seq<Reply>, w: Walk)
    requires GoesWell(task, path, local, nodes, visited, more, w)
    ensures w.visited <= visited + PathSet(Paths(path, nodes))
  {
  }

  lemma FitsFewer(c: Context, task: Task, path: ServerPath, nodes: seq<Node>, visited: set<ServerPath>, fewer: set<ServerPath>)
    requires Fits(c, task, path, nodes, visited) && fewer <= visited
    ensures Fits(c, task, path, nodes, fewer)
  {
    FewerVisited(Paths(path, nodes), visited, fewer);
    hide NoneVisited;
  }

  /** What no filter keeps, or is a file, is passed over. */
  lemma Skipped(c: Context, task: Task, path: ServerPath, d: NewDir, nodes: seq<Node>, visited: set<ServerPath>, more: seq<Reply>)
    requires nodes != [] && (!IsKept(task, path, nodes[0]) || !IsDirectory(nodes[0]))
    requires GoesWell(task, path, d.localDir, nodes[1..], visited, more,
                      WalkAll(c, Subs(task, path, d, nodes[1..]), visited, Told(task, path, nodes[1..]) + more))
    ensures GoesWell(task, path, d.localDir, nodes, visited, more,
                     WalkAll(c, Subs(task, path, d, nodes), visited, Told(task, path, nodes) + more))
  {
    assert [] + Subs(task, path, d, nodes[1..]) == Subs(task, path, d, nodes[1..]);
    assert PathSet(Paths(path, nodes[1..])) <= PathSet(Paths(path, nodes)) by {
      RestOfPaths(path, nodes);
    }
    hide WalkAll, Sub, IsKept, PathSet, Paths;
  }

  lemma RestOfPaths(path: ServerPath, nodes: seq<Node>)
    requires nodes != []
    ensures PathSet(Paths(path, nodes[1..])) <= PathSet(Paths(path, nodes))
  {
    if nodes[0].Branch? {
      var child := Down(path, nodes[0].name);
      PathSetOfParts(Key(child), Paths(child, nodes[0].entries), Paths(path, nodes[1..]), {});
    }
  }

  lemma WalkLink(c: Context, task: Task, path: ServerPath, d: NewDir, nodes: seq<Node>, visited: set<ServerPath>, more: seq<Reply>)
    requires nodes != [] && nodes[0].Leaf? && IsKept(task, path, nodes[0]) && IsDirectory(nodes[0])
    requires Fits(c, task, path, nodes, visited) && IsEntered(d)
    requires GoesWell(task, path, d.localDir, nodes[1..], visited, more,
                      WalkAll(c, Subs(task, path, d, nodes[1..]), visited, Told(task, path, nodes[1..]) + more))
    ensures GoesWell(task, path, d.localDir, nodes, visited, more,
                     WalkAll(c, Subs(task, path, d, nodes), visited, Told(task, path, nodes) + more))
  {
    var rest, link, name := nodes[1..], Sub(task, path, d, nodes[0]), nodes[0].entry.name;
    var after := Told(task, path, rest) + more;
    FitsIsOther(c, task, path, nodes, visited);
    LinkParts(c, task, path, d, nodes, visited, more);
    hide WalkAll, Subs, Told, Going, Fits, Sub, LinkReply, LinkSaid, Visit, LinkOutputs, PathSet, Paths, IsKept, Down;
    WalkAllUnfolds(c, link, Subs(task, path, d, rest), visited, [LinkReply(task, path, name)] + after);
    VisitLink(c, task, path, link, name, visited, after);
  }

  lemma LinkParts(c: Context, task: Task, path: ServerPath, d: NewDir, nodes: seq<Node>, visited: set<ServerPath>, more: seq<Reply>)
    requires nodes != [] && nodes[0].Leaf? && IsKept(task, path, nodes[0]) && IsDirectory(nodes[0])
    requires Fits(c, task, path, nodes, visited) && IsEntered(d)
    ensures
      var rest, link, name := nodes[1..], Sub(task, path, d, nodes[0]), nodes[0].entry.name;
      && Subs(task, path, d, nodes) == [link] + Subs(task, path, d, rest)
      && Told(task, path, nodes) + more == [LinkReply(task, path, name)] + (Told(task, path, rest) + more)
      && link.link == 1 && !link.recurse && link.startDir.Empty() && link.parent == path && link.subdir == name
      && Paths(path, nodes) == Paths(path, rest)
      && Going(task, path, d.localDir, nodes) ==
           [ListCmd(path, name, task.cfg.refresh, true)] +
           (if task.links(path, name).Some? then [] else LinkOutputs(task.mode, link)) + Going(task, path, d.localDir, rest)
  {
    var rest, link, name := nodes[1..], Sub(task, path, d, nodes[0]), nodes[0].entry.name;
    LinkIsSaid(task, path, d.localDir, name, link);
    assert Told(task, path, nodes) == [LinkReply(task, path, name)] + Told(task, path, rest);
    assert Subs(task, path, d, nodes) == [link] + Subs(task, path, d, rest);
    assert Paths(path, nodes) == Paths(path, rest);
    assert Going(task, path, d.localDir, nodes) ==
      [ListCmd(path, name, task.cfg.refresh, true)] + LinkSaid(task, path, d.localDir, name) + Going(task, path, d.localDir, rest);
    assert IsLinkDir(link, path, name) by {
      assert OnlyLinks(nodes);
    }
    hide *;
    OneReplyMore(LinkReply(task, path, name), Told(task, path, rest), more);
    LinkDirIs(link, path, name);
  }

  predicate IsLinkDir(link: NewDir, path: ServerPath, name: string) {
    link.link == 1 && !link.recurse && link.startDir.Empty() && link.parent == path && link.subdir == name
  }

  lemma LinkDirIs(link: NewDir, path: ServerPath, name: string)
    requires IsLinkDir(link, path, name)
    ensures link.link == 1 && !link.recurse && link.startDir.Empty() && link.parent == path && link.subdir == name
  {
  }

  lemma OneReplyMore(r: Reply, told: seq<Reply>, more: seq<Reply>)
    ensures [r] + told + more == [r] + (told + more)
  {
  }

  lemma FitsIsOther(c: Context, task: Task, path: ServerPath, nodes: seq<Node>, visited: set<ServerPath>)
    requires Fits(c, task, path, nodes, visited)
    ensures c == ContextFor(task, c.startDir, c.allowParent) && task.mode != Delete && task.mode != NoOperation
  {
  }

  lemma LinkIsSaid(task: Task, path: ServerPath, local: LocalDir, name: string, link: NewDir)
    requires task.mode != Delete && task.mode != NoOperation
    requires link.localDir == LocalOf(task, local, name) && link.subdir == name && link.parent == path
    ensures LinkSaid(task, path, local, name) == if task.links(path, name).Some? then [] else LinkOutputs(task.mode, link)
  {
  }

  lemma WalkDirectory(c: Context, task: Task, path: ServerPath, d: NewDir, nodes: seq<Node>, visited: set<ServerPath>, more: seq<Reply>)
    requires nodes != [] && nodes[0].Branch? && IsKept(task, path, nodes[0])
    requires Fits(c, task, path, nodes, visited) && IsEntered(d)
    requires
      var n, rest := nodes[0], nodes[1..];
      var child, dir, after := Down(path, n.name), Sub(task, path, d, n), Told(task, path, rest) + more;
      var w1 := WalkAll(c, Subs(task, child, dir, n.entries), visited + {Key(child)}, Told(task, child, n.entries) + after);
      && GoesWell(task, child, dir.localDir, n.entries, visited + {Key(child)}, after, w1)
      && GoesWell(task, path, d.localDir, rest, w1.visited, more, WalkAll(c, Subs(task, path, d, rest), w1.visited, after))
    ensures GoesWell(task, path, d.localDir, nodes, visited, more,
                     WalkAll(c, Subs(task, path, d, nodes), visited, Told(task, path, nodes) + more))
  {
    var n, rest := nodes[0], nodes[1..];
    var child, dir, after := Down(path, n.name), Sub(task, path, d, n), Told(task, path, rest) + more;
    var inside := Told(task, child, n.entries) + after;
    PartsFit(c, task, path, nodes, visited);
    FitsIsOther(c, task, path, nodes, visited);
    assert IsEntered(dir) && dir.parent == path && dir.subdir == n.name && dir.localDir == LocalOf(task, d.localDir, n.name);
    assert Subs(task, path, d, nodes) == [dir] + Subs(task, path, d, rest);
    assert Told(task, path, nodes) == [Listed(ListingOf(path, n))] + Told(task, child, n.entries) + Told(task, path, rest);
    assert Going(task, path, d.localDir, nodes) ==
      [ListCmd(path, n.name, task.cfg.refresh, false)] + Processed(task, child, dir.localDir, n.entries) +
      Going(task, child, dir.localDir, n.entries) + Going(task, path, d.localDir, rest);
    hide WalkAll, Subs, Told, Going, Fits, Sub, Visit, Processed, PathSet, Paths, IsEntered, LocalOf, IsSubdirOf, IsKept, Key;
    RepliesRegroup(Listed(ListingOf(path, n)), Told(task, child, n.entries), Told(task, path, rest), more);
    WalkAllUnfolds(c, dir, Subs(task, path, d, rest), visited, [Listed(ListingOf(path, n))] + inside);
    VisitDirectory(c, task, path, dir, n, visited, inside);
  }

  // ---- Whole runs ----

  /**
   An operation on a tree that is listed truthfully, other than a deletion: starting from one directory, whatever
   comes later, it goes through every directory of the tree that no filter takes out, and is then finished.
   */
  lemma GoesThroughTheTree(task: Task, root: Root, d: NewDir, top: Node, more: seq<Reply>)
    requires task.mode != Delete && task.mode != NoOperation && task.rootsLeft == 1
    requires root.dirsToVisit == [d] && IsEntered(d) && top.Branch? && d.subdir == top.name && root.visited == {}
    requires IsStart(root.startDir) && AtOrBelow(d.parent, root.startDir) && d.parent.data.Some?
    requires OnlyLinks([top]) && NamesDiffer([top])
    ensures
      var s, child := State(task.mode, [root], false, 0, 0, []), Down(d.parent, top.name);
      Run(task.cfg, NextOperation(task.cfg, s), [Listed(ListingOf(d.parent, top))] + Told(task, child, top.entries) + more).out ==
        [ListCmd(d.parent, top.name, task.cfg.refresh, false)] + Processed(task, child, d.localDir, top.entries) +
        Going(task, child, d.localDir, top.entries) + [OperationFinished]
  {
    var s, child := State(task.mode, [root], false, 0, 0, []), Down(d.parent, top.name);
    var c := ContextFor(task, root.startDir, root.allowParent);
    var inside := Told(task, child, top.entries) + more;
    var replies := [Listed(ListingOf(d.parent, top))] + inside;
    assert [Listed(ListingOf(d.parent, top))] + Told(task, child, top.entries) + more == replies;
    NamesMakePathsDistinct(d.parent, [top]);
    assert [top][1..] == [] && Paths(d.parent, []) == [];
    assert NoneVisited(Paths(d.parent, [top]), {});
    assert Fits(c, task, d.parent, [top], {});
    PartsFit(c, task, d.parent, [top], {});
    assert AllToVisit([d]) && [root][1..] == [];
    assert ContextOf(task.cfg, task.mode, root, 1) == c;
    hide WalkAll, Subs, Told, Going, Fits, Processed, PathSet, Paths, IsEntered, LocalOf, IsSubdirOf, Key, Run, NextOperation;
    WalkGoesWell(c, task, child, d, top.entries, {} + {Key(child)}, more);
    VisitDirectory(c, task, d.parent, d, top, {}, inside);
    assert [d] + [] == [d];
    WalkAllUnfolds(c, d, [], {}, replies);
    StackRefinesRecursion(task.cfg, s, replies);
    OneRoot(task, root, d, replies);
  }

  lemma OneRoot(task: Task, root: Root, d: NewDir, replies: seq<Reply>)
    requires root.dirsToVisit == [d] && root.visited == {} && task.rootsLeft == 1
    ensures
      var c := ContextFor(task, root.startDir, root.allowParent);
      var v := Visit(c, d, {}, replies);
      !v.halted ==> WalkRoots(task.cfg, task.mode, [root], replies) == v.out + [OperationFinished]
  {
    var c := ContextFor(task, root.startDir, root.allowParent);
    assert [d] + [] == [d] && [root][1..] == [];
    WalkAllUnfolds(c, d, [], {}, replies);
    hide Visit;
    var v := Visit(c, d, {}, replies);
    assert v.out + [] == v.out;
    if !v.halted {
      assert WalkAll(c, [], v.visited, v.rest) == Nothing(v.visited, v.rest, false);
    }
  }

  // ---- Where the files go ----

  /** The way down by some names. */
  function Deep(path: ServerPath, names: seq<string>): ServerPath {
    if path.data.None? then path
    else path.(data := Some(path.data.value.(segments := path.data.value.segments + names)))
  }

  /** The sanitised names, but for the empty ones. */
  function Sanitised(cfg: Config, names: seq<string>): LocalDir {
    if names == [] then []
    else
      var init, last := names[..|names| - 1], cfg.sanitize(names[|names| - 1]);
      Sanitised(cfg, init) + if last == "" then [] else [last]
  }

  /** The local directory for a remote one: as deep as that, or the start's alone if the tree is flattened. */
  function Place(task: Task, local: LocalDir, names: seq<string>): LocalDir {
    if task.mode == Transfer then local + Sanitised(task.cfg, names) else local
  }

  /**
   What a transfer is to bring: each file, and each directory that is empty, behind the names that lead to it.  What
   a filter takes out is not brought, nor anything below it.
   */
  function Brought(task: Task, start: ServerPath, local: LocalDir, names: seq<string>, nodes: seq<Node>): seq<Output>
    decreases nodes, 0
  {
    if nodes == [] then []
    else
      var n, rest := nodes[0], Brought(task, start, local, names, nodes[1..]);
      if task.cfg.filtered(EntryOf(n), Deep(start, names)) then rest
      else
        match n
        case Leaf(e) => (if e.isDir then [] else [HandleFile(e.name, Place(task, local, names), Deep(start, names), e.size)]) + rest
        case Branch(name, _, entries) => BroughtFrom(task, start, local, names + [name], entries) + rest
  }

  function BroughtFrom(task: Task, start: ServerPath, local: LocalDir, names: seq<string>, nodes: seq<Node>): seq<Output>
    decreases nodes, 1
  {
    if nodes == [] then if task.mode == Transfer then [HandleEmptyDirectory(Place(task, local, names))] else []
    else Brought(task, start, local, names, nodes)
  }

  predicate Brings(o: Output) {
    o.HandleFile? || o.HandleEmptyDirectory?
  }

  lemma OneDeeper(task: Task, start: ServerPath, local: LocalDir, names: seq<string>, name: string)
    ensures Down(Deep(start, names), name) == Deep(start, names + [name])
    ensures LocalOf(task, Place(task, local, names), name) == Place(task, local, names + [name])
  {
    assert (names + [name])[..|names|] == names;
    if start.data.Some? {
      assert start.data.value.segments + names + [name] == start.data.value.segments + (names + [name]);
    }
    var way, last := Sanitised(task.cfg, names), task.cfg.sanitize(name);
    assert Sanitised(task.cfg, names + [name]) == way + if last == "" then [] else [last];
    assert local + way + [last] == local + (way + [last]) && way + [] == way;
    hide Sanitised;
  }

  function Count(out: seq<Output>, o: Output): nat {
    multiset(out)[o]
  }

  lemma CountAdds(a: seq<Output>, b: seq<Output>, o: Output)
    ensures Count(a + b, o) == Count(a, o) + Count(b, o)
    ensures Count([], o) == 0
  {
  }

  lemma CountOne(x: Output, o: Output)
    ensures Count([x], o) == if x == o then 1 else 0
  {
  }

  /** Asking for a directory and ending with it brings nothing. */
  lemma CountAround(first: Output, a: seq<Output>, b: seq<Output>, c: seq<Output>, o: Output)
    requires !Brings(first) && Brings(o)
    ensures Count([first] + a + b + c, o) == Count(a, o) + Count(b, o) + Count(c, o)
  {
    CountOne(first, o);
    CountAdds([first], a, o);
    CountAdds([first] + a, b, o);
    CountAdds([first] + a + b, c, o);
    hide Count;
  }

  lemma BranchParts(task: Task, start: ServerPath, local: LocalDir, names: seq<string>, nodes: seq<Node>)
    requires nodes != [] && nodes[0].Branch? && IsKept(task, Deep(start, names), nodes[0])
    requires task.mode == Transfer || task.mode == TransferFlatten
    ensures
      var n, rest, path, place := nodes[0], nodes[1..], Deep(start, names), Place(task, local, names);
      var child, inner := Deep(start, names + [n.name]), Place(task, local, names + [n.name]);
      && Going(task, path, place, nodes) ==
           [ListCmd(path, n.name, task.cfg.refresh, false)] + Processed(task, child, inner, n.entries) +
           Going(task, child, inner, n.entries) + Going(task, path, place, rest)
      && SaidAll(task, path, place, nodes) == SaidAll(task, path, place, rest) + []
      && Brought(task, start, local, names, nodes) ==
           BroughtFrom(task, start, local, names + [n.name], n.entries) + Brought(task, start, local, names, rest)
  {
    OneDeeper(task, start, local, names, nodes[0].name);
    hide Deep, Place, LocalOf, Down, Processed, BroughtFrom;
  }

  lemma LinkBringsNothing(task: Task, path: ServerPath, place: LocalDir, nodes: seq<Node>, o: Output)
    requires nodes != [] && nodes[0].Leaf? && nodes[0].entry.isDir && IsKept(task, path, nodes[0]) && Brings(o)
    ensures Count(Going(task, path, place, nodes), o) == Count(Going(task, path, place, nodes[1..]), o)
  {
    var name, rest := nodes[0].entry.name, Going(task, path, place, nodes[1..]);
    var ask, link := ListCmd(path, name, task.cfg.refresh, true), LinkSaid(task, path, place, name);
    assert Going(task, path, place, nodes) == [ask] + link + rest;
    assert Count(link, o) == 0;
    hide Going, LinkSaid, Count, IsKept;
    AskingBringsNothing(path, name, task.cfg.refresh, true);
    CountOne(ask, o);
    CountAdds([ask], link, o);
    CountAdds([ask] + link, rest, o);
  }

  lemma OtherParts(task: Task, start: ServerPath, local: LocalDir, names: seq<string>, nodes: seq<Node>, o: Output)
    requires nodes != [] && (nodes[0].Leaf? || !IsKept(task, Deep(start, names), nodes[0]))
    requires (task.mode == Transfer || task.mode == TransferFlatten) && Brings(o)
    ensures
      var n, rest, path, place := nodes[0], nodes[1..], Deep(start, names), Place(task, local, names);
      var said := Said(task, path, place, n);
      && SaidAll(task, path, place, nodes) == SaidAll(task, path, place, rest) + said
      && Count(Going(task, path, place, nodes), o) == Count(Going(task, path, place, rest), o)
      && Brought(task, start, local, names, nodes) == said + Brought(task, start, local, names, rest)
  {
    var n, path, place := nodes[0], Deep(start, names), Place(task, local, names);
    var said, rest := Said(task, path, place, n), Brought(task, start, local, names, nodes[1..]);
    assert [] + rest == rest;
    assert Brought(task, start, local, names, nodes) == said + rest;
    if n.Leaf? && IsKept(task, path, n) && n.entry.isDir {
      LinkBringsNothing(task, path, place, nodes, o);
    } else {
      assert Going(task, path, place, nodes) == Going(task, path, place, nodes[1..]);
    }
    hide Deep, Place, BroughtFrom, Brought, Count, LinkSaid, Going, Said;
  }

  /** A file or an empty directory comes out as often as it is to be brought. */
  lemma {:induction false} BringsAll(task: Task, start: ServerPath, local: LocalDir, names: seq<string>, nodes: seq<Node>, o: Output)
    requires (task.mode == Transfer || task.mode == TransferFlatten) && Brings(o)
    ensures
      var path, place := Deep(start, names), Place(task, local, names);
      Count(SaidAll(task, path, place, nodes), o) + Count(Going(task, path, place, nodes), o) ==
        Count(Brought(task, start, local, names, nodes), o)
    decreases nodes, 0
  {
    var path, place := Deep(start, names), Place(task, local, names);
    if nodes == [] {
      assert SaidAll(task, path, place, nodes) == [] && Going(task, path, place, nodes) == [];
    } else {
      var n, rest := nodes[0], nodes[1..];
      BringsAll(task, start, local, names, rest, o);
      if n.Branch? && IsKept(task, path, n) {
        var deeper := names + [n.name];
        BringsFrom(task, start, local, deeper, n.entries, o);
        BranchParts(task, start, local, names, nodes);
        hide *;
        CountAround(ListCmd(path, n.name, task.cfg.refresh, false), Processed(task, Deep(start, deeper), Place(task, local, deeper), n.entries),
                    Going(task, Deep(start, deeper), Place(task, local, deeper), n.entries), Going(task, path, place, rest), o) by {
          assert Brings(o);
          AskingBringsNothing(path, n.name, task.cfg.refresh, false);
        }
        CountAdds(SaidAll(task, path, place, rest), [], o);
        CountAdds(BroughtFrom(task, start, local, deeper, n.entries), Brought(task, start, local, names, rest), o);
      } else {
        OtherParts(task, start, local, names, nodes, o);
        hide *;
        CountAdds(SaidAll(task, path, place, rest), Said(task, path, place, n), o);
        CountAdds(Said(task, path, place, n), Brought(task, start, local, names, rest), o);
      }
    }
  }

  lemma AskingBringsNothing(path: ServerPath, name: string, refresh: bool, isLink: bool)
    ensures !Brings(ListCmd(path, name, refresh, isLink)) && !Brings(OperationFinished) && !Brings(DirListingEnd(1, path))
  {
  }

  lemma {:induction false} BringsFrom(task: Task, start: ServerPath, local: LocalDir, names: seq<string>, nodes: seq<Node>, o: Output)
    requires (task.mode == Transfer || task.mode == TransferFlatten) && Brings(o)
    ensures
      var path, place := Deep(start, names), Place(task, local, names);
      Count(Processed(task, path, place, nodes), o) + Count(Going(task, path, place, nodes), o) ==
        Count(BroughtFrom(task, start, local, names, nodes), o)
    decreases nodes, 1
  {
    var path, place := Deep(start, names), Place(task, local, names);
    var head := if nodes == [] && task.mode == Transfer then [HandleEmptyDirectory(place)] else SaidAll(task, path, place, nodes);
    BringsAll(task, start, local, names, nodes, o);
    CountOne(DirListingEnd(task.rootsLeft, path), o);
    CountAdds(head, [DirListingEnd(task.rootsLeft, path)], o);
    CountAdds([], [], o);
    assert nodes == [] ==> Going(task, path, place, nodes) == [] && SaidAll(task, path, place, nodes) == [];
    hide Deep, Place, Going, Brought, SaidAll, Count;
  }

  /**
   A transfer of a tree that is listed truthfully hands over every file that no filter takes out, once, with its
   name, remote path and size, and with the local directory that stands behind the start's by the sanitised names on
   the way, or is the start's if the tree is flattened; and in a transfer with the tree each empty directory, once.
   */
  lemma TransferBringsTheTree(task: Task, root: Root, d: NewDir, top: Node, more: seq<Reply>, o: Output)
    requires (task.mode == Transfer || task.mode == TransferFlatten) && task.rootsLeft == 1
    requires root.dirsToVisit == [d] && IsEntered(d) && top.Branch? && d.subdir == top.name && root.visited == {}
    requires IsStart(root.startDir) && AtOrBelow(d.parent, root.startDir) && d.parent.data.Some?
    requires OnlyLinks([top]) && NamesDiffer([top])
    requires o.HandleFile? || o.HandleEmptyDirectory?
    ensures
      var s, child := State(task.mode, [root], false, 0, 0, []), Down(d.parent, top.name);
      var replies := [Listed(ListingOf(d.parent, top))] + Told(task, child, top.entries) + more;
      multiset(Run(task.cfg, NextOperation(task.cfg, s), replies).out)[o] ==
        multiset(BroughtFrom(task, child, d.localDir, [], top.entries))[o]
  {
    hide *;
    var child := Down(d.parent, top.name);
    var a, b := Processed(task, child, d.localDir, top.entries), Going(task, child, d.localDir, top.entries);
    GoesThroughTheTree(task, root, d, top, more);
    BringsFrom(task, child, d.localDir, [], top.entries, o) by {
      FileBrings(o);
    }
    NoDeeper(task, child, d.localDir);
    var ask := ListCmd(d.parent, top.name, task.cfg.refresh, false);
    AskingBringsNothing(d.parent, top.name, task.cfg.refresh, false);
    CountOne(OperationFinished, o);
    FileBrings(o);
    CountAround(ask, a, b, [OperationFinished], o);
    CountIs([ask] + a + b + [OperationFinished], o);
    CountIs(BroughtFrom(task, child, d.localDir, [], top.entries), o);
  }

  lemma FileBrings(o: Output)
    ensures Brings(o) <==> o.HandleFile? || o.HandleEmptyDirectory?
  {
  }

  lemma CountIs(out: seq<Output>, o: Output)
    ensures Count(out, o) == multiset(out)[o]
  {
  }

  lemma NoDeeper(task: Task, path: ServerPath, local: LocalDir)
    ensures Deep(path, []) == path && Place(task, local, []) == local
  {
    assert local + [] == local;
    if path.data.Some? {
      assert path.data.value.segments + [] == path.data.value.segments;
    }
  }
}
