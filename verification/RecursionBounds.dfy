/**
 What every recursive operation keeps: it ends if the listings only name finitely many directories and
 failures follow their announcements, it processes a directory at most once per root, and it never leaves
 the trees it was started on.
 */
module RecursionBounds {
  import opened Options
  import opened ServerPaths
  import opened RemoteRecursion

  // ---- What NextOperation leaves alone ----

  predicate IsEnd(o: Output) {
    o.DirListingEnd?
  }

  predicate NoEnds(out: seq<Output>) {
    forall k :: 0 <= k < |out| ==> !IsEnd(out[k])
  }

  /** Two roots that differ only in that the stack of the second is a lower part of the stack of the first. */
  predicate LowerPart(a: Root, b: Root) {
    && |b.dirsToVisit| <= |a.dirsToVisit|
    && b == a.(dirsToVisit := a.dirsToVisit[|a.dirsToVisit| - |b.dirsToVisit|..])
  }

  /** `t` has come down from `s`: finished roots and a part of the front stack are gone, nothing was added. */
  predicate CameDown(s: State, t: State) {
    && s.out <= t.out && NoEnds(t.out[|s.out|..])
    && (t.mode == NoOperation || t.mode == s.mode)
    && (t.mode != NoOperation ==>
          && t.roots != [] && |t.roots| <= |s.roots|
          && t.roots[1..] == s.roots[|s.roots| - |t.roots| + 1..]
          && LowerPart(s.roots[|s.roots| - |t.roots|], t.roots[0]))
  }

  lemma LowerPartTwice(a: Root, b: Root, c: Root)
    requires LowerPart(a, b) && LowerPart(b, c)
    ensures LowerPart(a, c)
  {
    var n, m := |a.dirsToVisit| - |b.dirsToVisit|, |b.dirsToVisit| - |c.dirsToVisit|;
    assert a.dirsToVisit[n..][m..] == a.dirsToVisit[n + m..];
  }

  lemma CameDownTwice(s: State, t: State, u: State)
    requires CameDown(s, t) && CameDown(t, u)
    requires t.mode != NoOperation
    ensures CameDown(s, u)
  {
    assert u.out[|s.out|..] == t.out[|s.out|..] + u.out[|t.out|..];
    if u.mode != NoOperation {
      var j, k := |s.roots| - |t.roots|, |t.roots| - |u.roots|;
      if k == 0 {
        LowerPartTwice(s.roots[j], t.roots[0], u.roots[0]);
      } else {
        assert t.roots[k] == t.roots[1..][k - 1] == s.roots[j + k];
        assert u.roots[1..] == t.roots[1..][k..] == s.roots[j + k + 1..];
      }
    }
  }

  lemma {:induction false} NextOperationComesDown(cfg: Config, s: State)
    ensures s.mode != NoOperation ==> CameDown(s, NextOperation(cfg, s))
    decreases |s.roots|, if s.roots == [] then 0 else |s.roots[0].dirsToVisit|
  {
    if s.mode != NoOperation && s.roots != [] {
      var root := s.roots[0];
      if root.dirsToVisit == [] {
        var t := s.(roots := s.roots[1..]);
        NextOperationComesDown(cfg, t);
        EmptyRootIsDropped(s, NextOperation(cfg, t));
      } else {
        var d := root.dirsToVisit[0];
        if IsMarker(s.mode, d) {
          var t := s.(roots := s.roots[0 := root.(dirsToVisit := root.dirsToVisit[1..])],
                      out := s.out + [RemoveDirCmd(d.parent, d.subdir)]);
          NextOperationComesDown(cfg, t);
          assert LowerPart(s.roots[0], t.roots[0]);
          assert CameDown(s, t);
          CameDownTwice(s, t, NextOperation(cfg, t));
        } else {
          assert LowerPart(root, root);
        }
      }
    }
  }

  lemma EmptyRootIsDropped(s: State, u: State)
    requires s.roots != [] && s.mode != NoOperation
    requires CameDown(s.(roots := s.roots[1..]), u)
    ensures CameDown(s, u)
  {
    var t := s.(roots := s.roots[1..]);
    if u.mode != NoOperation {
      var k := |t.roots| - |u.roots|;
      assert t.roots[k] == s.roots[k + 1];
      assert t.roots[k + 1..] == s.roots[k + 2..];
    }
  }

  // ---- Termination ----

  /** A directory asked for the first time weighs more than a retried one, and that more than a removal. */
  function Weight(dirs: seq<NewDir>): nat {
    if dirs == [] then 0
    else (if !dirs[0].doVisit then 1 else if dirs[0].secondTry then 2 else 3) + Weight(dirs[1..])
  }

  lemma {:induction false} WeightAppend(a: seq<NewDir>, b: seq<NewDir>)
    ensures Weight(a + b) == Weight(a) + Weight(b)
  {
    if a == [] {
      assert a + b == b;
    } else {
      assert (a + b)[1..] == a[1..] + b;
      WeightAppend(a[1..], b);
    }
  }

  function Unvisited(s: State, universe: set<ServerPath>): nat {
    if s.roots == [] then 0 else |universe - s.roots[0].visited|
  }

  function Load(s: State): nat {
    if s.roots == [] then 0 else Weight(s.roots[0].dirsToVisit)
  }

  /** Fewer roots, or fewer paths left to visit, or a lighter stack. */
  predicate Smaller(t: State, s: State, universe: set<ServerPath>) {
    || |t.roots| < |s.roots|
    || (|t.roots| == |s.roots| && Unvisited(t, universe) < Unvisited(s, universe))
    || (|t.roots| == |s.roots| && Unvisited(t, universe) == Unvisited(s, universe) && Load(t) < Load(s))
  }

  /** The measure cannot grow on the way down. */
  lemma NextOperationIsNotLarger(cfg: Config, s: State, universe: set<ServerPath>)
    requires s.mode != NoOperation
    ensures
      var t := NextOperation(cfg, s);
      || t.mode == NoOperation
      || |t.roots| < |s.roots|
      || (|t.roots| == |s.roots| && Unvisited(t, universe) == Unvisited(s, universe) && Load(t) <= Load(s))
  {
    NextOperationComesDown(cfg, s);
    var t := NextOperation(cfg, s);
    hide NextOperation;
    if t.mode != NoOperation {
      if |t.roots| == |s.roots| {
        var dirs := s.roots[0].dirsToVisit;
        var n := |dirs| - |t.roots[0].dirsToVisit|;
        assert dirs == dirs[..n] + dirs[n..];
        WeightAppend(dirs[..n], dirs[n..]);
      }
    }
  }

  /** A listing that failed is only announced, the failure itself is to follow. */
  predicate Announces(r: Reply) {
    r.Listed? && r.listing.failed
  }

  /** `universe`: the keys of finitely many paths. */
  predicate NamesKnown(r: Reply, universe: set<ServerPath>) {
    r.Listed? && !r.listing.failed ==> Key(r.listing.path) in universe
  }

  /** Only the removal of a directory is on the stack without being visited. */
  predicate Sound(mode: Mode, dirs: seq<NewDir>) {
    forall k :: 0 <= k < |dirs| ==> dirs[k].doVisit || IsMarker(mode, dirs[k])
  }

  predicate AllSound(s: State) {
    forall k :: 0 <= k < |s.roots| ==> Sound(s.mode, s.roots[k].dirsToVisit)
  }

  /** The state before `NextOperation`: the front directory was replaced by something lighter, or a new path visited. */
  function Replaced(cfg: Config, s: State, r: Reply): State
    requires s.roots != [] && s.roots[0].dirsToVisit != []
  {
    match r
    case Listed(l) => AfterListing(cfg, s, l)
    case ListFailed(_, critical) => AfterFailure(s.(failed := true), critical)
    case LinkIsNotDir(connected) => AfterLink(s, connected)
    case ListedNothing => s
  }

  lemma HandleReplaces(cfg: Config, s: State, r: Reply)
    requires s.mode != NoOperation && s.roots != [] && s.roots[0].dirsToVisit != []
    ensures
      || Handle(cfg, s, r) == Stopped(s.(failed := s.failed || r.ListFailed?))
      || (r.Listed? && r.listing.failed && Handle(cfg, s, r) == s)
      || (!r.ListedNothing? && Handle(cfg, s, r) == NextOperation(cfg, Replaced(cfg, s, r)))
  {
    hide NextOperation;
  }

  lemma ReplacedIsSmaller(cfg: Config, s: State, r: Reply, universe: set<ServerPath>)
    requires s.roots != [] && s.roots[0].dirsToVisit != [] && s.roots[0].dirsToVisit[0].doVisit
    requires NamesKnown(r, universe) && !Announces(r) && !r.ListedNothing?
    ensures Smaller(Replaced(cfg, s, r), s, universe) && |Replaced(cfg, s, r).roots| == |s.roots|
  {
    hide Children, DirectoryOutputs, FileCount;
    var root := s.roots[0];
    var d, rest := root.dirsToVisit[0], root.dirsToVisit[1..];
    match r
    case Listed(l) =>
      if Enters(root, d, l) {
        assert Key(l.path) in universe - root.visited;
        assert universe - (root.visited + {Key(l.path)}) == universe - root.visited - {Key(l.path)};
      } else {
        hide Below, Enters;
        WeightAppend(Marker(s.mode, Rooted(root, d, l.path)), rest);
      }
    case ListFailed(_, critical) =>
      WeightAppend([d.(secondTry := true)], rest);
      WeightAppend(Marker(s.mode, d), rest);
    case LinkIsNotDir(connected) =>
  }

  lemma ReplacedIsSound(cfg: Config, s: State, r: Reply)
    requires s.mode != NoOperation && s.roots != [] && s.roots[0].dirsToVisit != [] && AllSound(s)
    ensures AllSound(Replaced(cfg, s, r))
  {
    hide Children, DirectoryOutputs, FileCount, Below, Enters;
    var root, t := s.roots[0], Replaced(cfg, s, r);
    var d := root.dirsToVisit[0];
    assert Sound(s.mode, root.dirsToVisit);
    assert Sound(s.mode, root.dirsToVisit[1..]);
    if r.Listed? {
      d := Rooted(root, d, r.listing.path);
      ChildrenAreSound(cfg, s.mode, d, r.listing.path, r.listing.entries);
    }
    assert Sound(s.mode, Marker(s.mode, d));
    assert Sound(s.mode, t.roots[0].dirsToVisit);
    hide Sound, Replaced;
    assert t.mode == s.mode && t.roots[1..] == s.roots[1..];
    assert forall k :: 0 < k < |t.roots| ==> t.roots[k] == s.roots[k];
  }

  lemma {:induction false} ChildrenAreSound(cfg: Config, mode: Mode, d: NewDir, path: ServerPath, entries: seq<DirEntry>)
    ensures Sound(mode, Children(cfg, mode, d, path, entries))
    ensures forall k :: 0 <= k < |Children(cfg, mode, d, path, entries)| ==> Children(cfg, mode, d, path, entries)[k].startDir == d.startDir
  {
    if entries != [] {
      ChildrenAreSound(cfg, mode, d, path, entries[1..]);
    }
  }

  lemma NextOperationIsSound(cfg: Config, s: State)
    requires s.mode != NoOperation && AllSound(s)
    ensures NextOperation(cfg, s).mode != NoOperation ==> AllSound(NextOperation(cfg, s))
  {
    NextOperationComesDown(cfg, s);
    var t := NextOperation(cfg, s);
    hide NextOperation;
    if t.mode != NoOperation {
      var k := |s.roots| - |t.roots|;
      assert Sound(s.mode, s.roots[k].dirsToVisit);
      assert Sound(t.mode, t.roots[0].dirsToVisit);
      hide Sound;
      assert forall j :: 0 < j < |t.roots| ==> t.roots[j] == t.roots[1..][j - 1] == s.roots[k + j];
    }
  }

  /** An announcement changes nothing; every other reply ends the operation or brings it closer to its end. */
  lemma HandleMakesSmaller(cfg: Config, s: State, r: Reply, universe: set<ServerPath>)
    requires Waiting(s) && s.mode != NoOperation && AllSound(s) && NamesKnown(r, universe)
    ensures
      var t := Handle(cfg, s, r);
      if Announces(r) then t == s else t.mode == NoOperation || (Smaller(t, s, universe) && AllSound(t))
  {
    var u := Replaced(cfg, s, r);
    HandleReplaces(cfg, s, r);
    hide NextOperation, Handle;
    assert s.roots[0].dirsToVisit[0].doVisit;
    if Handle(cfg, s, r) == NextOperation(cfg, u) && !r.ListedNothing? && !Announces(r) {
      ReplacedIsSmaller(cfg, s, r, universe);
      ReplacedIsSound(cfg, s, r);
      assert u.mode == s.mode;
      hide Replaced, AllSound;
      NextOperationIsNotLarger(cfg, u, universe);
      NextOperationIsSound(cfg, u);
    }
  }

  type Server = nat -> Reply

  function Replies(server: Server, from: nat, n: nat): seq<Reply> {
    seq(n, i requires 0 <= i < n => server(from + i))
  }

  lemma RunOnReplies(cfg: Config, s: State, server: Server, from: nat, n: nat)
    ensures Run(cfg, s, Replies(server, from, 0)) == s
    ensures Run(cfg, s, Replies(server, from, n + 1)) == Run(cfg, Handle(cfg, s, server(from)), Replies(server, from + 1, n))
  {
    hide Handle;
    var all := Replies(server, from, n + 1);
    assert all[0] == server(from) && all[1..] == Replies(server, from + 1, n);
  }

  ghost predicate AllKnown(server: Server, universe: set<ServerPath>) {
    forall i: nat :: NamesKnown(server(i), universe)
  }

  /** At or after every reply `i` comes one that announces no failure, `next(i)`. */
  ghost predicate Recovers(server: Server, next: nat -> nat) {
    forall i: nat :: next(i) >= i && !Announces(server(next(i)))
  }

  /**
   Whatever a server replies, the operation ends, as long as the listings name paths of a finite set and the
   server does not announce failures for ever.
   */
  lemma EveryRunEnds(cfg: Config, s: State, server: Server, next: nat -> nat, universe: set<ServerPath>) returns (n: nat)
    requires Waiting(s) && AllSound(s)
    requires AllKnown(server, universe) && Recovers(server, next)
    ensures Run(cfg, s, Replies(server, 0, n)).mode == NoOperation
  {
    n := RunFromEnds(cfg, s, server, next, universe, 0, next(0));
  }

  lemma ReplyMakesSmaller(cfg: Config, s: State, server: Server, next: nat -> nat, universe: set<ServerPath>, from: nat)
    requires Waiting(s) && AllSound(s) && s.mode != NoOperation && AllKnown(server, universe) && Recovers(server, next)
    ensures
      var t := Handle(cfg, s, server(from));
      && Waiting(t)
      && if Announces(server(from)) then t == s else t.mode == NoOperation || (Smaller(t, s, universe) && AllSound(t))
    ensures next(from + 1) >= from + 1 && !Announces(server(next(from + 1)))
  {
    HandleWaits(cfg, s, server(from));
    assert NamesKnown(server(from), universe);
    HandleMakesSmaller(cfg, s, server(from), universe);
    hide Handle, AllSound, Waiting, Announces;
  }

  /** `k`: the reply that is known to be no announcement. */
  lemma {:induction false} RunFromEnds(
      cfg: Config, s: State, server: Server, next: nat -> nat, universe: set<ServerPath>, from: nat, k: nat) returns (n: nat)
    requires Waiting(s) && AllSound(s) && from <= k && !Announces(server(k))
    requires AllKnown(server, universe) && Recovers(server, next)
    ensures Run(cfg, s, Replies(server, from, n)).mode == NoOperation
    decreases s.mode != NoOperation, |s.roots|, Unvisited(s, universe), Load(s), k - from
  {
    hide Run, Replies, AllSound, Waiting, Announces, AllKnown, Recovers, Unvisited, Load;
    if s.mode == NoOperation {
      n := 0;
      RunOnReplies(cfg, s, server, from, 0);
    } else {
      var t := Handle(cfg, s, server(from));
      ReplyMakesSmaller(cfg, s, server, next, universe, from);
      hide Handle;
      var m := 0;
      if t.mode == NoOperation {
        RunOnReplies(cfg, t, server, from + 1, 0);
      } else if Announces(server(from)) {
        m := RunFromEnds(cfg, s, server, next, universe, from + 1, k);
      } else {
        m := RunFromEnds(cfg, t, server, next, universe, from + 1, next(from + 1));
      }
      n := m + 1;
      RunOnReplies(cfg, s, server, from, m);
    }
  }

  /** If the server never stops announcing failures, nothing happens any more. */
  lemma {:induction false} AnnouncementsAreIgnored(cfg: Config, s: State, replies: seq<Reply>)
    requires forall i :: 0 <= i < |replies| ==> Announces(replies[i])
    ensures Run(cfg, s, replies) == s
    decreases |replies|
  {
    if replies != [] {
      assert Announces(replies[0]);
      AnnouncementsAreIgnored(cfg, s, replies[1..]);
    }
  }

  // ---- Containment ----

  /** A path in the tree of the root, or in that of a link target the user asked for. */
  ghost predicate Allowed(root: Root, path: ServerPath, targets: set<ServerPath>) {
    || IsSubdirOf(path, root.startDir)
    || (path == root.startDir && root.allowParent)
    || exists t :: t in targets && (path == t || IsSubdirOf(path, t))
  }

  /** The listing path that a reply turns into a start of its own. */
  function NewTargets(s: State, r: Reply): set<ServerPath> {
    if s.roots != [] && s.roots[0].dirsToVisit != [] && r.Listed? && IsLinkTarget(s.roots[0], s.roots[0].dirsToVisit[0], r.listing.path)
    then {r.listing.path} else {}
  }

  function Targets(cfg: Config, s: State, replies: seq<Reply>): set<ServerPath>
    decreases |replies|
  {
    if replies == [] then {} else NewTargets(s, replies[0]) + Targets(cfg, Handle(cfg, s, replies[0]), replies[1..])
  }

  predicate StartsIn(dirs: seq<NewDir>, targets: set<ServerPath>) {
    forall k :: 0 <= k < |dirs| ==> dirs[k].startDir.Empty() || dirs[k].startDir in targets
  }

  /** The roots left are the last of those given, and what they have to visit starts at a known place. */
  ghost predicate Placed(s: State, given: seq<Root>, targets: set<ServerPath>) {
    && |s.roots| <= |given|
    && forall k :: 0 <= k < |s.roots| ==>
         var g := given[|given| - |s.roots| + k];
         && s.roots[k].startDir == g.startDir && s.roots[k].allowParent == g.allowParent
         && StartsIn(s.roots[k].dirsToVisit, targets)
  }

  /** Every directory that was processed for a root was allowed there. */
  ghost predicate EndsAllowed(out: seq<Output>, given: seq<Root>, targets: set<ServerPath>) {
    forall i :: 0 <= i < |out| && IsEnd(out[i]) ==>
      0 < out[i].rootsLeft <= |given| && Allowed(given[|given| - out[i].rootsLeft], out[i].path, targets)
  }

  /** No directory was processed twice for the same root, nor two that the ordered set cannot tell apart. */
  ghost predicate EndsDistinct(out: seq<Output>) {
    forall i, j :: 0 <= i < j < |out| && IsEnd(out[i]) && IsEnd(out[j]) ==>
      out[i].rootsLeft != out[j].rootsLeft || Key(out[i].path) != Key(out[j].path)
  }

  /** What was processed for the current root is in its visited set, everything else belongs to earlier roots. */
  ghost predicate EndsVisited(s: State) {
    forall i :: 0 <= i < |s.out| && IsEnd(s.out[i]) ==>
      |s.roots| <= s.out[i].rootsLeft && (s.roots != [] && s.out[i].rootsLeft == |s.roots| ==> Key(s.out[i].path) in s.roots[0].visited)
  }

  ghost predicate Confined(s: State, given: seq<Root>, targets: set<ServerPath>) {
    && EndsAllowed(s.out, given, targets) && EndsDistinct(s.out)
    && (s.mode != NoOperation ==> Placed(s, given, targets) && EndsVisited(s))
  }

  lemma AllowedMore(root: Root, path: ServerPath, targets: set<ServerPath>, more: set<ServerPath>)
    requires targets <= more && Allowed(root, path, targets)
    ensures Allowed(root, path, more)
  {
  }

  lemma ConfinedMore(s: State, given: seq<Root>, targets: set<ServerPath>, more: set<ServerPath>)
    requires targets <= more && Confined(s, given, targets)
    ensures Confined(s, given, more)
  {
    forall i | 0 <= i < |s.out| && IsEnd(s.out[i])
      ensures Allowed(given[|given| - s.out[i].rootsLeft], s.out[i].path, more)
    {
      AllowedMore(given[|given| - s.out[i].rootsLeft], s.out[i].path, targets, more);
    }
  }

  /** Outputs that process no directory change nothing. */
  lemma EndsKept(out: seq<Output>, out': seq<Output>, given: seq<Root>, targets: set<ServerPath>)
    requires out <= out' && NoEnds(out'[|out|..])
    ensures EndsAllowed(out, given, targets) ==> EndsAllowed(out', given, targets)
    ensures EndsDistinct(out) ==> EndsDistinct(out')
    ensures forall i :: 0 <= i < |out'| && IsEnd(out'[i]) ==> i < |out| && out[i] == out'[i]
  {
    hide Allowed;
    forall i | |out| <= i < |out'|
      ensures !IsEnd(out'[i])
    {
      assert out'[|out|..][i - |out|] == out'[i];
    }
  }

  lemma NextOperationConfined(cfg: Config, s: State, given: seq<Root>, targets: set<ServerPath>)
    requires s.mode != NoOperation && Confined(s, given, targets)
    ensures Confined(NextOperation(cfg, s), given, targets)
  {
    NextOperationComesDown(cfg, s);
    var t := NextOperation(cfg, s);
    hide NextOperation, EndsAllowed, EndsDistinct;
    EndsKept(s.out, t.out, given, targets);
    if t.mode != NoOperation {
      var k := |s.roots| - |t.roots|;
      assert StartsIn(s.roots[k].dirsToVisit, targets);
      assert StartsIn(t.roots[0].dirsToVisit, targets);
      hide StartsIn;
      assert forall j :: 0 < j < |t.roots| ==> t.roots[j] == t.roots[1..][j - 1] == s.roots[k + j];
    }
  }

  /** Processing a listing itself issues no end but the last. */
  lemma {:induction false} EntriesProcessNothing(cfg: Config, mode: Mode, d: NewDir, path: ServerPath, entries: seq<DirEntry>)
    ensures NoEnds(Outputs(cfg, mode, d, path, entries))
  {
    if entries != [] {
      EntriesProcessNothing(cfg, mode, d, path, entries[1..]);
    }
  }

  lemma ProcessedIsAllowed(root: Root, given: Root, d: NewDir, l: Listing, targets: set<ServerPath>)
    requires root.startDir == given.startDir && root.allowParent == given.allowParent
    requires Below(root, d, l.path) && (d.startDir.Empty() || d.startDir in targets)
    ensures Allowed(given, l.path, targets + if IsLinkTarget(root, d, l.path) then {l.path} else {})
  {
    hide IsSubdirOf;
  }

  lemma StartsInChildren(cfg: Config, mode: Mode, d: NewDir, path: ServerPath, entries: seq<DirEntry>, rest: seq<NewDir>, targets: set<ServerPath>)
    requires (d.startDir.Empty() || d.startDir in targets) && StartsIn(rest, targets)
    ensures StartsIn(Children(cfg, mode, d, path, entries) + Marker(mode, d) + rest, targets)
    ensures StartsIn(Marker(mode, d) + rest, targets)
  {
    ChildrenAreSound(cfg, mode, d, path, entries);
  }

  /** Replacing the front directory of the stack by others that start at known places. */
  lemma PlacedReplaced(s: State, dirs: seq<NewDir>, visited: set<ServerPath>, given: seq<Root>, targets: set<ServerPath>, more: set<ServerPath>)
    requires s.roots != [] && Placed(s, given, targets) && targets <= more && StartsIn(dirs, more)
    ensures Placed(SetFront(s, s.roots[0].(dirsToVisit := dirs, visited := visited)), given, more)
  {
    var t := SetFront(s, s.roots[0].(dirsToVisit := dirs, visited := visited));
    forall k | 0 <= k < |s.roots| ensures StartsIn(t.roots[k].dirsToVisit, more) {
      if k > 0 {
        assert t.roots[k] == s.roots[k] && StartsIn(s.roots[k].dirsToVisit, targets);
      }
    }
  }

  lemma DirectoryOutputsEndOnce(cfg: Config, mode: Mode, d: NewDir, l: Listing, rootsLeft: nat) returns (init: seq<Output>)
    ensures DirectoryOutputs(cfg, mode, d, l, rootsLeft) == init + [DirListingEnd(rootsLeft, l.path)] && NoEnds(init)
  {
    var all := DirectoryOutputs(cfg, mode, d, l, rootsLeft);
    init := all[..|all| - 1];
    EntriesProcessNothing(cfg, mode, d, l.path, l.entries);
  }

  /** One more processed directory: allowed, and new for its root. */
  lemma OneMoreEnd(s: State, out: seq<Output>, path: ServerPath, given: seq<Root>, targets: set<ServerPath>)
    requires s.roots != [] && |s.roots| <= |given|
    requires EndsAllowed(s.out, given, targets) && EndsDistinct(s.out) && EndsVisited(s)
    requires s.out <= out && NoEnds(out[|s.out|..])
    requires Key(path) !in s.roots[0].visited && Allowed(given[|given| - |s.roots|], path, targets)
    ensures EndsAllowed(out + [DirListingEnd(|s.roots|, path)], given, targets)
    ensures EndsDistinct(out + [DirListingEnd(|s.roots|, path)])
    ensures EndsVisited(SetFront(s, s.roots[0].(visited := s.roots[0].visited + {Key(path)})).(out := out + [DirListingEnd(|s.roots|, path)]))
  {
    hide Allowed;
    EndsKept(s.out, out, given, targets);
  }

  lemma RestStartsIn(s: State, l: Listing, given: seq<Root>, targets: set<ServerPath>)
    requires s.roots != [] && s.roots[0].dirsToVisit != [] && Placed(s, given, targets)
    ensures
      var root, more := s.roots[0], targets + NewTargets(s, Listed(l));
      var d := Rooted(root, root.dirsToVisit[0], l.path);
      && StartsIn(root.dirsToVisit[1..], more) && (d.startDir.Empty() || d.startDir in more)
  {
    assert StartsIn(s.roots[0].dirsToVisit, targets);
    hide IsLinkTarget;
  }

  /** What a listing leaves of the front root. */
  lemma FrontAfterListing(cfg: Config, s: State, l: Listing) returns (dirs: seq<NewDir>, visited: set<ServerPath>)
    requires s.roots != [] && s.roots[0].dirsToVisit != []
    ensures AfterListing(cfg, s, l).roots == SetFront(s, s.roots[0].(dirsToVisit := dirs, visited := visited)).roots
    ensures
      var d, rest := Rooted(s.roots[0], s.roots[0].dirsToVisit[0], l.path), s.roots[0].dirsToVisit[1..];
      || dirs == rest || dirs == Marker(s.mode, d) + rest
      || dirs == Children(cfg, s.mode, d, l.path, l.entries) + Marker(s.mode, d) + rest
  {
    var front := AfterListing(cfg, s, l).roots[0];
    dirs, visited := front.dirsToVisit, front.visited;
    hide Children, Below, Enters, Rooted, DirectoryOutputs, FileCount, Marker;
  }

  lemma PlacedByRoots(s: State, t: State, given: seq<Root>, targets: set<ServerPath>)
    requires s.roots == t.roots
    ensures Placed(s, given, targets) <==> Placed(t, given, targets)
  {
    hide StartsIn;
  }

  /** A listing leaves the roots in place. */
  lemma ListingPlaced(cfg: Config, s: State, l: Listing, given: seq<Root>, targets: set<ServerPath>)
    requires s.roots != [] && s.roots[0].dirsToVisit != [] && Placed(s, given, targets)
    ensures Placed(AfterListing(cfg, s, l), given, targets + NewTargets(s, Listed(l)))
  {
    hide *;
    var root, more := s.roots[0], targets + NewTargets(s, Listed(l));
    var dirs, visited := FrontAfterListing(cfg, s, l);
    RestStartsIn(s, l, given, targets);
    StartsInChildren(cfg, s.mode, Rooted(root, root.dirsToVisit[0], l.path), l.path, l.entries, root.dirsToVisit[1..], more);
    PlacedReplaced(s, dirs, visited, given, targets, more);
    PlacedByRoots(AfterListing(cfg, s, l), SetFront(s, root.(dirsToVisit := dirs, visited := visited)), given, more);
  }

  lemma ListingConfined(cfg: Config, s: State, l: Listing, given: seq<Root>, targets: set<ServerPath>)
    requires s.mode != NoOperation && s.roots != [] && s.roots[0].dirsToVisit != []
    requires Confined(s, given, targets)
    ensures Confined(AfterListing(cfg, s, l), given, targets + NewTargets(s, Listed(l)))
  {
    var root, more := s.roots[0], targets + NewTargets(s, Listed(l));
    var d, d' := root.dirsToVisit[0], Rooted(root, root.dirsToVisit[0], l.path);
    ConfinedMore(s, given, targets, more);
    ListingPlaced(cfg, s, l, given, targets);
    if Enters(root, d, l) {
      assert d.startDir.Empty() || d.startDir in targets by {
        assert StartsIn(root.dirsToVisit, targets);
      }
      hide Children, StartsIn, EndsAllowed, EndsDistinct;
      ProcessedIsAllowed(root, given[|given| - |s.roots|], d, l, targets);
      var init := DirectoryOutputsEndOnce(cfg, s.mode, d', l, |s.roots|);
      assert s.out + (init + [DirListingEnd(|s.roots|, l.path)]) == s.out + init + [DirListingEnd(|s.roots|, l.path)];
      assert (s.out + init)[|s.out|..] == init;
      hide *;
      OneMoreEnd(s, s.out + init, l.path, given, more);
    }
  }

  lemma ReplacedConfined(cfg: Config, s: State, r: Reply, given: seq<Root>, targets: set<ServerPath>)
    requires s.mode != NoOperation && s.roots != [] && s.roots[0].dirsToVisit != []
    requires Confined(s, given, targets)
    ensures Confined(Replaced(cfg, s, r), given, targets + NewTargets(s, r))
    ensures Replaced(cfg, s, r).mode == s.mode
  {
    if r.Listed? {
      ListingConfined(cfg, s, r.listing, given, targets);
    } else {
      var root, t := s.roots[0], Replaced(cfg, s, r);
      var d := root.dirsToVisit[0];
      assert targets + {} == targets;
      assert StartsIn(root.dirsToVisit[1..], targets) && StartsIn(root.dirsToVisit[..1], targets);
      assert StartsIn(t.roots[0].dirsToVisit, targets);
      PlacedReplaced(s, t.roots[0].dirsToVisit, root.visited, given, targets, targets);
      hide Placed, StartsIn, EndsAllowed, EndsDistinct;
      if !r.ListedNothing? {
        assert NoEnds(t.out[|s.out|..]);
        EndsKept(s.out, t.out, given, targets);
        assert t == SetFront(s, root.(dirsToVisit := t.roots[0].dirsToVisit)).(out := t.out, failed := t.failed);
      }
    }
  }

  lemma HandleConfined(cfg: Config, s: State, r: Reply, given: seq<Root>, targets: set<ServerPath>)
    requires Waiting(s) && Confined(s, given, targets)
    ensures Confined(Handle(cfg, s, r), given, targets + NewTargets(s, r))
  {
    ConfinedMore(s, given, targets, targets + NewTargets(s, r));
    if s.mode != NoOperation {
      HandleReplaces(cfg, s, r);
      ReplacedConfined(cfg, s, r, given, targets);
      hide Handle, Replaced;
      NextOperationConfined(cfg, Replaced(cfg, s, r), given, targets + NewTargets(s, r));
    }
  }

  lemma {:induction false} RunConfined(cfg: Config, s: State, replies: seq<Reply>, given: seq<Root>, targets: set<ServerPath>)
    requires Waiting(s) && Confined(s, given, targets)
    ensures Confined(Run(cfg, s, replies), given, targets + Targets(cfg, s, replies))
    decreases |replies|
  {
    hide Handle, Confined, NewTargets;
    if replies == [] {
      assert targets + {} == targets;
    } else {
      var t, more := Handle(cfg, s, replies[0]), NewTargets(s, replies[0]);
      HandleWaits(cfg, s, replies[0]);
      HandleConfined(cfg, s, replies[0], given, targets);
      RunConfined(cfg, t, replies[1..], given, targets + more);
      var others := Targets(cfg, t, replies[1..]);
      assert targets + more + others == targets + (more + others);
    }
  }

  /** An operation as it is started: nothing processed yet, and no directory with a start of its own. */
  ghost predicate Fresh(s: State) {
    NoEnds(s.out) && forall k :: 0 <= k < |s.roots| ==> StartsIn(s.roots[k].dirsToVisit, {})
  }

  /**
   Containment.  Under any replies, every directory that is processed lies below the start directory of its root,
   is that directory if this was allowed, or lies at or below the target of a link the user gave; and no
   directory is processed twice for one root.
   */
  lemma EveryRunIsConfined(cfg: Config, s: State, replies: seq<Reply>)
    requires s.mode != NoOperation && Fresh(s)
    ensures
      var t := NextOperation(cfg, s);
      var out := Run(cfg, t, replies).out;
      EndsAllowed(out, s.roots, Targets(cfg, t, replies)) && EndsDistinct(out)
  {
    var t := NextOperation(cfg, s);
    assert Confined(s, s.roots, {});
    NextOperationConfined(cfg, s, s.roots, {});
    NextOperationWaits(cfg, s);
    hide NextOperation;
    RunConfined(cfg, t, replies, s.roots, {});
    assert {} + Targets(cfg, t, replies) == Targets(cfg, t, replies);
  }
}
