/**
 The recursive operation on a remote directory tree (src/commonui/remote_recursive_operation.cpp):
 an explicit stack of directories to list, driven by whatever the server replies.

 This module gives the operation as a function on states; RecursiveWalk.dfy relates it to a plain
 recursive walk, RecursionBounds.dfy proves that it ends and where it can go, and
 RecursiveOperation.dfy is the object with its mutable fields.
 */
module RemoteRecursion {
  import opened Options
  import opened ServerPaths

  datatype Mode = NoOperation | Transfer | TransferFlatten | Delete | Chmod | ListOnly

  /** A local directory as its list of segments. */
  type LocalDir = seq<string>

  datatype DirEntry = DirEntry(name: string, isDir: bool, isLink: bool, size: int)

  datatype Listing = Listing(path: ServerPath, entries: seq<DirEntry>, failed: bool)

  /** `link`: 0 is no link, 1 a link met on the way, 2 a link given by the user. */
  datatype NewDir = NewDir(
    parent: ServerPath,
    subdir: string,
    localDir: LocalDir,
    restricted: Option<string>,
    startDir: ServerPath,
    link: nat,
    doVisit: bool,
    recurse: bool,
    secondTry: bool)

  /** The front of `dirsToVisit` is its first element.  `visited` holds the keys of the paths in the ordered set. */
  datatype Root = Root(startDir: ServerPath, visited: set<ServerPath>, dirsToVisit: seq<NewDir>, allowParent: bool)

  /** Everything the operation asks of the outside, in order. */
  datatype Output =
    | ListCmd(parent: ServerPath, subdir: string, refresh: bool, isLink: bool)
    | RemoveDirCmd(parent: ServerPath, subdir: string)
    | DeleteCmd(path: ServerPath, files: seq<string>)
    | ChmodCmd(path: ServerPath, name: string, permissions: string)
    | HandleFile(name: string, localDir: LocalDir, path: ServerPath, size: int)
    | HandleEmptyDirectory(localDir: LocalDir)
    | HandleInvalidLink(name: string, localDir: LocalDir, path: ServerPath)
    | DirListingEnd(rootsLeft: nat, path: ServerPath) // the arguments only say which directory was processed
    | NoteListingFailed
    | OperationFinished

  /** The parts that come from elsewhere: name filters, file name sanitising, permissions to set. */
  datatype Config = Config(
    refresh: bool,
    filtered: (DirEntry, ServerPath) -> bool,
    sanitize: string -> string,
    permissions: DirEntry -> Option<string>)

  datatype State = State(
    mode: Mode,
    roots: seq<Root>,
    failed: bool,
    processedFiles: nat,
    processedDirectories: nat,
    out: seq<Output>)

  datatype Reply =
    | Listed(listing: Listing)
    | ListedNothing                             // a null listing
    | ListFailed(canceled: bool, critical: bool) // the two error bits that matter
    | LinkIsNotDir(connected: bool)

  // ---- Small steps ----

  function Stopped(s: State): State {
    s.(mode := NoOperation, roots := [])
  }

  /** A directory that was listed, or failed for good, is itself deleted once its contents are gone. */
  predicate DeletedAfterwards(mode: Mode, d: NewDir) {
    mode == Delete && d.doVisit && d.recurse && d.subdir != ""
  }

  predicate IsMarker(mode: Mode, d: NewDir) {
    mode == Delete && !d.doVisit && d.recurse
  }

  function Marker(mode: Mode, d: NewDir): seq<NewDir> {
    if DeletedAfterwards(mode, d) then [d.(doVisit := false)] else []
  }

  function ListCommand(cfg: Config, d: NewDir): Output {
    ListCmd(d.parent, d.subdir, cfg.refresh, d.link > 0)
  }

  /** `NextOperation`: delete what is due, drop finished roots, and ask for the next listing. */
  function NextOperation(cfg: Config, s: State): State
    decreases |s.roots|, if s.roots == [] then 0 else |s.roots[0].dirsToVisit|
  {
    if s.mode == NoOperation then s
    else if s.roots == [] then Stopped(s).(out := s.out + [OperationFinished])
    else
      var root := s.roots[0];
      if root.dirsToVisit == [] then NextOperation(cfg, s.(roots := s.roots[1..]))
      else
        var d := root.dirsToVisit[0];
        if IsMarker(s.mode, d) then
          NextOperation(cfg, s.(roots := s.roots[0 := root.(dirsToVisit := root.dirsToVisit[1..])],
                                out := s.out + [RemoveDirCmd(d.parent, d.subdir)]))
        else s.(out := s.out + [ListCommand(cfg, d)])
  }

  /** `BelowRecursionRoot`: whether a listing at `path` belongs to the operation, ... */
  predicate Below(root: Root, d: NewDir, path: ServerPath) {
    if !d.startDir.Empty() then IsSubdirOf(path, d.startDir)
    else IsSubdirOf(path, root.startDir) || (path == root.startDir && root.allowParent) || d.link == 2
  }

  /** ... and whether it does so as the target of a link the user gave, which then becomes a start of its own. */
  predicate IsLinkTarget(root: Root, d: NewDir, path: ServerPath) {
    d.startDir.Empty() && !IsSubdirOf(path, root.startDir) && !(path == root.startDir && root.allowParent) && d.link == 2
  }

  function Rooted(root: Root, d: NewDir, path: ServerPath): NewDir {
    if IsLinkTarget(root, d, path) then d.(startDir := path) else d
  }

  // ---- The entries of one listing ----

  predicate Kept(cfg: Config, d: NewDir, path: ServerPath, e: DirEntry) {
    if d.restricted.Some? then e.name == d.restricted.value else !cfg.filtered(e, path)
  }

  /** Links to directories are plain files to a deletion. */
  predicate IsTreated(mode: Mode, e: DirEntry) {
    e.isDir && (!e.isLink || mode != Delete)
  }

  function AddSegment(dir: LocalDir, name: string): LocalDir {
    if name == "" then dir else dir + [name]
  }

  function Child(cfg: Config, mode: Mode, d: NewDir, path: ServerPath, e: DirEntry): NewDir {
    NewDir(path, e.name,
           if mode == Transfer then AddSegment(d.localDir, cfg.sanitize(e.name)) else d.localDir,
           None, d.startDir, if e.isLink then 1 else 0, true, !e.isLink, false)
  }

  /** The subdirectories to visit, in the order of the listing. */
  function Children(cfg: Config, mode: Mode, d: NewDir, path: ServerPath, entries: seq<DirEntry>): seq<NewDir> {
    if entries == [] then []
    else
      var e := entries[0];
      (if d.recurse && Kept(cfg, d, path, e) && IsTreated(mode, e) then [Child(cfg, mode, d, path, e)] else []) +
      Children(cfg, mode, d, path, entries[1..])
  }

  /** What a single entry causes at once. */
  function EntryOutputs(cfg: Config, mode: Mode, d: NewDir, path: ServerPath, e: DirEntry): seq<Output> {
    if !Kept(cfg, d, path, e) then [] else
      (if !IsTreated(mode, e) && (mode == Transfer || mode == TransferFlatten)
       then [HandleFile(e.name, d.localDir, path, e.size)] else []) +
      (if mode == Chmod && cfg.permissions(e).Some?
       then [ChmodCmd(path, e.name, cfg.permissions(e).value)] else [])
  }

  /** The entries are gone through from the last to the first. */
  function Outputs(cfg: Config, mode: Mode, d: NewDir, path: ServerPath, entries: seq<DirEntry>): seq<Output> {
    if entries == [] then []
    else Outputs(cfg, mode, d, path, entries[1..]) + EntryOutputs(cfg, mode, d, path, entries[0])
  }

  function FilesToDelete(cfg: Config, mode: Mode, d: NewDir, path: ServerPath, entries: seq<DirEntry>): seq<string> {
    if entries == [] then []
    else
      FilesToDelete(cfg, mode, d, path, entries[1..]) +
      if mode == Delete && Kept(cfg, d, path, entries[0]) && !IsTreated(mode, entries[0]) then [entries[0].name] else []
  }

  function FileCount(cfg: Config, d: NewDir, path: ServerPath, entries: seq<DirEntry>): nat {
    if entries == [] then 0
    else FileCount(cfg, d, path, entries[1..]) + if Kept(cfg, d, path, entries[0]) && !entries[0].isDir then 1 else 0
  }

  /** All outputs of processing one directory, up to the next operation. */
  function DirectoryOutputs(cfg: Config, mode: Mode, d: NewDir, l: Listing, rootsLeft: nat): seq<Output> {
    (if l.entries == [] && mode == Transfer then [HandleEmptyDirectory(d.localDir)]
     else
       var files := FilesToDelete(cfg, mode, d, l.path, l.entries);
       Outputs(cfg, mode, d, l.path, l.entries) + if files == [] then [] else [DeleteCmd(l.path, files)]) +
    [DirListingEnd(rootsLeft, l.path)]
  }

  // ---- The callbacks ----

  function SetFront(s: State, root: Root): State
    requires s.roots != []
  {
    s.(roots := s.roots[0 := root])
  }

  /** Whether a listing makes the operation go through the entries of its directory. */
  predicate Enters(root: Root, d: NewDir, l: Listing) {
    Below(root, d, l.path) && !(d.link > 0 && !d.recurse) && Key(l.path) !in root.visited
  }

  /** The stack of a root does not matter for what a listing means to it. */
  lemma SameRoot(root: Root, root': Root, d: NewDir, l: Listing)
    requires root' == root.(dirsToVisit := root'.dirsToVisit)
    ensures Below(root, d, l.path) == Below(root', d, l.path)
    ensures Enters(root, d, l) == Enters(root', d, l)
    ensures Rooted(root, d, l.path) == Rooted(root', d, l.path)
  {
  }

  /** `ProcessDirectoryListing`, up to the next operation. */
  function AfterListing(cfg: Config, s: State, l: Listing): State
    requires s.roots != [] && s.roots[0].dirsToVisit != []
  {
    var root := s.roots[0];
    var d := Rooted(root, root.dirsToVisit[0], l.path);
    var rest := root.dirsToVisit[1..];
    if !Below(root, root.dirsToVisit[0], l.path) then SetFront(s, root.(dirsToVisit := rest))
    else if !Enters(root, root.dirsToVisit[0], l) then SetFront(s, root.(dirsToVisit := Marker(s.mode, d) + rest))
    else
      var empty := l.entries == [] && s.mode == Transfer;
      SetFront(s, root.(dirsToVisit := Children(cfg, s.mode, d, l.path, l.entries) + Marker(s.mode, d) + rest,
                        visited := root.visited + {Key(l.path)}))
      .(processedFiles := s.processedFiles + FileCount(cfg, d, l.path, l.entries),
        processedDirectories := s.processedDirectories + 1,
        out := s.out + DirectoryOutputs(cfg, s.mode, d, l, |s.roots|))
  }

  /** `ListingFailed`, up to the next operation: one retry unless the error is critical. */
  function AfterFailure(s: State, critical: bool): State
    requires s.roots != [] && s.roots[0].dirsToVisit != []
  {
    var root := s.roots[0];
    var d, rest := root.dirsToVisit[0], root.dirsToVisit[1..];
    if !critical && !d.secondTry then SetFront(s, root.(dirsToVisit := [d.(secondTry := true)] + rest))
    else
      SetFront(s, root.(dirsToVisit := Marker(s.mode, d) + rest))
      .(out := s.out + if s.mode == ListOnly then [NoteListingFailed] else [])
  }

  function LinkOutputs(mode: Mode, d: NewDir): seq<Output> {
    if mode == Delete then
      if d.subdir == "" then [] else [DeleteCmd(d.parent, [d.subdir])]
    else if mode == ListOnly then []
    else
      var n := |d.localDir|;
      [HandleInvalidLink(d.subdir, if mode == TransferFlatten || n == 0 then d.localDir else d.localDir[..n - 1], d.parent)]
  }

  /** `LinkIsNotDir`, up to the next operation. */
  function AfterLink(s: State, connected: bool): State
    requires s.roots != [] && s.roots[0].dirsToVisit != []
  {
    var root := s.roots[0];
    SetFront(s, root.(dirsToVisit := root.dirsToVisit[1..]))
    .(out := s.out + if connected then LinkOutputs(s.mode, root.dirsToVisit[0]) else [])
  }

  /** One reply of the server. */
  function Handle(cfg: Config, s0: State, r: Reply): State {
    var s := if r.ListFailed? then s0.(failed := true) else s0;
    if r.ListedNothing? then Stopped(s)
    else if s.mode == NoOperation || s.roots == [] then s
    else if r.Listed? && r.listing.failed then s
    else if r.ListFailed? && r.canceled then Stopped(s)
    else if s.roots[0].dirsToVisit == [] then Stopped(s)
    else NextOperation(cfg,
           match r
           case Listed(l) => AfterListing(cfg, s, l)
           case ListFailed(_, critical) => AfterFailure(s, critical)
           case LinkIsNotDir(connected) => AfterLink(s, connected)
           case ListedNothing => s)
  }

  function Run(cfg: Config, s: State, replies: seq<Reply>): State
    decreases |replies|
  {
    if replies == [] then s else Run(cfg, Handle(cfg, s, replies[0]), replies[1..])
  }

  /** Between two replies the operation is over, or waits for the listing of the front directory. */
  predicate Waiting(s: State) {
    s.mode != NoOperation ==> s.roots != [] && s.roots[0].dirsToVisit != [] && !IsMarker(s.mode, s.roots[0].dirsToVisit[0])
  }

  lemma {:induction false} NextOperationWaits(cfg: Config, s: State)
    ensures Waiting(NextOperation(cfg, s))
    decreases |s.roots|, if s.roots == [] then 0 else |s.roots[0].dirsToVisit|
  {
    if s.mode != NoOperation && s.roots != [] {
      var root := s.roots[0];
      if root.dirsToVisit == [] {
        NextOperationWaits(cfg, s.(roots := s.roots[1..]));
      } else if IsMarker(s.mode, root.dirsToVisit[0]) {
        var d := root.dirsToVisit[0];
        NextOperationWaits(cfg, s.(roots := s.roots[0 := root.(dirsToVisit := root.dirsToVisit[1..])],
                                   out := s.out + [RemoveDirCmd(d.parent, d.subdir)]));
      }
    }
  }

  lemma HandleWaits(cfg: Config, s: State, r: Reply)
    requires Waiting(s)
    ensures Waiting(Handle(cfg, s, r))
  {
    forall t: State {
      NextOperationWaits(cfg, t);
    }
  }
}
