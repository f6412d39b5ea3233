/**
 Changes of a remote path by a text that ends in a file name (`ChangePath` with `isFile` in
 src/engine/serverpath.cpp), for every server type: what is split off, and how that agrees with taking the whole
 text for a directory.
 */
module PathFiles {
  import opened Options
  import opened ServerPaths
  import opened PathFormats

  datatype FileAt = FileAt(path: PathData, file: string)

  /** The position behind the last separator, or 0. */
  function BehindLastSep(t: ServerType, s: string): (r: nat)
    ensures r <= |s| && (r > 0 ==> IsSep(t, s[r - 1])) && forall k :: r <= k < |s| ==> !IsSep(t, s[k])
  {
    if s == "" then 0 else if IsSep(t, s[|s| - 1]) then |s| else BehindLastSep(t, s[..|s| - 1])
  }

  function FileName(t: ServerType, s: string): string {
    s[BehindLastSep(t, s)..]
  }

  function EndFile(t: ServerType, prefix: Option<string>, segments: Option<seq<string>>, file: string): Option<FileAt> {
    var data := Finish(t, prefix, segments);
    if data.None? || IsDots(t, file) then None else Some(FileAt(data.value, file))
  }

  /** `ExtractFile`, and the segments of what is before the file. */
  function SplitFile(t: ServerType, prefix: Option<string>, dir: string, segments: seq<string>): Option<FileAt> {
    if dir != "" && IsSep(t, Last(dir)) then None
    else EndFile(t, prefix, Segmentized(t, dir[..BehindLastSep(t, dir)], segments), FileName(t, dir))
  }

  function FileVms(data: Option<PathData>, dir: string): Option<FileAt> {
    var open, close := Find(dir, '['), FindLast(dir, ']');
    if open == |dir| then
      if close > 0 || data.None? then None else EndFile(VMS, data.value.prefix, Some(data.value.segments), dir)
    else if close == 0 || close - 1 <= open + 1 || close == |dir| then None
    else
      EndFile(VMS, if open > 0 then Some(dir[..open]) else PrefixOf(data), Segmentized(VMS, dir[open + 1..close - 1], []), dir[close..])
  }

  function FileDos(t: ServerType, data: Option<PathData>, dir: string): Option<FileAt>
    requires dir != ""
  {
    if IsAbsoluteDos(t, dir) then SplitFile(t, PrefixOf(data), dir, [])
    else if IsSep(t, dir[0]) then
      if SegmentsOf(data) == [] then None else SplitFile(t, PrefixOf(data), dir[1..], [SegmentsOf(data)[0]])
    else SplitFile(t, PrefixOf(data), dir, SegmentsOf(data))
  }

  function MvsText(dir: string): string {
    StripRight(StripLeft(dir, MVSQUOTE), MVSQUOTE)
  }

  predicate IsQuoted(dir: string) {
    MvsText(dir) != "" && MvsText(dir)[0] == '\''
  }

  /** Quoted on both sides, or on none and relative to a path. */
  predicate WellQuoted(data: Option<PathData>, dir: string) {
    var d := MvsText(dir);
    d != "" && if IsQuoted(dir) then Last(d) == '\'' else Last(d) != '\'' && data.Some?
  }

  /** The text between the quotes, and the segments it is added to. */
  function MvsBody(dir: string): string {
    var d := MvsText(dir);
    if !IsQuoted(dir) then d else if |d| == 1 then "" else d[1..|d| - 1]
  }

  function MvsStart(data: Option<PathData>, dir: string): seq<string> {
    if IsQuoted(dir) then [] else SegmentsOf(data)
  }

  function FileMvs(data: Option<PathData>, dir: string): Option<FileAt> {
    if WellQuoted(data, dir) then FileMvsInner(data, MvsBody(dir), MvsStart(data, dir)) else None
  }

  /** A data set, as opposed to a prefix of data sets. */
  predicate IsWhole(data: Option<PathData>) {
    data.Some? && data.value.prefix.None?
  }

  /** A member of a partitioned data set stands in parentheses. */
  function FileMvsInner(data: Option<PathData>, d: string, segments: seq<string>): Option<FileAt> {
    if d != "" && Last(d) == ')' then
      var open := Find(d, '(');
      if open == |d| || (IsWhole(data) && open > 0) then None
      else EndFile(MVS, None, Segmentized(MVS, d[..open], segments), d[open + 1..|d| - 1])
    else if IsWhole(data) && '.' in d then None
    else SplitFile(MVS, Some("."), d, segments)
  }

  function FileVxWorks(data: Option<PathData>, dir: string): Option<FileAt>
    requires dir != ""
  {
    if dir[0] != ':' then
      if data.None? then None else SplitFile(VXWORKS, PrefixOf(data), dir, SegmentsOf(data))
    else
      var colon := 1 + Find(dir[1..], ':');
      if colon == |dir| || colon == 1 then None
      else SplitFile(VXWORKS, Some(dir[..colon + 1]), dir[colon + 1..], [])
  }

  function FileCygwin(data: Option<PathData>, dir: string): Option<FileAt>
    requires dir != ""
  {
    if dir[0] == '/' then
      if |dir| > 1 && dir[1] == '/' then SplitFile(CYGWIN, Some("/"), dir[1..], []) else SplitFile(CYGWIN, None, dir, [])
    else if data.None? then None
    else SplitFile(CYGWIN, PrefixOf(data), dir, SegmentsOf(data))
  }

  function FileUnix(t: ServerType, data: Option<PathData>, dir: string): Option<FileAt>
    requires dir != ""
  {
    if IsSep(t, dir[0]) then SplitFile(t, PrefixOf(data), dir, [])
    else if data.None? then None
    else SplitFile(t, PrefixOf(data), dir, SegmentsOf(data))
  }

  /** `ChangePath` with `isFile`: the path and the file name left in the argument. */
  function ChangedFile(t: ServerType, data: Option<PathData>, dir: string): Option<FileAt> {
    if dir == "" then None
    else
      match t
      case VMS => FileVms(data, dir)
      case DOS => FileDos(t, data, dir)
      case DOS_FWD_SLASHES => FileDos(t, data, dir)
      case MVS => FileMvs(data, dir)
      case HPNONSTOP => SplitFile(HPNONSTOP, PrefixOf(data), dir, if dir[0] == '\\' then [] else SegmentsOf(data))
      case VXWORKS => FileVxWorks(data, dir)
      case CYGWIN => FileCygwin(data, dir)
      case _ => FileUnix(t, data, dir)
  }

  // ---- The path that is left is canonical ----

  ghost predicate FileIsCanonical(t: ServerType, r: Option<FileAt>) {
    r.Some? ==> Canonical(t, r.value.path)
  }

  lemma SplitIsCanonical(t: ServerType, data: Option<PathData>, dir: string, segments: seq<string>)
    requires t != MVS && CanonicalOrEmpty(t, data) && AreSegments(t, segments)
    requires data.None? ==> t != VXWORKS
    ensures FileIsCanonical(t, SplitFile(t, PrefixOf(data), dir, segments))
  {
    hide Segmentized, Canonical, AreSegments, BehindLastSep;
    KeepsPrefix(t, data, dir[..BehindLastSep(t, dir)], segments);
  }

  lemma NewPrefixIsCanonical(t: ServerType, prefix: Option<string>, dir: string, segments: seq<string>)
    requires AreSegments(t, segments)
    requires forall data: PathData :: data.prefix == prefix ==> IsPrefix(t, data)
    ensures FileIsCanonical(t, SplitFile(t, prefix, dir, segments))
  {
    hide Segmentized, Canonical, AreSegments, BehindLastSep, IsPrefix;
    FinishIsCanonical(t, prefix, dir[..BehindLastSep(t, dir)], segments);
  }

  lemma EndFileIsCanonical(t: ServerType, prefix: Option<string>, segments: Option<seq<string>>, file: string)
    requires CanonicalOrEmpty(t, Finish(t, prefix, segments))
    ensures FileIsCanonical(t, EndFile(t, prefix, segments, file))
  {
    hide Finish, Canonical;
  }

  lemma NoBracketIsCanonical(data: Option<PathData>, dir: string)
    requires CanonicalOrEmpty(VMS, data) && Find(dir, '[') == |dir|
    ensures FileIsCanonical(VMS, FileVms(data, dir))
  {
    hide Find, FindLast, Segmentized;
  }

  lemma FileVmsIsCanonical(data: Option<PathData>, dir: string)
    requires CanonicalOrEmpty(VMS, data)
    ensures FileIsCanonical(VMS, FileVms(data, dir))
  {
    var open, close := Find(dir, '['), FindLast(dir, ']');
    if open == |dir| {
      NoBracketIsCanonical(data, dir);
    } else if open < close {
      BracketedVms(data, dir);
      if open + 2 < close {
        var inner := dir[open + 1..close - 1];
        assert AreSegments(VMS, []);
        KeepsPrefix(VMS, data, inner, []);
        if open > 0 {
          assert '[' !in dir[..open];
          FinishIsCanonical(VMS, Some(dir[..open]), inner, []);
        }
        hide Find, FindLast, FileVms, EndFile, Segmentized, Finish, Canonical, AreSegments;
        EndFileIsCanonical(VMS, if open > 0 then Some(dir[..open]) else PrefixOf(data), Segmentized(VMS, inner, []), dir[close..]);
      }
    } else if close > 0 {
      NoBracketInFront(data, dir);
    }
  }

  lemma FileVxWorksIsCanonical(data: Option<PathData>, dir: string)
    requires CanonicalOrEmpty(VXWORKS, data) && dir != ""
    ensures FileIsCanonical(VXWORKS, FileVxWorks(data, dir))
  {
    if dir[0] != ':' {
      if data.Some? {
        SplitIsCanonical(VXWORKS, data, dir, SegmentsOf(data));
      }
    } else {
      var colon := 1 + Find(dir[1..], ':');
      if 1 < colon < |dir| {
        var prefix := dir[..colon + 1];
        assert Last(prefix) == dir[1..][colon - 1] == ':';
        forall k | 0 < k < |prefix| - 1 ensures prefix[k] != ':' {
          assert prefix[k] == dir[1..][k - 1];
        }
        NewPrefixIsCanonical(VXWORKS, Some(prefix), dir[colon + 1..], []);
      }
    }
  }

  predicate EndsInParen(s: string) {
    s != "" && Last(s) == ')'
  }

  /** What of a text stands before its first parenthesis, without dots at the end. */
  function SetName(d: string): string {
    StripRight(d[..Find(d, '(')], '.')
  }

  /** The text names a member of a data set whose own name ends in a parenthesis. */
  predicate NamesNestedMember(d: string, segments: seq<string>) {
    EndsInParen(d) &&
    if SetName(d) != "" then EndsInParen(SetName(d)) else segments != [] && EndsInParen(segments[|segments| - 1])
  }

  lemma StripLast(s: string)
    ensures StripRight(s, '.') == if s != "" && s[|s| - 1] == '.' then StripRight(s[..|s| - 1], '.') else s
  {
  }

  lemma DotAtEnd(s: string)
    requires s != ""
    ensures Last(s) == s[|s| - 1] && (Last(s) == '.' ==> s == s[..|s| - 1] + ".")
  {
    if Last(s) == '.' {
      assert s == s[..|s| - 1] + [s[|s| - 1]];
    }
  }

  /** Nothing but separators is dropped. */
  lemma {:induction false} StrippedPieces(s: string)
    ensures Pieces(MVS, StripRight(s, '.')) == Pieces(MVS, s)
    ensures StripRight(s, '.') != "" ==> Last(StripRight(s, '.')) != '.'
    decreases |s|
  {
    hide *;
    StripLast(s);
    if s != "" {
      DotAtEnd(s);
      if s[|s| - 1] == '.' {
        StrippedPieces(s[..|s| - 1]);
        TrailingDot(s[..|s| - 1]);
      }
    }
  }

  /** The segments a text leads to, and how the last of them ends. */
  lemma StrippedSegments(s: string, segments: seq<string>)
    ensures
      var r, name := Segmentized(MVS, s, segments), StripRight(s, '.');
      && r.Some?
      && if name == "" then r.value == segments
         else r.value != [] && r.value[|r.value| - 1] != "" && Last(r.value[|r.value| - 1]) == Last(name)
  {
    var name := StripRight(s, '.');
    StrippedPieces(s);
    assert Segmentized(MVS, s, segments) == Segmentized(MVS, name, segments);
    if name == "" {
      assert Pieces(MVS, "") == [];
      assert Segmentized(MVS, "", segments) == Some(segments);
    } else {
      assert !IsSep(MVS, Last(name));
      hide StripRight, Segmentized, IsSep;
      MvsEndsAsText(name, segments);
    }
  }

  lemma FileMvsInnerIsCanonical(data: Option<PathData>, d: string, segments: seq<string>)
    requires AreSegments(MVS, segments)
    ensures
      var r := FileMvsInner(data, d, segments);
      r.Some? ==> (Canonical(MVS, r.value.path) <==> !NamesNestedMember(d, segments))
  {
    hide Segmentized, AreSegments, BehindLastSep, StripRight;
    if EndsInParen(d) {
      var open := Find(d, '(');
      SegmentizedIsCanonical(MVS, d[..open], segments);
      StrippedSegments(d[..open], segments);
    } else {
      NewPrefixIsCanonical(MVS, Some("."), d, segments);
    }
  }

  lemma FileMvsIsCanonical(data: Option<PathData>, dir: string)
    requires CanonicalOrEmpty(MVS, data)
    ensures
      var r := FileMvs(data, dir);
      r.Some? ==> (Canonical(MVS, r.value.path) <==> !NamesNestedMember(MvsBody(dir), MvsStart(data, dir)))
  {
    assert AreSegments(MVS, MvsStart(data, dir));
    hide MvsBody, MvsStart, FileMvsInner, Canonical, AreSegments, NamesNestedMember;
    FileMvsInnerIsCanonical(data, MvsBody(dir), MvsStart(data, dir));
  }

  lemma FileUnixIsCanonical(t: ServerType, data: Option<PathData>, dir: string)
    requires CanonicalOrEmpty(t, data) && dir != "" && (IsUnixLike(t) || t == HPNONSTOP)
    ensures FileIsCanonical(t, ChangedFile(t, data, dir))
  {
    assert AreSegments(t, []) && AreSegments(t, SegmentsOf(data));
    hide SplitFile, AreSegments, Canonical, IsSep;
    SplitIsCanonical(t, data, dir, SegmentsOf(data));
    SplitIsCanonical(t, data, dir, []);
  }

  lemma FileDosIsCanonical(t: ServerType, data: Option<PathData>, dir: string)
    requires CanonicalOrEmpty(t, data) && dir != "" && (t == DOS || t == DOS_FWD_SLASHES)
    ensures FileIsCanonical(t, FileDos(t, data, dir))
  {
    var first := if SegmentsOf(data) == [] then [] else [SegmentsOf(data)[0]];
    assert AreSegments(t, []) && AreSegments(t, SegmentsOf(data)) && AreSegments(t, first);
    hide SplitFile, AreSegments, Canonical, IsAbsoluteDos, IsSep;
    SplitIsCanonical(t, data, dir, SegmentsOf(data));
    SplitIsCanonical(t, data, dir, []);
    SplitIsCanonical(t, data, dir[1..], first);
  }

  lemma FileCygwinIsCanonical(data: Option<PathData>, dir: string)
    requires CanonicalOrEmpty(CYGWIN, data) && dir != ""
    ensures FileIsCanonical(CYGWIN, FileCygwin(data, dir))
  {
    assert AreSegments(CYGWIN, []) && AreSegments(CYGWIN, SegmentsOf(data));
    hide SplitFile, AreSegments, Canonical, IsSep;
    SplitIsCanonical(CYGWIN, data, dir, SegmentsOf(data));
    NewPrefixIsCanonical(CYGWIN, Some("/"), dir[1..], []);
    NewPrefixIsCanonical(CYGWIN, None, dir, []);
  }

  /** Whether a text leaves a path that cannot be told from a member: the only one that is not canonical. */
  predicate IsLost(t: ServerType, data: Option<PathData>, dir: string) {
    t == MVS && NamesNestedMember(MvsBody(dir), MvsStart(data, dir))
  }

  lemma ChangedFileIsCanonical(t: ServerType, data: Option<PathData>, dir: string)
    requires CanonicalOrEmpty(t, data)
    ensures
      var r := ChangedFile(t, data, dir);
      r.Some? ==> (Canonical(t, r.value.path) <==> !IsLost(t, data, dir))
  {
    if dir != "" {
      hide Canonical, FileVms, FileMvs, FileDos, FileVxWorks, FileCygwin, FileUnix, SplitFile, NamesNestedMember;
      match t
      case VMS => FileVmsIsCanonical(data, dir);
      case MVS => FileMvsIsCanonical(data, dir);
      case VXWORKS => FileVxWorksIsCanonical(data, dir);
      case DOS => FileDosIsCanonical(t, data, dir);
      case DOS_FWD_SLASHES => FileDosIsCanonical(t, data, dir);
      case CYGWIN => FileCygwinIsCanonical(data, dir);
      case _ => FileUnixIsCanonical(t, data, dir);
    }
  }

  /**
   The path that is left when a file is split off is given back by printing and parsing exactly if the text does
   not name a member of a data set whose own name ends in a parenthesis.
   */
  lemma PathLeftSurvivesIff(t: ServerType, data: Option<PathData>, dir: string)
    requires CanonicalOrEmpty(t, data)
    ensures
      var r := ChangedFile(t, data, dir);
      r.Some? ==> (Parsed(t, Printed(t, r.value.path)) == Some(r.value.path) <==> !IsLost(t, data, dir))
  {
    hide *;
    ChangedFileIsCanonical(t, data, dir);
    var r := ChangedFile(t, data, dir);
    if r.Some? {
      PathRoundTrip(t, r.value.path);
    }
  }

  /** For example the member F of a data set called A) is split off, ... */
  lemma MemberIsSplitOff()
    ensures ChangedFile(MVS, None, "'A)(F)'") == Some(FileAt(PathData(None, ["A)"]), "F"))
  {
    var dir, inner := "'A)(F)'", "A)(F)";
    assert StripRight(StripLeft(dir, MVSQUOTE), MVSQUOTE) == dir;
    assert dir[1..|dir| - 1] == inner;
    assert Find(inner, '(') == 2;
    assert inner[..2] == "A)" && inner[3..4] == ['F'] == "F";
    assert Pieces(MVS, "A)") == ["A)"] by {
      FirstSepIs(MVS, "A)", 2);
    }
    LastAdded(MVS, ["A)"], []);
    assert [] + ["A)"] == ["A)"];
    hide Pieces, AddAll, StripRight, StripLeft, Find;
    assert FileMvs(None, dir) == FileMvsInner(None, inner, []);
  }

  /** ... and the path that is left does not survive printing. */
  lemma ParenthesisedIsLost()
    ensures Parsed(MVS, Printed(MVS, PathData(None, ["A)"]))) != Some(PathData(None, ["A)"]))
  {
    var data := PathData(None, ["A)"]);
    assert !Canonical(MVS, data) by {
      assert Last("A)") == ')' && data.segments[0] == "A)";
    }
    hide *;
    PathRoundTrip(MVS, data);
  }

  // ---- The file as the last segment ----

  lemma SlicesOfMore(d: string, file: string, pos: nat)
    requires pos < |d|
    ensures (d + file)[..pos] == d[..pos] && (d + file)[pos + 1..] == d[pos + 1..] + file
    ensures forall k :: 0 <= k < |d| ==> (d + file)[k] == d[k]
    ensures d[pos + 1..] != "" ==> Last(d[pos + 1..]) == Last(d)
  {
  }

  lemma FirstSepOfMore(t: ServerType, d: string, file: string)
    requires d != "" && IsSep(t, Last(d))
    ensures
      var pos := FirstSep(t, d);
      && pos < |d| && FirstSep(t, d + file) == pos
      && (d + file)[..pos] == d[..pos] && (d + file)[pos + 1..] == d[pos + 1..] + file
      && (d[pos + 1..] != "" ==> IsSep(t, Last(d[pos + 1..])))
  {
    var pos := FirstSep(t, d);
    assert pos < |d|;
    hide IsSep, FirstSep;
    SlicesOfMore(d, file, pos);
    FirstSepIsAt(t, d + file, pos);
  }

  lemma FirstSepIsAt(t: ServerType, s: string, n: nat)
    requires n < |s| && IsSep(t, s[n]) && forall k :: 0 <= k < n ==> !IsSep(t, s[k])
    ensures FirstSep(t, s) == n
  {
    hide IsSep;
  }

  lemma OnePiece(t: ServerType, file: string)
    requires file != "" && NoSep(t, file)
    ensures Pieces(t, file) == [file]
  {
    assert file[..|file|] == file;
    FirstSepIs(t, file, |file|);
    PiecesUnfold(t, file);
    hide *;
  }

  lemma NoPiece(t: ServerType, file: string)
    ensures Pieces(t, "") == [] && "" + file == file && [] + [file] == [file]
  {
  }

  lemma {:induction false} PiecesOfFile(t: ServerType, d: string, file: string)
    requires d != "" ==> IsSep(t, Last(d))
    requires file != "" && NoSep(t, file)
    ensures Pieces(t, d + file) == Pieces(t, d) + [file]
    decreases |d|
  {
    hide *;
    if d == "" {
      OnePiece(t, file);
      NoPiece(t, file);
    } else {
      var pos := FirstSep(t, d);
      FirstSepOfMore(t, d, file);
      PiecesUnfold(t, d);
      PiecesUnfold(t, d + file);
      PiecesOfFile(t, d[pos + 1..], file);
      Around(d[..pos], Pieces(t, d[pos + 1..]), file);
    }
  }

  lemma Around(first: string, pieces: seq<string>, file: string)
    ensures [first] + (pieces + [file]) == [first] + pieces + [file]
  {
  }

  lemma {:induction false} AddFile(t: ServerType, pieces: seq<string>, file: string, segments: seq<string>)
    requires t != VMS && !IsDots(t, file)
    ensures AddAll(t, pieces, segments, false).Some?
    ensures AddAll(t, pieces + [file], segments, false) == Some(AddAll(t, pieces, segments, false).value + [file])
    decreases |pieces|
  {
    assert TraitsOf(t).separatorEscape.None?;
    if pieces == [] {
      assert pieces + [file] == [file] && [file][1..] == [];
      assert Pushed(t, file, segments, false) == segments + [file];
    } else {
      assert (pieces + [file])[0] == pieces[0] && (pieces + [file])[1..] == pieces[1..] + [file];
      if IsDots(t, pieces[0]) {
        AddFile(t, pieces[1..], file, if pieces[0] == ".." && segments != [] then segments[..|segments| - 1] else segments);
      } else {
        AddFile(t, pieces[1..], file, Pushed(t, pieces[0], segments, false));
      }
    }
  }

  /** The text ends in a name that a file can have. */
  predicate EndsInName(t: ServerType, s: string) {
    s != "" && !IsSep(t, Last(s)) && !IsDots(t, FileName(t, s))
  }

  lemma NameIsBehind(t: ServerType, s: string)
    ensures
      var d := s[..BehindLastSep(t, s)];
      && d + FileName(t, s) == s && NoSep(t, FileName(t, s)) && (d != "" ==> IsSep(t, Last(d)))
      && (s != "" && !IsSep(t, Last(s)) ==> FileName(t, s) != "")
  {
    var n := BehindLastSep(t, s);
    hide IsSep, BehindLastSep;
    assert forall k :: 0 <= k < |s| - n ==> s[n..][k] == s[n + k];
  }

  lemma SegmentsOfFile(t: ServerType, s: string, segments: seq<string>)
    requires t != VMS && EndsInName(t, s)
    ensures FileName(t, s) != "" && Segmentized(t, s[..BehindLastSep(t, s)], segments).Some?
    ensures Segmentized(t, s, segments) == Some(Segmentized(t, s[..BehindLastSep(t, s)], segments).value + [FileName(t, s)])
  {
    var d, file := s[..BehindLastSep(t, s)], FileName(t, s);
    NameIsBehind(t, s);
    hide Pieces, AddAll, IsSep, NoSep, BehindLastSep, FileName, IsDots, FirstSep;
    PiecesOfFile(t, d, file);
    AddFile(t, Pieces(t, d), file, segments);
  }

  /** `q` is a path whose last segment is the file and whose others are the path of `r`. */
  predicate IsFileOf(t: ServerType, q: Option<PathData>, r: FileAt) {
    q == Some(PathData(r.path.prefix, r.path.segments + [r.file])) && (TraitsOf(t).hasRoot || r.path.segments != [])
  }

  /** Splitting a file off a text, or taking all of it for segments. */
  lemma SplitAgrees(t: ServerType, prefix: Option<string>, s: string, segments: seq<string>, r: FileAt)
    requires t != VMS
    ensures
      (SplitFile(t, prefix, s, segments) == Some(r) && r.file != "" <==>
         EndsInName(t, s) && IsFileOf(t, Finish(t, prefix, Segmentized(t, s, segments)), r))
  {
    hide Segmentized;
    if EndsInName(t, s) {
      SegmentsOfFile(t, s, segments);
      var before := Segmentized(t, s[..BehindLastSep(t, s)], segments).value;
      LastIsTold(before, FileName(t, s), r.path.segments, r.file);
    }
  }

  lemma LastIsTold(a: seq<string>, x: string, b: seq<string>, y: string)
    ensures a + [x] == b + [y] <==> a == b && x == y
  {
    if a + [x] == b + [y] {
      assert (a + [x])[|a|] == x && (b + [y])[|b|] == y && |a| == |b|;
      assert a == (a + [x])[..|a|] && b == (b + [y])[..|b|];
    }
  }

  lemma BehindIs(t: ServerType, s: string, n: nat)
    requires n <= |s| && (n > 0 ==> IsSep(t, s[n - 1])) && forall k :: n <= k < |s| ==> !IsSep(t, s[k])
    ensures BehindLastSep(t, s) == n
  {
    hide IsSep;
  }

  /** The file name of a text is that of its rest behind a separator. */
  lemma EndsOfRest(t: ServerType, s: string)
    requires s != "" && IsSep(t, s[0])
    ensures EndsInName(t, s) <==> EndsInName(t, s[1..])
  {
    var rest := s[1..];
    var n := BehindLastSep(t, rest);
    BehindIs(t, s, n + 1);
    assert s[n + 1..] == rest[n..];
    if rest != "" {
      LastIsLast(s, 1);
    }
    hide IsSep, IsDots, BehindLastSep;
  }

  /** Whether splitting and changing agree on one text. */
  predicate Agree(t: ServerType, data: Option<PathData>, dir: string, r: FileAt) {
    ChangedFile(t, data, dir) == Some(r) && r.file != "" <==> EndsInName(t, dir) && IsFileOf(t, Changed(t, data, dir), r)
  }

  lemma UnixAgrees(t: ServerType, data: Option<PathData>, dir: string, r: FileAt)
    requires dir != "" && (IsUnixLike(t) || t == HPNONSTOP)
    ensures Agree(t, data, dir, r)
  {
    hide SplitFile, Segmentized, IsDots, EndsInName, IsFileOf, IsSep;
    SplitAgrees(t, PrefixOf(data), dir, [], r);
    SplitAgrees(t, PrefixOf(data), dir, SegmentsOf(data), r);
    NothingIsNoFile(t, r);
  }

  lemma NothingIsNoFile(t: ServerType, r: FileAt)
    ensures !IsFileOf(t, None, r)
  {
  }

  lemma DosCases(t: ServerType, data: Option<PathData>, dir: string)
    requires dir != "" && (t == DOS || t == DOS_FWD_SLASHES)
    ensures
      var kind := if IsAbsoluteDos(t, dir) then 0 else if !IsSep(t, dir[0]) then 1 else if SegmentsOf(data) == [] then 2 else 3;
      var body := if kind == 3 then dir[1..] else dir;
      var segments := if kind == 3 then [SegmentsOf(data)[0]] else if kind == 1 then SegmentsOf(data) else [];
      && ChangedFile(t, data, dir) == (if kind == 2 then None else SplitFile(t, PrefixOf(data), body, segments))
      && Changed(t, data, dir) == (if kind == 2 then None else Finish(t, PrefixOf(data), Segmentized(t, body, segments)))
  {
    hide SplitFile, Segmentized, IsSep, IsAbsoluteDos, Finish, TraitsOf;
  }

  lemma DosAgrees(t: ServerType, data: Option<PathData>, dir: string, r: FileAt)
    requires dir != "" && (t == DOS || t == DOS_FWD_SLASHES)
    ensures Agree(t, data, dir, r)
  {
    if IsSep(t, dir[0]) {
      EndsOfRest(t, dir);
    }
    DosCases(t, data, dir);
    NothingIsNoFile(t, r);
    hide SplitFile, Segmentized, EndsInName, IsFileOf, IsSep, IsAbsoluteDos, Finish, ChangedFile, Changed;
    if IsAbsoluteDos(t, dir) {
      SplitAgrees(t, PrefixOf(data), dir, [], r);
    } else if !IsSep(t, dir[0]) {
      SplitAgrees(t, PrefixOf(data), dir, SegmentsOf(data), r);
    } else if SegmentsOf(data) != [] {
      SplitAgrees(t, PrefixOf(data), dir[1..], [SegmentsOf(data)[0]], r);
    }
  }

  lemma CygwinAgrees(data: Option<PathData>, dir: string, r: FileAt)
    requires dir != ""
    ensures Agree(CYGWIN, data, dir, r)
  {
    var t := CYGWIN;
    if dir[0] == '/' {
      assert IsSep(t, '/');
      EndsOfRest(t, dir);
    }
    hide SplitFile, Segmentized, IsDots, EndsInName, IsFileOf, IsSep;
    SplitAgrees(t, Some("/"), dir[1..], [], r);
    SplitAgrees(t, None, dir, [], r);
    SplitAgrees(t, PrefixOf(data), dir, SegmentsOf(data), r);
    NothingIsNoFile(t, r);
  }

  lemma FileNameIs(t: ServerType, s: string)
    ensures FileName(t, s) == s[BehindLastSep(t, s)..]
  {
  }

  lemma NoSepInMore(t: ServerType, prefix: string, rest: string, n: nat)
    requires n <= |rest| && forall k :: n <= k < |rest| ==> !IsSep(t, rest[k])
    ensures forall k :: |prefix| + n <= k < |prefix + rest| ==> !IsSep(t, (prefix + rest)[k])
  {
    hide IsSep;
    forall k | |prefix| + n <= k < |prefix + rest| ensures !IsSep(t, (prefix + rest)[k]) {
      assert (prefix + rest)[k] == rest[k - |prefix|];
    }
  }

  lemma NameOfMore(t: ServerType, prefix: string, rest: string)
    requires BehindLastSep(t, rest) > 0
    ensures FileName(t, prefix + rest) == FileName(t, rest)
  {
    hide *;
    var n := BehindLastSep(t, rest);
    SliceBehind(prefix, rest, n);
    NoSepInMore(t, prefix, rest, n);
    BehindIs(t, prefix + rest, |prefix| + n);
    FileNameIs(t, rest);
    FileNameIs(t, prefix + rest);
  }

  lemma SliceBehind(prefix: string, rest: string, n: nat)
    requires 0 < n <= |rest|
    ensures (prefix + rest)[|prefix| + n..] == rest[n..] && (prefix + rest)[|prefix| + n - 1] == rest[n - 1]
  {
  }

  lemma ColonStays(prefix: string, rest: string, m: nat)
    requires m < |prefix| && prefix[|prefix| - 1] == ':'
    ensures (prefix + rest)[m..][|prefix| - 1 - m] == ':' && (m > 0 ==> (prefix + rest)[m - 1] == prefix[m - 1])
    ensures rest[0..] == rest
  {
  }

  lemma NameWithColon(t: ServerType, prefix: string, rest: string)
    requires prefix != "" && Last(prefix) == ':' && !IsSep(t, ':') && BehindLastSep(t, rest) == 0
    ensures FileName(t, rest) == rest && ':' in FileName(t, prefix + rest)
  {
    var m := BehindLastSep(t, prefix);
    assert m < |prefix|;
    ColonStays(prefix, rest, m);
    hide IsSep, BehindLastSep;
    forall k | m <= k < |prefix + rest| ensures !IsSep(t, (prefix + rest)[k]) {
      assert (prefix + rest)[k] == if k < |prefix| then prefix[k] else rest[k - |prefix|];
    }
    BehindIs(t, prefix + rest, m);
  }

  lemma NameBehindDevice(prefix: string, rest: string)
    requires prefix != "" && Last(prefix) == ':' && rest != ""
    ensures Last(prefix + rest) == Last(rest)
    ensures
      if BehindLastSep(VXWORKS, rest) > 0 then FileName(VXWORKS, prefix + rest) == FileName(VXWORKS, rest)
      else FileName(VXWORKS, rest) == rest && !IsDots(VXWORKS, FileName(VXWORKS, prefix + rest))
  {
    assert !IsSep(VXWORKS, ':') && !(':' in ".") && !(':' in "..");
    assert forall s :: IsDots(VXWORKS, s) ==> s == "." || s == "..";
    hide BehindLastSep, FileName, IsDots, IsSep;
    if BehindLastSep(VXWORKS, rest) > 0 {
      NameOfMore(VXWORKS, prefix, rest);
    } else {
      NameWithColon(VXWORKS, prefix, rest);
    }
  }

  /** Behind a device, the name of the rest is that of the text, or both are nothing a path could end in. */
  lemma EndsBehindDevice(prefix: string, rest: string, r: FileAt)
    requires prefix != "" && Last(prefix) == ':'
    ensures
      var q := Finish(VXWORKS, Some(prefix), Segmentized(VXWORKS, rest, []));
      EndsInName(VXWORKS, prefix + rest) && IsFileOf(VXWORKS, q, r) <==> EndsInName(VXWORKS, rest) && IsFileOf(VXWORKS, q, r)
  {
    if rest == "" {
      assert Pieces(VXWORKS, rest) == [];
      assert Segmentized(VXWORKS, rest, []) == Some([]);
    } else {
      NameBehindDevice(prefix, rest);
      if IsDots(VXWORKS, rest) {
        DotsLeadNowhere(rest);
      }
    }
    hide Segmentized, FileName, IsDots, BehindLastSep, IsSep;
  }

  lemma DotsLeadNowhere(rest: string)
    requires IsDots(VXWORKS, rest)
    ensures Segmentized(VXWORKS, rest, []) == Some([])
  {
    assert NoSep(VXWORKS, rest);
    OnePiece(VXWORKS, rest);
    assert [rest][1..] == [];
    assert AddAll(VXWORKS, [rest], [], false) == AddAll(VXWORKS, [], [], false);
    hide Pieces;
  }

  lemma VxWorksAgrees(data: Option<PathData>, dir: string, r: FileAt)
    requires dir != ""
    ensures Agree(VXWORKS, data, dir, r)
  {
    var t := VXWORKS;
    hide SplitFile, Segmentized, IsDots, EndsInName, IsFileOf, IsSep;
    SplitAgrees(t, PrefixOf(data), dir, SegmentsOf(data), r);
    NothingIsNoFile(t, r);
    if dir[0] == ':' {
      var colon := 1 + Find(dir[1..], ':');
      if 1 < colon < |dir| {
        var prefix, rest := dir[..colon + 1], dir[colon + 1..];
        assert prefix + rest == dir && Last(prefix) == dir[1..][colon - 1] == ':';
        SplitAgrees(t, Some(prefix), rest, [], r);
        EndsBehindDevice(prefix, rest, r);
      }
    }
  }

  // ---- MVS: the file behind the prefix ----

  lemma ChangedMvsIs(data: Option<PathData>, dir: string)
    ensures ChangedMvs(data, dir) == if WellQuoted(data, dir) then MvsInner(data, MvsBody(dir), MvsStart(data, dir)) else None
  {
    hide MvsInner, StripLeft, StripRight;
  }

  /** A member, and a file of a data set instead of a prefix, can be split off, but there is no such directory. */
  predicate OnlyAsFile(data: Option<PathData>, d: string) {
    EndsInParen(d) || IsWhole(data)
  }

  /** On MVS a directory is a data set, and its parent a prefix. */
  lemma MvsInnerAgrees(data: Option<PathData>, d: string, segments: seq<string>, r: FileAt)
    ensures
      FileMvsInner(data, d, segments) == Some(r) && r.file != "" && !OnlyAsFile(data, d) <==>
        EndsInName(MVS, d) && LeadsToFile(MVS, MvsInner(data, d, segments), r)
    ensures OnlyAsFile(data, d) ==> MvsInner(data, d, segments) == None
  {
    hide SplitFile, Segmentized, IsDots, FileName;
    if !OnlyAsFile(data, d) {
      assert d != "" && !IsSep(MVS, Last(d)) ==> Last(d) != '.';
      SplitAgrees(MVS, Some("."), d, segments, r);
      MvsParent(segments, d, r);
    }
  }

  lemma MvsParent(segments: seq<string>, d: string, r: FileAt)
    ensures
      var found := Segmentized(MVS, d, segments);
      IsFileOf(MVS, Finish(MVS, Some("."), found), r) <==> LeadsToFile(MVS, Finish(MVS, None, found), r)
  {
    var found := Segmentized(MVS, d, segments);
    hide Segmentized;
    if found.Some? && found.value != [] {
      InitAndLast(found.value, r.path.segments, r.file);
    }
  }

  lemma InitAndLast(all: seq<string>, init: seq<string>, last: string)
    requires all != []
    ensures all == init + [last] <==> all[..|all| - 1] == init && all[|all| - 1] == last
  {
  }

  /** The path `q` has the file as its last segment and the path of `r` as its parent. */
  predicate LeadsToFile(t: ServerType, q: Option<PathData>, r: FileAt) {
    && q.Some? && q.value.segments != [] && q.value.segments[|q.value.segments| - 1] == r.file
    && Parent(t, q.value) == Some(r.path)
  }

  lemma LeadsToFileIs(t: ServerType, q: Option<PathData>, r: FileAt)
    requires t != MVS
    ensures LeadsToFile(t, q, r) <==> IsFileOf(t, q, r)
  {
    if q.Some? && q.value.segments != [] {
      InitAndLast(q.value.segments, r.path.segments, r.file);
    }
  }

  /** The part of the text that the file stands at the end of. */
  function NameText(t: ServerType, dir: string): string {
    if t == MVS then MvsBody(dir) else dir
  }

  /**
   Splitting a file off agrees with changing to the whole text: a named file is split off exactly if the text ends
   in a name that can be one and the change by the whole text leads to a path with the file as its last segment and
   the path left as its parent.  Members on MVS are the exception, and on VMS a file is no segment.
   */
  lemma FileIsLastSegment(t: ServerType, data: Option<PathData>, dir: string, r: FileAt)
    requires t != VMS
    ensures
      ChangedFile(t, data, dir) == Some(r) && r.file != "" && !(t == MVS && OnlyAsFile(data, MvsBody(dir))) <==>
        EndsInName(t, NameText(t, dir)) && LeadsToFile(t, Changed(t, data, dir), r)
    ensures t == MVS && OnlyAsFile(data, MvsBody(dir)) ==> dir == "" || Changed(t, data, dir) == None
  {
    if t == MVS {
      MvsAgrees(data, dir, r);
    } else if dir != "" {
      assert Agree(t, data, dir, r) by {
        hide ChangedFile, Changed, IsFileOf;
        match t
        case DOS => DosAgrees(t, data, dir, r);
        case DOS_FWD_SLASHES => DosAgrees(t, data, dir, r);
        case CYGWIN => CygwinAgrees(data, dir, r);
        case VXWORKS => VxWorksAgrees(data, dir, r);
        case _ => UnixAgrees(t, data, dir, r);
      }
      hide Changed, IsFileOf, LeadsToFile;
      LeadsToFileIs(t, Changed(t, data, dir), r);
    } else {
      hide Changed, LeadsToFile;
    }
  }

  lemma MvsAgrees(data: Option<PathData>, dir: string, r: FileAt)
    ensures
      ChangedFile(MVS, data, dir) == Some(r) && r.file != "" && !OnlyAsFile(data, MvsBody(dir)) <==>
        EndsInName(MVS, MvsBody(dir)) && LeadsToFile(MVS, Changed(MVS, data, dir), r)
    ensures OnlyAsFile(data, MvsBody(dir)) ==> dir == "" || Changed(MVS, data, dir) == None
  {
    var body, start := MvsBody(dir), MvsStart(data, dir);
    ChangedMvsIs(data, dir);
    MvsInnerAgrees(data, body, start, r);
    assert dir == "" ==> MvsBody(dir) == "" && !EndsInName(MVS, "");
    hide MvsInner, FileMvsInner, MvsBody, MvsStart, WellQuoted, EndsInName, OnlyAsFile;
  }

  // ---- VMS: the file behind the bracket ----

  lemma FindsInPart(dir: string, n: nat)
    requires 0 < n <= |dir| && dir[n - 1] == ']' && ']' !in dir[n..]
    ensures FindLast(dir, ']') == n && FindLast(dir[..n], ']') == n
    ensures '[' in dir[..n] <==> Find(dir, '[') < n
    ensures Find(dir, '[') < n ==> Find(dir[..n], '[') == Find(dir, '[')
  {
    var open := Find(dir, '[');
    assert forall k :: n <= k < |dir| ==> dir[k] == dir[n..][k - n];
    assert forall k :: 0 <= k < n ==> dir[..n][k] == dir[k];
    hide Find, FindLast;
    assert dir[..n][n - 1] == ']';
  }

  lemma FoundLast(s: string, c: char, n: nat)
    requires n <= |s| && (n > 0 ==> s[n - 1] == c) && forall k :: n <= k < |s| ==> s[k] != c
    ensures FindLast(s, c) == n
  {
  }

  lemma SameSlices(dir: string, open: nat, n: nat)
    requires open + 1 < n <= |dir|
    ensures dir[..n][open + 1..n - 1] == dir[open + 1..n - 1] && dir[..n][..open] == dir[..open] && |dir[..n]| == n
  {
  }

  lemma EndedVms(data: Option<PathData>, file: string)
    ensures EndFile(VMS, PrefixOf(data), if data.Some? then Some(data.value.segments) else None, file) ==
      if data.Some? && data.value.segments != [] then Some(FileAt(data.value, file)) else None
  {
  }

  lemma BracketedVms(data: Option<PathData>, dir: string)
    requires var open := Find(dir, '['); open < FindLast(dir, ']')
    ensures
      var open, close := Find(dir, '['), FindLast(dir, ']');
      && open < close
      && (open + 2 < close ==>
            var prefix, segments := if open > 0 then Some(dir[..open]) else PrefixOf(data), Segmentized(VMS, dir[open + 1..close - 1], []);
            && ChangedVms(data, dir) == (if close < |dir| then None else Finish(VMS, prefix, segments))
            && FileVms(data, dir) == (if close == |dir| then None else EndFile(VMS, prefix, segments, dir[close..])))
      && (open + 2 >= close ==> ChangedVms(data, dir) == None && FileVms(data, dir) == None)
  {
    hide Find, FindLast, Segmentized, Finish, EndFile;
  }

  lemma VmsEnds(prefix: Option<string>, segments: Option<seq<string>>, file: string)
    ensures
      var q := Finish(VMS, prefix, segments);
      EndFile(VMS, prefix, segments, file) == if q.None? then None else Some(FileAt(q.value, file))
  {
    assert !IsDots(VMS, file);
    hide Finish;
  }

  /** Behind a bracket, the directory in front of it and the file do not depend on each other. */
  lemma FileVmsIs(data: Option<PathData>, dir: string, n: nat)
    requires 0 < n <= |dir| && dir[n - 1] == ']' && ']' !in dir[n..] && '[' in dir[..n]
    ensures
      var q := Changed(VMS, data, dir[..n]);
      FileVms(data, dir) == if n == |dir| || q.None? then None else Some(FileAt(q.value, dir[n..]))
  {
    var open, d := Find(dir, '['), dir[..n];
    FindsInPart(dir, n);
    assert Changed(VMS, data, d) == ChangedVms(data, d);
    hide *;
    BracketedVms(data, dir);
    BracketedVms(data, d);
    if open + 2 < n {
      SameSlices(dir, open, n);
      VmsEnds(if open > 0 then Some(dir[..open]) else PrefixOf(data), Segmentized(VMS, dir[open + 1..n - 1], []), dir[n..]);
    }
  }

  lemma NoBracketInFront(data: Option<PathData>, dir: string)
    requires 0 < FindLast(dir, ']') <= Find(dir, '[')
    ensures FileVms(data, dir) == None
  {
    hide Find, FindLast, Segmentized;
  }

  lemma NoFileWithout(data: Option<PathData>, dir: string)
    requires FindLast(dir, ']') == 0 && CanonicalOrEmpty(VMS, data) && dir != ""
    ensures FileVms(data, dir) == if '[' in dir || data.None? then None else Some(FileAt(data.value, dir))
  {
    if data.Some? {
      EndedVms(data, dir);
    }
  }

  predicate IsBehindBracket(data: Option<PathData>, dir: string, r: FileAt)
    requires |r.file| <= |dir|
  {
    var d := dir[..|dir| - |r.file|];
    if d == "" then '[' !in dir && data == Some(r.path)
    else Last(d) == ']' && '[' in d && Changed(VMS, data, d) == Some(r.path)
  }

  /**
   On VMS a file is what stands behind the bracket of a directory, and the path left is what changing to that
   directory gives; or all of a text without brackets.
   */
  lemma FileIsBehindBracket(data: Option<PathData>, dir: string, r: FileAt)
    requires CanonicalOrEmpty(VMS, data)
    ensures
      ChangedFile(VMS, data, dir) == Some(r) <==> EndsWith(dir, r.file) && IsBehindBracket(data, dir, r)
  {
    if dir != "" {
      assert ChangedFile(VMS, data, dir) == FileVms(data, dir);
      hide ChangedFile, FileVms, EndsWith, IsBehindBracket;
      BehindBracketIff(data, dir, r);
    }
  }

  /** The file can only be what stands behind the last bracket. */
  lemma BehindLastBracket(dir: string, file: string, m: nat)
    requires m + |file| == |dir| && dir[m..] == file && ']' !in file
    ensures FindLast(dir, ']') <= m
    ensures m > 0 && Last(dir[..m]) == ']' ==> FindLast(dir, ']') == m
  {
    var n := FindLast(dir, ']');
    assert forall k :: m <= k < |dir| ==> dir[k] == file[k - m];
    hide FindLast;
    if m > 0 && Last(dir[..m]) == ']' {
      assert dir[m - 1] == ']';
      FoundLast(dir, ']', m);
    }
  }

  predicate EndsWith(dir: string, file: string) {
    file != "" && ']' !in file && |file| <= |dir| && dir[|dir| - |file|..] == file
  }

  lemma EndsWithIs(dir: string, file: string, n: nat)
    requires n <= |dir| && ']' !in dir[n..]
    ensures file == dir[n..] && file != "" ==> EndsWith(dir, file) && |dir| - |file| == n
    ensures EndsWith(dir, file) && |dir| - |file| == n ==> file == dir[n..]
    ensures dir[..0] == "" && dir[0..] == dir
  {
  }

  lemma NoneBehindLast(dir: string)
    ensures ']' !in dir[FindLast(dir, ']')..]
  {
    var n := FindLast(dir, ']');
    hide FindLast;
    assert forall k :: n <= k < |dir| ==> dir[k] == dir[n..][k - n];
  }

  /** Without a closing bracket the file is all of the text, and with one it is what stands behind the last. */
  lemma WhereFileStarts(data: Option<PathData>, dir: string, r: FileAt)
    requires EndsWith(dir, r.file) && IsBehindBracket(data, dir, r)
    ensures |dir| - |r.file| == FindLast(dir, ']')
  {
    var m := |dir| - |r.file|;
    BehindLastBracket(dir, r.file, m);
    hide FindLast, Find, Changed;
    assert m > 0 ==> dir[..m] != "";
  }

  /** What is to be shown, when the file can only start at `n`. */
  predicate BehindIff(data: Option<PathData>, dir: string, r: FileAt) {
    FileVms(data, dir) == Some(r) <==> EndsWith(dir, r.file) && IsBehindBracket(data, dir, r)
  }

  predicate StartsAt(data: Option<PathData>, dir: string, r: FileAt, n: nat)
    requires n <= |dir|
  {
    && (r.file == dir[n..] && r.file != "" ==> EndsWith(dir, r.file) && |dir| - |r.file| == n)
    && (EndsWith(dir, r.file) && IsBehindBracket(data, dir, r) ==> |dir| - |r.file| == n && r.file == dir[n..])
  }

  lemma AllIsFile(data: Option<PathData>, dir: string, r: FileAt)
    requires dir != "" && StartsAt(data, dir, r, 0)
    requires FileVms(data, dir) == if '[' in dir || data.None? then None else Some(FileAt(data.value, dir))
    ensures BehindIff(data, dir, r)
  {
    assert dir[..0] == "" && dir[0..] == dir;
    hide FileVms, EndsWith, Changed;
  }

  lemma BehindAt(data: Option<PathData>, dir: string, r: FileAt, n: nat)
    requires 0 < n && n + |r.file| == |dir|
    ensures IsBehindBracket(data, dir, r) <==>
      Last(dir[..n]) == ']' && '[' in dir[..n] && Changed(VMS, data, dir[..n]) == Some(r.path)
  {
    assert |dir| - |r.file| == n && dir[..n] != "";
    hide Changed;
  }

  lemma FileIsBehind(data: Option<PathData>, dir: string, r: FileAt, n: nat)
    requires 0 < n <= |dir| && Last(dir[..n]) == ']' && StartsAt(data, dir, r, n)
    requires
      FileVms(data, dir) ==
        if '[' !in dir[..n] || n == |dir| || Changed(VMS, data, dir[..n]).None? then None
        else Some(FileAt(Changed(VMS, data, dir[..n]).value, dir[n..]))
    ensures BehindIff(data, dir, r)
  {
    assert |dir[n..]| == |dir| - n && (EndsWith(dir, r.file) ==> r.file != "");
    hide FileVms, EndsWith, Changed, IsBehindBracket;
    if |dir| - |r.file| == n {
      BehindAt(data, dir, r, n);
    }
  }

  lemma BehindBracketIff(data: Option<PathData>, dir: string, r: FileAt)
    requires CanonicalOrEmpty(VMS, data) && dir != ""
    ensures BehindIff(data, dir, r)
  {
    var n := FindLast(dir, ']');
    NoneBehindLast(dir);
    EndsWithIs(dir, r.file, n);
    if EndsWith(dir, r.file) && IsBehindBracket(data, dir, r) {
      WhereFileStarts(data, dir, r);
    }
    assert StartsAt(data, dir, r, n) by {
      hide IsBehindBracket, EndsWith, FindLast;
    }
    assert n > 0 ==> Last(dir[..n]) == ']';
    hide *;
    if n == 0 {
      NoFileWithout(data, dir);
      AllIsFile(data, dir, r);
    } else {
      FindsInPart(dir, n);
      if '[' in dir[..n] {
        FileVmsIs(data, dir, n);
      } else {
        NoBracketInFront(data, dir);
      }
      FileIsBehind(data, dir, r, n);
    }
  }

  // ---- Success without a name ----

  predicate IsDevice(dir: string) {
    |dir| > 2 && dir[0] == ':' && 1 + Find(dir[1..], ':') == |dir| - 1
  }

  lemma EmptyNameMeansNothing(t: ServerType, prefix: Option<string>, dir: string, segments: seq<string>)
    ensures
      var r := SplitFile(t, prefix, dir, segments);
      r.Some? && r.value.file == "" <==> dir == "" && (TraitsOf(t).hasRoot || segments != [])
  {
    NameIsBehind(t, dir);
    assert Segmentized(t, "", segments) == Some(segments);
    hide Segmentized, BehindLastSep;
  }

  predicate Nameless(r: Option<FileAt>) {
    r.Some? && r.value.file == ""
  }

  lemma UnixHasName(t: ServerType, data: Option<PathData>, dir: string)
    requires dir != "" && (IsUnixLike(t) || t == HPNONSTOP)
    ensures !Nameless(ChangedFile(t, data, dir))
  {
    hide SplitFile, IsSep;
    EmptyNameMeansNothing(t, PrefixOf(data), dir, []);
    EmptyNameMeansNothing(t, PrefixOf(data), dir, SegmentsOf(data));
  }

  lemma DosIsNameless(t: ServerType, data: Option<PathData>, dir: string)
    requires dir != "" && (t == DOS || t == DOS_FWD_SLASHES)
    ensures Nameless(FileDos(t, data, dir)) <==> |dir| == 1 && IsSep(t, dir[0]) && SegmentsOf(data) != []
  {
    assert |dir| == 1 ==> !IsAbsoluteDos(t, dir);
    hide SplitFile, IsSep, IsAbsoluteDos;
    EmptyNameMeansNothing(t, PrefixOf(data), dir, []);
    EmptyNameMeansNothing(t, PrefixOf(data), dir, SegmentsOf(data));
    EmptyNameMeansNothing(t, PrefixOf(data), dir[1..], if SegmentsOf(data) == [] then [] else [SegmentsOf(data)[0]]);
  }

  lemma CygwinHasName(data: Option<PathData>, dir: string)
    requires dir != ""
    ensures !Nameless(FileCygwin(data, dir))
  {
    hide SplitFile, IsSep;
    EmptyNameMeansNothing(CYGWIN, Some("/"), dir[1..], []);
    EmptyNameMeansNothing(CYGWIN, None, dir, []);
    EmptyNameMeansNothing(CYGWIN, PrefixOf(data), dir, SegmentsOf(data));
  }

  lemma VxWorksIsNameless(data: Option<PathData>, dir: string)
    requires dir != ""
    ensures Nameless(FileVxWorks(data, dir)) <==> IsDevice(dir)
  {
    hide SplitFile, IsSep;
    EmptyNameMeansNothing(VXWORKS, PrefixOf(data), dir, SegmentsOf(data));
    var colon := 1 + Find(dir[1..], ':');
    if dir[0] == ':' && 1 < colon < |dir| {
      EmptyNameMeansNothing(VXWORKS, Some(dir[..colon + 1]), dir[colon + 1..], []);
    }
  }

  /** Nothing stands in the parentheses, and a data set is named or there is one. */
  predicate IsEmptyMember(data: Option<PathData>, d: string, segments: seq<string>) {
    && |d| >= 2 && Last(d) == ')' && Find(d, '(') == |d| - 2
    && (SetName(d) != "" || segments != [])
    && (IsWhole(data) ==> |d| == 2)
  }

  lemma MvsInnerIsNameless(data: Option<PathData>, d: string, segments: seq<string>)
    requires d == "" ==> segments == []
    ensures Nameless(FileMvsInner(data, d, segments)) <==> IsEmptyMember(data, d, segments)
  {
    hide SplitFile, Segmentized, StripRight;
    if EndsInParen(d) {
      StrippedSegments(d[..Find(d, '(')], segments);
    } else {
      EmptyNameMeansNothing(MVS, Some("."), d, segments);
    }
  }

  lemma MvsIsNameless(data: Option<PathData>, dir: string)
    ensures Nameless(FileMvs(data, dir)) <==> WellQuoted(data, dir) && IsEmptyMember(data, MvsBody(dir), MvsStart(data, dir))
  {
    assert WellQuoted(data, dir) && MvsBody(dir) == "" ==> MvsStart(data, dir) == [];
    hide FileMvsInner, MvsBody, MvsStart, WellQuoted, IsEmptyMember, Nameless;
    if WellQuoted(data, dir) {
      MvsInnerIsNameless(data, MvsBody(dir), MvsStart(data, dir));
    } else {
      assert !Nameless(None);
    }
  }

  lemma VmsHasName(data: Option<PathData>, dir: string)
    requires dir != ""
    ensures !Nameless(FileVms(data, dir))
  {
    hide Segmentized, Finish;
  }

  /**
   A change by a text with a file name succeeds although there is no name exactly for a bare device on VxWorks, for
   a lone separator behind a drive on DOS, and for an empty member on MVS.
   */
  lemma EmptyNameIff(t: ServerType, data: Option<PathData>, dir: string)
    ensures
      Nameless(ChangedFile(t, data, dir)) <==>
        || (t == VXWORKS && IsDevice(dir))
        || ((t == DOS || t == DOS_FWD_SLASHES) && |dir| == 1 && IsSep(t, dir[0]) && SegmentsOf(data) != [])
        || (t == MVS && WellQuoted(data, dir) && IsEmptyMember(data, MvsBody(dir), MvsStart(data, dir)))
  {
    if dir != "" {
      hide Nameless, FileVms, FileMvs, FileDos, FileVxWorks, FileCygwin, FileUnix, SplitFile, IsSep, IsDevice, IsEmptyMember, WellQuoted;
      match t
      case VMS => VmsHasName(data, dir);
      case MVS => MvsIsNameless(data, dir);
      case VXWORKS => VxWorksIsNameless(data, dir);
      case DOS => DosIsNameless(t, data, dir);
      case DOS_FWD_SLASHES => DosIsNameless(t, data, dir);
      case CYGWIN => CygwinHasName(data, dir);
      case _ => UnixHasName(t, data, dir);
    }
  }

  /** For example the empty member of a data set called A. */
  lemma EmptyMemberIsSplitOff()
    ensures ChangedFile(MVS, None, "'A()'") == Some(FileAt(PathData(None, ["A"]), ""))
  {
    var dir, inner := "'A()'", "A()";
    assert MvsText(dir) == dir;
    assert MvsBody(dir) == dir[1..|dir| - 1] == inner;
    assert Find(inner, '(') == 1;
    assert inner[..1] == "A" && inner[2..2] == "";
    OnePiece(MVS, "A");
    LastAdded(MVS, ["A"], []);
    assert [] + ["A"] == ["A"];
    hide Pieces, AddAll, StripRight, StripLeft, Find;
    assert FileMvs(None, dir) == FileMvsInner(None, inner, []);
  }
}
