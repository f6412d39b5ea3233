/**
 The laws of changing a remote path (`ChangePath` in src/engine/serverpath.cpp), for every server type: what an
 absolute text forgets, that a change can be made step by step, and what the single steps do.
 */
module PathChanges {
  import opened Options
  import opened ServerPaths
  import opened PathFormats

  predicate IsDos(t: ServerType) {
    t == DOS || t == DOS_FWD_SLASHES
  }

  predicate IsDriveColon(x: string, k: nat)
    requires k < |x|
  {
    && x[k] == ':' && (k + 1 == |x| || x[k + 1] == '/' || x[k + 1] == '\\')
    && forall j :: 0 <= j < k ==> x[j] != ':' && x[j] != '/' && x[j] != '\\'
  }

  /** A drive: the first colon stands in front of the first separator or at the end. */
  predicate HasDrive(x: string) {
    exists k :: 0 < k < |x| && IsDriveColon(x, k)
  }

  /** A single quote, possibly behind the double quotes of some servers. */
  predicate BeginsQuoted(x: string) {
    exists k :: 0 <= k < |x| && x[k] == '\'' && forall j :: 0 <= j < k ==> x[j] == MVSQUOTE
  }

  /** The text does not start from the path it is applied to. */
  predicate IsAbsolute(t: ServerType, x: string) {
    if x == "" then false else
    match t
    case VMS => '[' in x
    case DOS => HasDrive(x)
    case DOS_FWD_SLASHES => HasDrive(x)
    case MVS => BeginsQuoted(x)
    case HPNONSTOP => x[0] == '\\'
    case VXWORKS => x[0] == ':'
    case DOS_VIRTUAL => x[0] == '\\'
    case _ => x[0] == '/'
  }

  /** The text starts from the path it is applied to. */
  predicate IsRelative(t: ServerType, x: string) {
    if x == "" then false else
    match t
    case VMS => '[' !in x && ']' !in x
    case MVS => x[0] !in {MVSQUOTE, '\''} && Last(x) !in {MVSQUOTE, '\'', ')'}
    case DOS => !HasDrive(x) && !IsSep(t, x[0])
    case DOS_FWD_SLASHES => !HasDrive(x) && !IsSep(t, x[0])
    case _ => !IsAbsolute(t, x)
  }

  /** A data set that is not a prefix of others cannot be changed, not even by an absolute text. */
  predicate IsWholeDataSet(t: ServerType, data: Option<PathData>) {
    t == MVS && data.Some? && data.value.prefix.None?
  }

  // ---- An absolute text ----

  lemma FindIs(s: string, c: char, n: nat)
    requires n <= |s| && (forall k :: 0 <= k < n ==> s[k] != c) && (n < |s| ==> s[n] == c)
    ensures Find(s, c) == n
  {
    hide Find;
  }

  lemma SepsOfDos(t: ServerType)
    requires IsDos(t)
    ensures forall c :: IsSep(t, c) <==> c == '\\' || c == '/'
  {
  }

  lemma DriveIs(t: ServerType, x: string)
    requires IsDos(t)
    ensures IsAbsoluteDos(t, x) <==> HasDrive(x)
  {
    var colon, sep := Find(x, ':'), FirstSep(t, x);
    SepsOfDos(t);
    hide Find, FirstSep, IsSep;
    if HasDrive(x) {
      var k :| 0 < k < |x| && IsDriveColon(x, k);
      FindIs(x, ':', k);
    }
    if IsAbsoluteDos(t, x) {
      assert IsDriveColon(x, colon);
    }
  }

  lemma {:induction false} QuotesAreStripped(x: string)
    ensures StripLeft(x, MVSQUOTE) != "" ==> StripLeft(x, MVSQUOTE)[0] != MVSQUOTE
    ensures BeginsQuoted(x) <==>
      StripLeft(x, MVSQUOTE) != "" && StripLeft(x, MVSQUOTE)[0] == '\''
  {
    if x != "" && x[0] == MVSQUOTE {
      QuotesAreStripped(x[1..]);
      var s := StripLeft(x, MVSQUOTE);
      assert s == StripLeft(x[1..], MVSQUOTE);
      hide StripLeft;
      if s != "" && s[0] == '\'' {
        var k :| 0 <= k < |x[1..]| && x[1..][k] == '\'' && forall j :: 0 <= j < k ==> x[1..][j] == MVSQUOTE;
        assert x[k + 1] == '\'' && forall j :: 0 <= j < k + 1 ==> x[j] == MVSQUOTE by {
          forall j | 0 <= j < k + 1 ensures x[j] == MVSQUOTE {
            if j > 0 {
              assert x[1..][j - 1] == MVSQUOTE;
            }
          }
        }
      }
      if k :| 0 <= k < |x| && x[k] == '\'' && forall j :: 0 <= j < k ==> x[j] == MVSQUOTE {
        assert x[1..][k - 1] == '\'' && forall j :: 0 <= j < k - 1 ==> x[1..][j] == MVSQUOTE;
      }
    }
  }

  lemma {:induction false} StripRightKeepsFirst(x: string)
    ensures x != "" && x[0] != MVSQUOTE ==> StripRight(x, MVSQUOTE) != "" && StripRight(x, MVSQUOTE)[0] == x[0]
  {
    if x != "" && x[|x| - 1] == MVSQUOTE {
      StripRightKeepsFirst(x[..|x| - 1]);
    }
  }

  lemma MvsAbsolute(data: Option<PathData>, x: string)
    requires IsAbsolute(MVS, x)
    ensures ChangedMvs(data, x) == if IsWholeDataSet(MVS, data) then None else ChangedMvs(None, x)
  {
    QuotesAreStripped(x);
    StripRightKeepsFirst(StripLeft(x, MVSQUOTE));
    hide StripLeft, StripRight, Segmentized, Finish;
  }

  /** What an absolute text leaves of the old path: at most the prefix, if it has none of its own. */
  lemma AbsoluteForgets(t: ServerType, data: Option<PathData>, x: string)
    requires IsAbsolute(t, x)
    ensures
      var r, p := Changed(t, data, x), Parsed(t, x);
      if IsWholeDataSet(t, data) || p.None? then r.None?
      else if p.value.prefix.Some? || t in {MVS, CYGWIN} then r == p
      else r == Some(p.value.(prefix := PrefixOf(data)))
  {
    hide Segmentized, Find, FindLast, FirstSep;
    if IsDos(t) {
      DriveIs(t, x);
    } else if t == MVS {
      MvsAbsolute(data, x);
    }
  }

  /** So, but for the device on VMS and for whole data sets, the old path does not matter. */
  lemma AbsoluteIsParsed(t: ServerType, data: PathData, x: string)
    requires IsAbsolute(t, x) && Canonical(t, data) && !IsWholeDataSet(t, Some(data)) && (t == VMS ==> x[0] != '[')
    ensures Changed(t, Some(data), x) == Parsed(t, x)
  {
    AbsoluteForgets(t, Some(data), x);
    hide IsAbsolute, AreSegments, Parsed, Changed;
  }

  // ---- A relative text ----

  /** A relative text needs a path to start from, on MVS a prefix of data sets. */
  predicate NeedsPath(t: ServerType, data: Option<PathData>) {
    match t
    case VMS => false
    case DOS => false
    case DOS_FWD_SLASHES => false
    case HPNONSTOP => false
    case _ => data.None? || IsWholeDataSet(t, data)
  }

  function PrefixAfter(t: ServerType, prefix: Option<string>, x: string): Option<string>
    requires x != ""
  {
    if t == MVS then if Last(x) == '.' then Some(".") else None else prefix
  }

  lemma {:induction false} NothingToStrip(x: string)
    requires x != "" && x[0] != MVSQUOTE && Last(x) != MVSQUOTE
    ensures StripRight(StripLeft(x, MVSQUOTE), MVSQUOTE) == x
  {
  }

  lemma RelativeMvs(data: Option<PathData>, x: string)
    requires IsRelative(MVS, x)
    ensures ChangedMvs(data, x) ==
      if NeedsPath(MVS, data) then None else Finish(MVS, PrefixAfter(MVS, None, x), Segmentized(MVS, x, SegmentsOf(data)))
  {
    NothingToStrip(x);
    hide StripLeft, StripRight, Segmentized, Finish;
  }

  lemma NoBrackets(x: string)
    requires '[' !in x && ']' !in x
    ensures Find(x, '[') == |x| && FindLast(x, ']') == 0
  {
    hide Find, FindLast;
  }

  /** What is common to relative changes. */
  lemma RelativeIs(t: ServerType, data: Option<PathData>, x: string)
    requires IsRelative(t, x)
    ensures Changed(t, data, x) ==
      if NeedsPath(t, data) then None else Finish(t, PrefixAfter(t, PrefixOf(data), x), Segmentized(t, x, SegmentsOf(data)))
  {
    hide Segmentized, Finish;
    if IsDos(t) {
      DriveIs(t, x);
    } else if t == MVS {
      RelativeMvs(data, x);
    } else if t == VMS {
      NoBrackets(x);
    } else if t == HPNONSTOP || t == VXWORKS || t == CYGWIN {
    } else {
      assert IsSep(t, x[0]) <==> IsAbsolute(t, x);
    }
  }

  predicate EndsInSep(t: ServerType, a: string) {
    a != "" && IsSep(t, Last(a))
  }

  lemma FirstSepOfMore(t: ServerType, a: string, b: string)
    requires FirstSep(t, a) < |a|
    ensures FirstSep(t, a + b) == FirstSep(t, a)
  {
    var n := FirstSep(t, a);
    assert (a + b)[..n] == a[..n] && (a + b)[n] == a[n];
    hide FirstSep, IsSep;
    FirstSepIs(t, a + b, n);
  }

  lemma {:induction false} PiecesOfMore(t: ServerType, a: string, b: string)
    requires a == "" || EndsInSep(t, a)
    ensures Pieces(t, a + b) == Pieces(t, a) + Pieces(t, b)
    decreases |a|
  {
    if a == "" {
      assert a + b == b;
    } else {
      var n := FirstSep(t, a);
      assert n < |a| by {
        assert IsSep(t, a[|a| - 1]);
      }
      RestOfMore(t, a, b, n);
      FirstPiece(t, a, n);
      FirstSepOfMore(t, a, b);
      FirstPiece(t, a + b, n);
      PiecesOfMore(t, a[n + 1..], b);
      hide *;
      Regrouped(if n == 0 then [] else [a[..n]], Pieces(t, a[n + 1..]), Pieces(t, b));
    }
  }

  lemma Regrouped(first: seq<string>, p: seq<string>, q: seq<string>)
    ensures first + (p + q) == first + p + q
  {
  }

  lemma FirstPiece(t: ServerType, a: string, n: nat)
    requires n == FirstSep(t, a) < |a|
    ensures Pieces(t, a) == (if n == 0 then [] else [a[..n]]) + Pieces(t, a[n + 1..])
  {
    PiecesUnfold(t, a);
    hide Pieces, FirstSep;
  }

  lemma RestOfMore(t: ServerType, a: string, b: string, n: nat)
    requires n < |a| && EndsInSep(t, a)
    ensures (a + b)[n + 1..] == a[n + 1..] + b && (a + b)[..n] == a[..n]
    ensures a[n + 1..] == "" || EndsInSep(t, a[n + 1..])
  {
  }

  lemma {:induction false} AddAllOfMore(t: ServerType, p: seq<string>, q: seq<string>, segments: seq<string>, append: bool)
    requires append ==> segments != [] && TraitsOf(t).separatorEscape.Some?
    requires AddAll(t, p, segments, append).Some?
    ensures AddAll(t, p + q, segments, append) == AddAll(t, q, AddAll(t, p, segments, append).value, false)
    decreases |p|
  {
    if p == [] {
      assert p + q == q;
    } else {
      assert (p + q)[0] == p[0] && (p + q)[1..] == p[1..] + q;
      if IsDots(t, p[0]) {
        AddAllOfMore(t, p[1..], q, if p[0] == ".." && segments != [] then segments[..|segments| - 1] else segments, false);
      } else {
        AddAllOfMore(t, p[1..], q, Pushed(t, p[0], segments, append), EndsEscaped(t, p[0]));
      }
    }
  }

  lemma SegmentsOfMore(t: ServerType, a: string, b: string, segments: seq<string>)
    requires (a == "" || EndsInSep(t, a)) && Segmentized(t, a, segments).Some?
    ensures Segmentized(t, a + b, segments) == Segmentized(t, b, Segmentized(t, a, segments).value)
  {
    PiecesOfMore(t, a, b);
    AddAllOfMore(t, Pieces(t, a), Pieces(t, b), segments, false);
    hide Pieces, AddAll;
  }

  lemma DriveOfMore(t: ServerType, a: string, b: string)
    requires IsDos(t) && EndsInSep(t, a)
    ensures HasDrive(a + b) <==> HasDrive(a)
  {
    SepsOfDos(t);
    hide IsSep;
    var c := a + b;
    if HasDrive(a) {
      var k :| 0 < k < |a| && IsDriveColon(a, k);
      assert IsDriveColon(c, k);
    }
    if HasDrive(c) {
      var k :| 0 < k < |c| && IsDriveColon(c, k);
      assert c[|a| - 1] == Last(a);
      assert k < |a| - 1 && k + 1 < |a|;
      assert forall j :: 0 <= j < |a| ==> c[j] == a[j];
      assert c[k + 1] == a[k + 1];
      assert IsDriveColon(a, k);
    }
  }

  lemma RelativeOfMore(t: ServerType, a: string, b: string)
    requires IsRelative(t, a) && EndsInSep(t, a) && IsRelative(t, b)
    ensures IsRelative(t, a + b) && Last(a + b) == Last(b)
  {
    assert (a + b)[0] == a[0];
    if IsDos(t) {
      DriveOfMore(t, a, b);
    }
    hide HasDrive, EndsInSep;
  }

  lemma RelativeStepwise(t: ServerType, data: Option<PathData>, a: string, b: string)
    requires IsRelative(t, a) && EndsInSep(t, a) && IsRelative(t, b) && Changed(t, data, a).Some?
    ensures Changed(t, data, a + b) == Changed(t, Changed(t, data, a), b)
  {
    RelativeOfMore(t, a, b);
    RelativeIs(t, data, a);
    RelativeIs(t, data, a + b);
    RelativeIs(t, Changed(t, data, a), b);
    if !NeedsPath(t, data) && Segmentized(t, a, SegmentsOf(data)).Some? {
      SegmentsOfMore(t, a, b, SegmentsOf(data));
      assert t == MVS ==> Last(a) == '.';
    }
    hide Changed, Segmentized, IsRelative, EndsInSep, TraitsOf;
  }

  // ---- Step by step ----

  lemma StepFrom(t: ServerType, prefix: Option<string>, a: string, b: string, segments: seq<string>)
    requires t != MVS && (a == "" || EndsInSep(t, a)) && IsRelative(t, b) && Finish(t, prefix, Segmentized(t, a, segments)).Some?
    ensures Finish(t, prefix, Segmentized(t, a + b, segments)) == Changed(t, Finish(t, prefix, Segmentized(t, a, segments)), b)
  {
    RelativeIs(t, Finish(t, prefix, Segmentized(t, a, segments)), b);
    SegmentsOfMore(t, a, b, segments);
    hide Changed, Segmentized, IsRelative, EndsInSep, TraitsOf;
  }

  lemma BehindFirst(t: ServerType, a: string, b: string, n: nat)
    requires n <= |a| && EndsInSep(t, a)
    ensures (a + b)[n..] == a[n..] + b && (a[n..] == "" || EndsInSep(t, a[n..]))
  {
  }

  lemma DosStepwise(t: ServerType, data: Option<PathData>, a: string, b: string)
    requires IsDos(t) && !IsRelative(t, a) && EndsInSep(t, a) && IsRelative(t, b) && Changed(t, data, a).Some?
    ensures Changed(t, data, a + b) == Changed(t, Changed(t, data, a), b)
  {
    assert (a + b)[0] == a[0] && a[0..] == a;
    DriveIs(t, a);
    DriveIs(t, a + b);
    DriveOfMore(t, a, b);
    BehindFirst(t, a, b, 1);
    hide Segmentized, Finish, IsAbsoluteDos, HasDrive, IsSep;
    if IsAbsoluteDos(t, a) {
      StepFrom(t, PrefixOf(data), a, b, []);
    } else {
      StepFrom(t, PrefixOf(data), a[1..], b, [SegmentsOf(data)[0]]);
    }
  }

  lemma CygwinStepwise(data: Option<PathData>, a: string, b: string)
    requires IsAbsolute(CYGWIN, a) && EndsInSep(CYGWIN, a) && IsRelative(CYGWIN, b)
    ensures Changed(CYGWIN, data, a + b) == Changed(CYGWIN, Changed(CYGWIN, data, a), b)
  {
    assert (a + b)[0] == a[0] && (a + b)[1] == if |a| > 1 then a[1] else b[0];
    BehindFirst(CYGWIN, a, b, 1);
    hide Segmentized;
    if |a| > 1 && a[1] == '/' {
      RootedIsSome(CYGWIN, Some("/"), a[1..]);
      StepFrom(CYGWIN, Some("/"), a[1..], b, []);
    } else {
      RootedIsSome(CYGWIN, None, a);
      StepFrom(CYGWIN, None, a, b, []);
    }
  }

  lemma {:induction false} PiecesAreAdded(t: ServerType, pieces: seq<string>, segments: seq<string>)
    requires TraitsOf(t).separatorEscape.None?
    ensures AddAll(t, pieces, segments, false).Some?
    decreases |pieces|
  {
    if pieces != [] {
      if IsDots(t, pieces[0]) {
        PiecesAreAdded(t, pieces[1..], if pieces[0] == ".." && segments != [] then segments[..|segments| - 1] else segments);
      } else {
        PiecesAreAdded(t, pieces[1..], Pushed(t, pieces[0], segments, false));
      }
    }
  }

  lemma RootedIsSome(t: ServerType, prefix: Option<string>, x: string)
    requires TraitsOf(t).hasRoot
    ensures Finish(t, prefix, Segmentized(t, x, [])).Some?
  {
    PiecesAreAdded(t, Pieces(t, x), []);
    hide Pieces, AddAll;
  }

  /** An absolute text on VxWorks is a device between colons, and a text relative to it. */
  lemma VxWorksIs(data: Option<PathData>, x: string)
    requires IsAbsolute(VXWORKS, x)
    ensures var n := Find(x[1..], ':');
      Changed(VXWORKS, data, x) ==
        if n == |x[1..]| || n == 0 then None else Finish(VXWORKS, Some(x[..n + 2]), Segmentized(VXWORKS, x[n + 2..], []))
  {
    hide Find, Segmentized, Finish;
  }

  lemma VxWorksStepwise(data: Option<PathData>, a: string, b: string)
    requires IsAbsolute(VXWORKS, a) && EndsInSep(VXWORKS, a) && IsRelative(VXWORKS, b) && Changed(VXWORKS, data, a).Some?
    ensures Changed(VXWORKS, data, a + b) == Changed(VXWORKS, Changed(VXWORKS, data, a), b)
  {
    var n := Find(a[1..], ':');
    VxWorksIs(data, a);
    VxWorksIs(data, a + b);
    assert (a + b)[1..] == a[1..] + b && (a + b)[0] == a[0];
    FindInMore(a[1..], b, ':');
    BehindFirst(VXWORKS, a, b, n + 2);
    assert (a + b)[..n + 2] == a[..n + 2];
    hide Find, Segmentized, Finish, EndsInSep, Changed, IsRelative;
    StepFrom(VXWORKS, Some(a[..n + 2]), a[n + 2..], b, []);
  }

  lemma FindInMore(a: string, b: string, c: char)
    requires Find(a, c) < |a|
    ensures Find(a + b, c) == Find(a, c)
  {
    var n := Find(a, c);
    hide Find;
    FindIs(a + b, c, n);
  }

  /** A change by a text can be made step by step: each step ends in a separator and is followed by a relative one. */
  lemma ChangeStepwise(t: ServerType, data: Option<PathData>, a: string, b: string)
    requires EndsInSep(t, a) && IsRelative(t, b) && Changed(t, data, a).Some?
    requires t == VMS || t == MVS ==> IsRelative(t, a)
    ensures Changed(t, data, a + b) == Changed(t, Changed(t, data, a), b)
  {
    if IsRelative(t, a) {
      RelativeStepwise(t, data, a, b);
    } else if IsDos(t) {
      DosStepwise(t, data, a, b);
    } else if t == CYGWIN {
      CygwinStepwise(data, a, b);
    } else if t == VXWORKS {
      VxWorksStepwise(data, a, b);
    } else {
      assert (a + b)[0] == a[0];
      hide Segmentized, Finish, EndsInSep;
      StepFrom(t, PrefixOf(data), a, b, []);
    }
  }

  lemma {:induction false} PiecesOfSeps(t: ServerType, u: string)
    requires forall k :: 0 <= k < |u| ==> IsSep(t, u[k])
    ensures Pieces(t, u) == []
    decreases |u|
  {
    if u != "" {
      PiecesOfSeps(t, u[1..]);
    }
  }

  lemma SegmentsOfSeps(t: ServerType, u: string, segments: seq<string>)
    requires forall k :: 0 <= k < |u| ==> IsSep(t, u[k])
    ensures Segmentized(t, u, segments) == Some(segments)
  {
    PiecesOfSeps(t, u);
  }

  /** Separators alone: the root, on DOS that of the drive; elsewhere they do nothing, but are an error on MVS. */
  lemma SeparatorsAlone(t: ServerType, data: PathData, u: string)
    requires u != "" && (forall k :: 0 <= k < |u| ==> IsSep(t, u[k])) && (TraitsOf(t).hasRoot || data.segments != [])
    ensures Changed(t, Some(data), u) ==
      match t
      case MVS => if data.prefix.Some? then Some(data.(prefix := Some("."))) else None
      case DOS => Some(data.(segments := data.segments[..1]))
      case DOS_FWD_SLASHES => Some(data.(segments := data.segments[..1]))
      case CYGWIN => Some(PathData(if |u| > 1 then Some("/") else None, []))
      case VMS => Some(data)
      case HPNONSTOP => Some(data)
      case VXWORKS => Some(data)
      case _ => Some(data.(segments := []))
  {
    assert IsSep(t, u[0]) && IsSep(t, Last(u));
    SegmentsOfSeps(t, u, data.segments);
    SegmentsOfSeps(t, u, []);
    if IsDos(t) {
      SegmentsOfSeps(t, u[1..], [data.segments[0]]);
      assert data.segments[..1] == [data.segments[0]];
      SepsOfDos(t);
      DriveIs(t, u);
      hide Segmentized, IsAbsoluteDos, IsSep;
    } else if t == CYGWIN {
      SegmentsOfSeps(t, u[1..], []);
      hide Segmentized;
    } else if t == HPNONSTOP || t == VXWORKS || t == VMS || t == MVS {
      RelativeIs(t, Some(data), u);
      hide Segmentized, Changed;
    } else {
      hide Segmentized;
    }
  }

  /** A trailing separator does not matter, except on MVS. */
  lemma TrailingSeparator(t: ServerType, data: Option<PathData>, x: string, c: char)
    requires t != MVS && IsRelative(t, x) && IsRelative(t, x + [c]) && IsSep(t, c)
    ensures Changed(t, data, x + [c]) == Changed(t, data, x)
  {
    RelativeIs(t, data, x);
    RelativeIs(t, data, x + [c]);
    SepBehind(t, x, c);
    hide Pieces, IsRelative, Changed, AddAll, NeedsPath;
  }

  lemma OneMoreSep(t: ServerType, x: string, c: char)
    requires x != "" && IsSep(t, c) && FirstSep(t, x) == |x|
    ensures Pieces(t, x + [c]) == Pieces(t, x)
  {
    var n := |x|;
    assert (x + [c])[..n] == x && (x + [c])[n + 1..] == "" && (x + [c])[n] == c;
    assert Pieces(t, "") == [];
    assert NoSep(t, x);
    hide FirstSep, IsSep, Pieces;
    FirstSepIs(t, x + [c], n);
    PiecesUnfold(t, x);
    PiecesUnfold(t, x + [c]);
  }

  lemma {:induction false} SepBehind(t: ServerType, x: string, c: char)
    requires IsSep(t, c)
    ensures Pieces(t, x + [c]) == Pieces(t, x)
    decreases |x|
  {
    if x == "" {
      PiecesOfSeps(t, [c]);
      assert x + [c] == [c] && Pieces(t, "") == [];
    } else {
      var n := FirstSep(t, x);
      hide Pieces, FirstSep, IsSep;
      if n == |x| {
        OneMoreSep(t, x, c);
      } else {
        assert (x + [c])[..n] == x[..n] && (x + [c])[n + 1..] == x[n + 1..] + [c];
        FirstSepOfMore(t, x, [c]);
        FirstPiece(t, x, n);
        FirstPiece(t, x + [c], n);
        SepBehind(t, x[n + 1..], c);
      }
    }
  }

  // ---- Single steps ----

  /** One step of a relative change: nothing, up, or down. */
  lemma OneStep(t: ServerType, data: PathData, name: string)
    requires IsRelative(t, name) && NoSep(t, name) && !EndsEscaped(t, name) && !IsWholeDataSet(t, Some(data))
    requires TraitsOf(t).hasRoot || |data.segments| > 1 || !IsDots(t, name)
    ensures
      var r, segments := Changed(t, Some(data), name), data.segments;
      var prefix := if t == MVS then None else data.prefix;
      if TraitsOf(t).hasDots && name == "." then r == Some(data)
      else if TraitsOf(t).hasDots && name == ".." then r == Some(PathData(prefix, if segments == [] then [] else segments[..|segments| - 1]))
      else r == Some(PathData(prefix, segments + [name]))
  {
    RelativeIs(t, Some(data), name);
    SplitAtSep(t, name, "");
    StepsOfPiece(t, name, data.segments);
    assert t == MVS ==> IsSep(t, '.') && Last(name) != '.' by {
      assert name[|name| - 1] == Last(name);
    }
    hide Pieces, IsRelative, Changed, AddAll, NoSep, IsSep, EndsEscaped;
  }

  lemma StepsOfPiece(t: ServerType, name: string, segments: seq<string>)
    requires !EndsEscaped(t, name)
    ensures AddAll(t, [name], segments, false) ==
      if IsDots(t, name) then Some(if name == ".." && segments != [] then segments[..|segments| - 1] else segments)
      else Some(segments + [name])
  {
    assert [name][1..] == [];
  }

  // ---- What stands around a relative text ----

  /** Behind a device, within brackets or quotes, the text is relative to the empty list of segments. */
  lemma BehindDevice(data: Option<PathData>, device: string, b: string)
    requires device != "" && ':' !in device && IsRelative(VXWORKS, b)
    ensures Changed(VXWORKS, data, ":" + device + ":" + b) == Changed(VXWORKS, Some(PathData(Some(":" + device + ":"), [])), b)
  {
    var x := ":" + device + ":" + b;
    var n := |device|;
    assert x[1..] == device + ":" + b && x[1..][n] == ':';
    FindIs(x[1..], ':', n);
    assert x[..n + 2] == ":" + device + ":" && x[n + 2..] == b;
    RelativeIs(VXWORKS, Some(PathData(Some(":" + device + ":"), [])), b);
    hide Segmentized, Find;
  }

  lemma WithinBrackets(data: Option<PathData>, device: string, b: string)
    requires '[' !in device && IsRelative(VMS, b)
    ensures Changed(VMS, data, device + "[" + b + "]") ==
      Changed(VMS, Some(PathData(if device != "" then Some(device) else PrefixOf(data), [])), b)
  {
    var x := device + "[" + b + "]";
    var n := |device|;
    assert x[n] == '[' && x[|x| - 1] == ']' && x[..n] == device && x[n + 1..|x| - 1] == b;
    FindIs(x, '[', n);
    assert FindLast(x, ']') == |x|;
    RelativeIs(VMS, Some(PathData(if device != "" then Some(device) else PrefixOf(data), [])), b);
    hide Segmentized, Find, FindLast;
  }

  lemma WithinQuotes(data: Option<PathData>, b: string)
    requires !IsWholeDataSet(MVS, data) && IsRelative(MVS, b)
    ensures Changed(MVS, data, "'" + b + "'") == Changed(MVS, Some(PathData(Some("."), [])), b)
  {
    var x := "'" + b + "'";
    NothingToStrip(x);
    assert x[1..|x| - 1] == b && Last(x) == '\'';
    RelativeIs(MVS, Some(PathData(Some("."), [])), b);
    hide Segmentized, StripLeft, StripRight;
  }

  /** A drive, or a system on HP NonStop, becomes the first segment. */
  lemma FromTheTop(t: ServerType, data: Option<PathData>, x: string)
    requires t in {DOS, DOS_FWD_SLASHES, HPNONSTOP} && IsAbsolute(t, x) && NoSep(t, x)
    ensures Changed(t, data, x) == Some(PathData(PrefixOf(data), [x]))
  {
    SplitAtSep(t, x, "");
    assert !IsDots(t, x);
    StepsOfPiece(t, x, []);
    assert [] + [x] == [x];
    if IsDos(t) {
      DriveIs(t, x);
    }
    hide Pieces, AddAll, NoSep, IsSep, EndsEscaped, HasDrive, IsAbsoluteDos;
  }

  /** On VMS a piece that ends in an escape goes on behind the separator. */
  lemma EscapeJoins(data: PathData, x: string, y: string)
    requires IsRelative(VMS, x) && NoSep(VMS, x) && IsRelative(VMS, y) && NoSep(VMS, y) && Last(y) != '^'
    ensures Changed(VMS, Some(data), x + "^." + y) == Some(data.(segments := data.segments + [x + "." + y]))
  {
    var text, first := x + "^." + y, x + "^";
    assert text == first + [Sep(VMS)] + y;
    RelativeIs(VMS, Some(data), text);
    SplitAtSep(VMS, first, y);
    SplitAtSep(VMS, y, "");
    JoinedPieces(x, y, data.segments);
    hide Pieces, AddAll, NoSep, IsRelative, Changed;
  }

  lemma JoinedPieces(x: string, y: string, segments: seq<string>)
    requires y != "" && Last(y) != '^'
    ensures AddAll(VMS, [x + "^", y], segments, false) == Some(segments + [x + "." + y])
  {
    var first := x + "^";
    assert first[..|first| - 1] == x && Unescaped(VMS, first) == x + ".";
    var pushed := segments + [x + "."];
    assert pushed[..|pushed| - 1] == segments;
    AddAllUnfolds(VMS, first, [y], segments, false);
    AddAllUnfolds(VMS, y, [], pushed, true);
    assert [first] + [y] == [first, y] && [y] + [] == [y];
    assert x + "." + y == (x + ".") + y;
  }

  // ---- The parent ----

  /** Only a path with something to drop has a parent; it lacks the last segment, and on MVS is a prefix of data sets. */
  lemma ParentIs(t: ServerType, data: PathData, name: string)
    ensures Parent(t, data).None? <==> |data.segments| <= (if t in {VMS, DOS, MVS, HPNONSTOP, DOS_FWD_SLASHES} then 1 else 0)
    ensures
      var child := data.(segments := data.segments + [name]);
      Parent(t, child).Some? ==> Parent(t, child) == Some(if t == MVS then data.(prefix := Some(".")) else data)
  {
    assert (data.segments + [name])[..|data.segments|] == data.segments;
  }

  // ---- What is printed ----

  lemma FourStrings(a: string, sep: string, b: string, c: string)
    ensures a + sep + (b + sep + c) == a + sep + b + sep + c
  {
  }

  lemma {:induction false} JoinedMore(t: ServerType, segments: seq<string>, name: string)
    ensures Joined(t, segments + [name]) == Joined(t, segments) + (if segments == [] then "" else [Sep(t)]) + Escaped(t, name)
  {
    hide Escaped;
    if segments == [] {
      assert segments + [name] == [name];
    } else if |segments| == 1 {
      assert (segments + [name])[1..] == [name] && (segments + [name])[0] == segments[0];
    } else {
      var rest := segments[1..];
      JoinedMore(t, rest, name);
      assert (segments + [name])[1..] == rest + [name] && (segments + [name])[0] == segments[0];
      assert Joined(t, segments) == Escaped(t, segments[0]) + [Sep(t)] + Joined(t, rest);
      assert Joined(t, segments + [name]) == Escaped(t, segments[0]) + [Sep(t)] + Joined(t, rest + [name]);
      hide *;
      FourStrings(Escaped(t, segments[0]), [Sep(t)], Joined(t, rest), Escaped(t, name));
    }
  }

  lemma JoinedOfFew(t: ServerType, x: string)
    requires NoSep(t, x)
    ensures Joined(t, []) == "" && Joined(t, [x]) == x
  {
    EscapedIsSame(t, x);
  }

  predicate IsPlain(t: ServerType) {
    t != VMS && t != MVS
  }

  /** What is around the segments, for types without brackets and quotes. */
  lemma PlainFrame(t: ServerType, data: PathData)
    requires IsPlain(t) && (if TraitsOf(t).hasRoot then data.prefix.None? || t == VXWORKS || t == CYGWIN else data.segments != [])
    requires t == VXWORKS ==> data.prefix.Some?
    ensures Opening(t, data) == data.prefix.GetOr("") + (if TraitsOf(t).hasRoot && t != VXWORKS then [Sep(t)] else "")
    ensures Closing(t, data) == if IsDos(t) && |data.segments| == 1 then [Sep(t)] else ""
  {
    var p := data.prefix.GetOr("");
    assert Text(TraitsOf(t).leftEnclosure) == "" && Text(TraitsOf(t).rightEnclosure) == "" && !TraitsOf(t).prefixIsSuffix;
    assert LeadingSep(t, data) <==> TraitsOf(t).hasRoot && t != VXWORKS;
    Padded(p, [Sep(t)]);
    hide TraitsOf, LeadingSep, Text, Sep;
  }

  lemma Padded(p: string, s: string)
    ensures p + "" + s == p + s && p + "" + "" == p && p + "" == p && "" + "" + s == s && "" + "" == ""
  {
  }

  lemma SepIs(t: ServerType)
    ensures Sep(t) ==
      match t
      case VMS => '.'
      case MVS => '.'
      case HPNONSTOP => '.'
      case DOS => '\\'
      case DOS_VIRTUAL => '\\'
      case _ => '/'
  {
  }

  /** The shortest paths: a root alone is a separator, behind the prefix if there is one; a drive is followed by one. */
  lemma PrintedTop(t: ServerType, prefix: Option<string>, x: string)
    requires IsPlain(t) && NoSep(t, x) && (t == VXWORKS ==> prefix.Some?)
    ensures
      if t == VXWORKS then Printed(t, PathData(prefix, [])) == prefix.value
      else if t == CYGWIN then Printed(t, PathData(prefix, [])) == prefix.GetOr("") + "/"
      else if TraitsOf(t).hasRoot then Printed(t, PathData(None, [])) == [Sep(t)]
      else Printed(t, PathData(None, [x])) == x + if IsDos(t) then [Sep(t)] else ""
  {
    var segments := if TraitsOf(t).hasRoot then [] else [x];
    var p := if t == VXWORKS || t == CYGWIN then prefix else None;
    PlainFrame(t, PathData(p, segments));
    JoinedOfFew(t, x);
    SepIs(t);
    Padded(x, [Sep(t)]);
    Padded(p.GetOr(""), [Sep(t)]);
    Padded("", [Sep(t)]);
    PrintedIs(t, PathData(p, segments));
    hide Opening, Closing, Joined, NoSep, Sep, Printed;
  }

  /** A child is printed as its parent, a separator if there is none yet, and the name. */
  lemma PrintedChild(t: ServerType, data: PathData, name: string)
    requires IsPlain(t) && NoSep(t, name)
    requires if TraitsOf(t).hasRoot then data.prefix.None? || t == VXWORKS || t == CYGWIN else data.segments != []
    requires t == VXWORKS ==> data.prefix.Some?
    ensures Printed(t, data.(segments := data.segments + [name])) ==
      Printed(t, data) + (if data.segments == [] || (IsDos(t) && |data.segments| == 1) then "" else [Sep(t)]) + name
  {
    var child := data.(segments := data.segments + [name]);
    JoinedMore(t, data.segments, name);
    EscapedIsSame(t, name);
    JoinedOfFew(t, name);
    PlainFrame(t, data);
    PlainFrame(t, child);
    PrintedIs(t, data);
    PrintedIs(t, child);
    Strings(Opening(t, data), Joined(t, data.segments), [Sep(t)], name);
    assert IsDos(t) ==> !TraitsOf(t).hasRoot;
    hide *;
  }

  lemma Strings(o: string, j: string, sep: string, name: string)
    ensures o + (j + "" + name) + "" == o + j + "" + "" + name
    ensures o + (j + sep + name) + "" == o + j + "" + sep + name
    ensures o + (j + sep + name) + "" == o + j + sep + "" + name
  {
    assert o + (j + sep + name) == o + j + sep + name;
  }

  /** On VMS the segments stand in brackets behind the device, on MVS in quotes, with a dot for a prefix of data sets. */
  lemma PrintedWithin(data: PathData)
    requires data.segments != []
    ensures Printed(VMS, data) == data.prefix.GetOr("") + "[" + Joined(VMS, data.segments) + "]"
    ensures Printed(MVS, data) == "'" + Joined(MVS, data.segments) + data.prefix.GetOr("") + "'"
    ensures forall name :: NoSep(VMS, name) ==> Joined(VMS, [name]) == name && Joined(VMS, data.segments + [name]) == Joined(VMS, data.segments) + "." + name
    ensures forall name :: NoSep(MVS, name) ==> Joined(MVS, [name]) == name && Joined(MVS, data.segments + [name]) == Joined(MVS, data.segments) + "." + name
  {
    WithinFrame(data);
    forall t, name | (t == VMS || t == MVS) && NoSep(t, name)
      ensures Joined(t, [name]) == name && Joined(t, data.segments + [name]) == Joined(t, data.segments) + "." + name
    {
      JoinedOfFew(t, name);
      JoinedMore(t, data.segments, name);
      EscapedIsSame(t, name);
      SepIs(t);
      hide Joined, Escaped, NoSep, Sep;
    }
    hide Joined, NoSep, Opening, Closing;
    var j := Joined(MVS, data.segments);
    assert "'" + j + (data.prefix.GetOr("") + "'") == "'" + j + data.prefix.GetOr("") + "'";
  }

  lemma WithinFrame(data: PathData)
    requires data.segments != []
    ensures Opening(VMS, data) == data.prefix.GetOr("") + "[" && Closing(VMS, data) == "]"
    ensures Opening(MVS, data) == "'" && Closing(MVS, data) == data.prefix.GetOr("") + "'"
  {
    Padded(data.prefix.GetOr(""), "[");
    Padded("", "'");
    Padded("", "]");
    Padded(data.prefix.GetOr(""), "'");
  }
}
