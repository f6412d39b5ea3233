/**
 The textual forms of remote paths (`GetPath`, `ChangePath`, `Segmentize` in src/engine/serverpath.cpp) for
 every server type, with the type fixed; PathFiles.dfy has the changes by a text that ends in a file name.

 The main results: what parsing can produce is exactly what printing and parsing again gives back, and every
 change of a path stays within it.
 */
module PathFormats {
  import opened Options
  import opened ServerPaths

  // ---- Characters and positions ----

  const MVSQUOTE: char := '\U{DC}'

  function Sep(t: ServerType): char {
    TraitsOf(t).separators[0]
  }

  predicate IsSep(t: ServerType, c: char) {
    c in TraitsOf(t).separators
  }

  /** The first position of a character, or the length. */
  function Find(s: string, c: char): (r: nat)
    ensures r <= |s| && (r < |s| ==> s[r] == c) && forall k :: 0 <= k < r ==> s[k] != c
  {
    if s == "" || s[0] == c then 0 else 1 + Find(s[1..], c)
  }

  /** The position behind the last one of a character, or 0. */
  function FindLast(s: string, c: char): (r: nat)
    ensures r <= |s| && (r > 0 ==> s[r - 1] == c) && forall k :: r <= k < |s| ==> s[k] != c
  {
    if s == "" then 0 else if s[|s| - 1] == c then |s| else FindLast(s[..|s| - 1], c)
  }

  function FirstSep(t: ServerType, s: string): (r: nat)
    ensures r <= |s| && (r < |s| ==> IsSep(t, s[r])) && forall k :: 0 <= k < r ==> !IsSep(t, s[k])
  {
    if s == "" || IsSep(t, s[0]) then 0 else 1 + FirstSep(t, s[1..])
  }

  // ---- Splitting into segments ----

  /** The longest stretches without separators. */
  function Pieces(t: ServerType, s: string): seq<string>
    decreases |s|
  {
    var pos := FirstSep(t, s);
    if pos == |s| then if s == "" then [] else [s]
    else if pos == 0 then Pieces(t, s[1..])
    else [s[..pos]] + Pieces(t, s[pos + 1..])
  }

  /** Whether a piece has a meaning of its own. */
  predicate IsDots(t: ServerType, piece: string) {
    TraitsOf(t).hasDots && (piece == "." || piece == "..")
  }

  predicate EndsEscaped(t: ServerType, piece: string) {
    piece != "" && TraitsOf(t).separatorEscape == Some(piece[|piece| - 1])
  }

  function Unescaped(t: ServerType, piece: string): string {
    if EndsEscaped(t, piece) then piece[..|piece| - 1] + [Sep(t)] else piece
  }

  /** `SegmentizeAddSegment` for a piece that is not dots. */
  function Pushed(t: ServerType, piece: string, segments: seq<string>, append: bool): (r: seq<string>)
    requires append ==> segments != []
    ensures r != []
  {
    var segment := Unescaped(t, piece);
    if append then segments[..|segments| - 1] + [segments[|segments| - 1] + segment] else segments + [segment]
  }

  /** Adds all pieces; fails if the last of them ends in an escape. */
  function AddAll(t: ServerType, pieces: seq<string>, segments: seq<string>, append: bool): Option<seq<string>>
    requires append ==> segments != [] && TraitsOf(t).separatorEscape.Some?
    decreases |pieces|
  {
    if pieces == [] then if append then None else Some(segments)
    else if IsDots(t, pieces[0]) then
      AddAll(t, pieces[1..], if pieces[0] == ".." && segments != [] then segments[..|segments| - 1] else segments, false)
    else
      AddAll(t, pieces[1..], Pushed(t, pieces[0], segments, append), EndsEscaped(t, pieces[0]))
  }

  function Segmentized(t: ServerType, s: string, segments: seq<string>): Option<seq<string>> {
    AddAll(t, Pieces(t, s), segments, false)
  }

  // ---- Changing a path ----

  function Finish(t: ServerType, prefix: Option<string>, segments: Option<seq<string>>): Option<PathData> {
    if segments.None? || (!TraitsOf(t).hasRoot && segments.value == []) then None
    else Some(PathData(prefix, segments.value))
  }

  function PrefixOf(data: Option<PathData>): Option<string> {
    if data.Some? then data.value.prefix else None
  }

  function SegmentsOf(data: Option<PathData>): seq<string> {
    if data.Some? then data.value.segments else []
  }

  /** The prefix is kept by an absolute path that has none. */
  function ChangedVms(data: Option<PathData>, dir: string): Option<PathData> {
    var open, close := Find(dir, '['), FindLast(dir, ']');
    if open == |dir| then
      if close > 0 then None else Finish(VMS, PrefixOf(data), Segmentized(VMS, dir, SegmentsOf(data)))
    else if close == 0 || close - 1 <= open + 1 || close != |dir| then None
    else Finish(VMS, if open > 0 then Some(dir[..open]) else PrefixOf(data), Segmentized(VMS, dir[open + 1..close - 1], []))
  }

  predicate IsAbsoluteDos(t: ServerType, dir: string) {
    var colon := Find(dir, ':');
    0 < colon < |dir| && colon == FirstSep(t, dir) - 1
  }

  function ChangedDos(t: ServerType, data: Option<PathData>, dir: string): Option<PathData>
    requires dir != ""
  {
    if IsAbsoluteDos(t, dir) then Finish(t, PrefixOf(data), Segmentized(t, dir, []))
    else if IsSep(t, dir[0]) then
      if SegmentsOf(data) == [] then None
      else Finish(t, PrefixOf(data), Segmentized(t, dir[1..], [SegmentsOf(data)[0]]))
    else Finish(t, PrefixOf(data), Segmentized(t, dir, SegmentsOf(data)))
  }

  function StripLeft(s: string, c: char): string {
    if s != "" && s[0] == c then StripLeft(s[1..], c) else s
  }

  function StripRight(s: string, c: char): string {
    if s != "" && s[|s| - 1] == c then StripRight(s[..|s| - 1], c) else s
  }

  function Last(s: string): char
    requires s != ""
  {
    s[|s| - 1]
  }

  /** A data set without the trailing dot that stands for its being a prefix has nothing below it. */
  function ChangedMvs(data: Option<PathData>, dir: string): Option<PathData> {
    var d := StripRight(StripLeft(dir, MVSQUOTE), MVSQUOTE);
    if d == "" then None
    else if d[0] == '\'' then
      if Last(d) != '\'' then None
      else MvsInner(data, if |d| == 1 then "" else d[1..|d| - 1], [])
    else if Last(d) == '\'' || data.None? then None
    else MvsInner(data, d, SegmentsOf(data))
  }

  function MvsInner(data: Option<PathData>, d: string, segments: seq<string>): Option<PathData> {
    if d != "" && Last(d) == ')' then None
    else if data.Some? && data.value.prefix.None? then None
    else Finish(MVS, if d != "" && Last(d) == '.' then Some(".") else None, Segmentized(MVS, d, segments))
  }

  function ChangedHpNonStop(data: Option<PathData>, dir: string): Option<PathData>
    requires dir != ""
  {
    Finish(HPNONSTOP, PrefixOf(data), Segmentized(HPNONSTOP, dir, if dir[0] == '\\' then [] else SegmentsOf(data)))
  }

  function ChangedVxWorks(data: Option<PathData>, dir: string): Option<PathData>
    requires dir != ""
  {
    if dir[0] != ':' then
      if data.None? then None else Finish(VXWORKS, PrefixOf(data), Segmentized(VXWORKS, dir, SegmentsOf(data)))
    else
      var colon := 1 + Find(dir[1..], ':');
      if colon == |dir| || colon == 1 then None
      else Finish(VXWORKS, Some(dir[..colon + 1]), Segmentized(VXWORKS, dir[colon + 1..], []))
  }

  function ChangedCygwin(data: Option<PathData>, dir: string): Option<PathData>
    requires dir != ""
  {
    if dir[0] == '/' then
      if |dir| > 1 && dir[1] == '/' then Finish(CYGWIN, Some("/"), Segmentized(CYGWIN, dir[1..], []))
      else Finish(CYGWIN, None, Segmentized(CYGWIN, dir, []))
    else if data.None? then None
    else Finish(CYGWIN, PrefixOf(data), Segmentized(CYGWIN, dir, SegmentsOf(data)))
  }

  function ChangedUnix(t: ServerType, data: Option<PathData>, dir: string): Option<PathData>
    requires dir != ""
  {
    if IsSep(t, dir[0]) then Finish(t, PrefixOf(data), Segmentized(t, dir, []))
    else if data.None? then None
    else Finish(t, PrefixOf(data), Segmentized(t, dir, SegmentsOf(data)))
  }

  /** `ChangePath`: `None` is the empty path a failure leaves behind. */
  function Changed(t: ServerType, data: Option<PathData>, dir: string): Option<PathData> {
    if dir == "" then data
    else
      match t
      case VMS => ChangedVms(data, dir)
      case DOS => ChangedDos(t, data, dir)
      case DOS_FWD_SLASHES => ChangedDos(t, data, dir)
      case MVS => ChangedMvs(data, dir)
      case HPNONSTOP => ChangedHpNonStop(data, dir)
      case VXWORKS => ChangedVxWorks(data, dir)
      case CYGWIN => ChangedCygwin(data, dir)
      case _ => ChangedUnix(t, data, dir)
  }

  /** `SetPath` with the type fixed. */
  function Parsed(t: ServerType, text: string): Option<PathData> {
    Changed(t, None, text)
  }

  // ---- Printing ----

  function EscapedChar(t: ServerType, c: char): string {
    if IsSep(t, c) && TraitsOf(t).separatorEscape.Some? then [TraitsOf(t).separatorEscape.value, Sep(t)] else [c]
  }

  function Escaped(t: ServerType, s: string): string {
    if s == "" then "" else EscapedChar(t, s[0]) + Escaped(t, s[1..])
  }

  function Joined(t: ServerType, segments: seq<string>): string {
    if segments == [] then ""
    else if |segments| == 1 then Escaped(t, segments[0])
    else Escaped(t, segments[0]) + [Sep(t)] + Joined(t, segments[1..])
  }

  function Text(c: Option<char>): string {
    if c.Some? then [c.value] else ""
  }

  /** Whether a separator stands before the first segment, or for there being none. */
  predicate LeadingSep(t: ServerType, data: PathData) {
    var bare := data.prefix.None? || TraitsOf(t).separatorAfterPrefix;
    if data.segments == [] then !TraitsOf(t).hasRoot || bare else TraitsOf(t).hasRoot && bare
  }

  /** What stands before the segments. */
  function Opening(t: ServerType, data: PathData): string {
    (if TraitsOf(t).prefixIsSuffix then "" else data.prefix.GetOr("")) + Text(TraitsOf(t).leftEnclosure) +
    (if LeadingSep(t, data) then [Sep(t)] else "")
  }

  /** What stands behind the segments; a drive alone gets a separator, to mean its root. */
  function Closing(t: ServerType, data: PathData): string {
    (if TraitsOf(t).prefixIsSuffix then data.prefix.GetOr("") else "") + Text(TraitsOf(t).rightEnclosure) +
    (if (t == DOS || t == DOS_FWD_SLASHES) && |data.segments| == 1 then [Sep(t)] else "")
  }

  function Printed(t: ServerType, data: PathData): string {
    Opening(t, data) + Joined(t, data.segments) + Closing(t, data)
  }

  // ---- Canonical paths ----

  predicate NoSep(t: ServerType, s: string) {
    forall k :: 0 <= k < |s| ==> !IsSep(t, s[k])
  }

  /** What a segment may be: on VMS it may hold dots, but must not end in one or in an escape. */
  predicate IsSegment(t: ServerType, s: string) {
    && s != "" && !IsDots(t, s)
    && if t == VMS then Last(s) != '.' && Last(s) != '^' else NoSep(t, s)
  }

  predicate AreSegments(t: ServerType, segments: seq<string>) {
    forall k :: 0 <= k < |segments| ==> IsSegment(t, segments[k])
  }

  predicate IsPrefix(t: ServerType, data: PathData) {
    match t
    case VMS => data.prefix.Some? ==> data.prefix.value != "" && '[' !in data.prefix.value
    case MVS =>
      if data.prefix.Some? then data.prefix.value == "."
      else data.segments != [] && data.segments[|data.segments| - 1] != "" ==> Last(data.segments[|data.segments| - 1]) != ')'
    case VXWORKS =>
      && data.prefix.Some? && |data.prefix.value| >= 3 && data.prefix.value[0] == ':' && Last(data.prefix.value) == ':'
      && forall k :: 0 < k < |data.prefix.value| - 1 ==> data.prefix.value[k] != ':'
    case CYGWIN => data.prefix.Some? ==> data.prefix.value == "/"
    case _ => data.prefix.None?
  }

  predicate Canonical(t: ServerType, data: PathData) {
    && AreSegments(t, data.segments)
    && IsPrefix(t, data)
    && (TraitsOf(t).hasRoot || data.segments != [])
  }

  // ---- Everything a change produces is canonical ----

  lemma {:induction false} PiecesArePlain(t: ServerType, s: string)
    ensures ArePlain(t, Pieces(t, s))
    decreases |s|
  {
    var pos := FirstSep(t, s);
    if pos < |s| {
      PiecesArePlain(t, s[pos + 1..]);
    }
    hide IsSep;
  }

  lemma PiecesUnfold(t: ServerType, s: string)
    ensures
      var pos := FirstSep(t, s);
      Pieces(t, s) ==
        if pos == |s| then if s == "" then [] else [s]
        else if pos == 0 then Pieces(t, s[1..])
        else [s[..pos]] + Pieces(t, s[pos + 1..])
  {
  }

  /** If the text does not end in a separator, the last piece ends as the text does. */
  lemma {:induction false} LastPiece(t: ServerType, s: string)
    requires s != "" && !IsSep(t, Last(s))
    ensures Pieces(t, s) != [] && Pieces(t, s)[|Pieces(t, s)| - 1] != ""
    ensures Last(Pieces(t, s)[|Pieces(t, s)| - 1]) == Last(s)
    decreases |s|
  {
    var pos := FirstSep(t, s);
    PiecesUnfold(t, s);
    hide *;
    if pos < |s| {
      assert pos < |s| - 1 by {
        if pos == |s| - 1 {
          LastIsLast(s, pos);
        }
      }
      LastIsLast(s, pos + 1);
      LastPiece(t, s[pos + 1..]);
    }
  }

  lemma LastIsLast(s: string, n: nat)
    requires n < |s|
    ensures Last(s[n..]) == Last(s) && (n == |s| - 1 ==> s[n] == Last(s))
  {
  }

  /** Half-built segments: the last one is still open after an escape. */
  predicate Building(t: ServerType, segments: seq<string>, append: bool) {
    if append then segments != [] && segments[|segments| - 1] != "" && AreSegments(t, segments[..|segments| - 1])
    else AreSegments(t, segments)
  }

  lemma PushedIsBuilding(t: ServerType, piece: string, segments: seq<string>, append: bool)
    requires Building(t, segments, append) && (append ==> t == VMS)
    requires piece != "" && NoSep(t, piece) && !IsDots(t, piece)
    ensures Building(t, Pushed(t, piece, segments, append), EndsEscaped(t, piece))
  {
    var r := Pushed(t, piece, segments, append);
    var last := r[|r| - 1];
    assert Last(last) == Last(Unescaped(t, piece));
    assert !EndsEscaped(t, piece) ==> IsSegment(t, last);
    hide IsSegment;
  }

  predicate ArePlain(t: ServerType, pieces: seq<string>) {
    forall k :: 0 <= k < |pieces| ==> pieces[k] != "" && NoSep(t, pieces[k])
  }

  lemma ArePlainUnfolds(t: ServerType, pieces: seq<string>)
    requires ArePlain(t, pieces) && pieces != []
    ensures pieces[0] != "" && NoSep(t, pieces[0]) && ArePlain(t, pieces[1..])
  {
    hide NoSep;
  }

  lemma DotsKeepBuilding(t: ServerType, segments: seq<string>)
    requires AreSegments(t, segments)
    ensures segments != [] ==> AreSegments(t, segments[..|segments| - 1])
  {
    hide IsSegment;
  }

  lemma OnlyVmsEscapes(t: ServerType, piece: string)
    ensures EndsEscaped(t, piece) ==> t == VMS
    ensures IsDots(t, piece) ==> t != VMS
  {
  }

  lemma {:induction false} AddAllIsCanonical(t: ServerType, pieces: seq<string>, segments: seq<string>, append: bool)
    requires Building(t, segments, append) && (append ==> t == VMS) && ArePlain(t, pieces)
    ensures AddAll(t, pieces, segments, append).Some? ==> AreSegments(t, AddAll(t, pieces, segments, append).value)
    decreases |pieces|
  {
    if pieces != [] {
      var piece, rest := pieces[0], pieces[1..];
      ArePlainUnfolds(t, pieces);
      OnlyVmsEscapes(t, piece);
      hide ArePlain, NoSep, IsDots, EndsEscaped, Pushed, AreSegments, TraitsOf;
      if IsDots(t, piece) {
        DotsKeepBuilding(t, segments);
        AddAllIsCanonical(t, rest, if piece == ".." && segments != [] then segments[..|segments| - 1] else segments, false);
      } else {
        PushedIsBuilding(t, piece, segments, append);
        AddAllIsCanonical(t, rest, Pushed(t, piece, segments, append), EndsEscaped(t, piece));
      }
    }
  }

  lemma SegmentizedIsCanonical(t: ServerType, s: string, segments: seq<string>)
    requires AreSegments(t, segments)
    ensures Segmentized(t, s, segments).Some? ==> AreSegments(t, Segmentized(t, s, segments).value)
  {
    PiecesArePlain(t, s);
    hide AreSegments, NoSep, AddAll, Pieces;
    AddAllIsCanonical(t, Pieces(t, s), segments, false);
  }

  lemma FinishIsCanonical(t: ServerType, prefix: Option<string>, s: string, segments: seq<string>)
    requires AreSegments(t, segments)
    requires forall data: PathData :: data.prefix == prefix ==> IsPrefix(t, data)
    ensures
      var r := Finish(t, prefix, Segmentized(t, s, segments));
      r.Some? ==> Canonical(t, r.value)
  {
    SegmentizedIsCanonical(t, s, segments);
    hide Segmentized, AreSegments, IsPrefix;
  }

  ghost predicate CanonicalOrEmpty(t: ServerType, data: Option<PathData>) {
    data.Some? ==> Canonical(t, data.value)
  }

  /** The prefix of a canonical path fits any segments, except on MVS. */
  lemma PrefixFits(t: ServerType, data: PathData, data': PathData)
    requires t != MVS && data.prefix == data'.prefix && IsPrefix(t, data)
    ensures IsPrefix(t, data')
  {
  }

  lemma KeepsPrefix(t: ServerType, data: Option<PathData>, s: string, segments: seq<string>)
    requires t != MVS && CanonicalOrEmpty(t, data) && AreSegments(t, segments)
    requires data.None? ==> t != VXWORKS
    ensures CanonicalOrEmpty(t, Finish(t, PrefixOf(data), Segmentized(t, s, segments)))
  {
    forall d: PathData | d.prefix == PrefixOf(data) ensures IsPrefix(t, d) {
      if data.Some? {
        PrefixFits(t, data.value, d);
      }
    }
    hide Segmentized, AreSegments, IsPrefix;
    FinishIsCanonical(t, PrefixOf(data), s, segments);
  }

  lemma ChangedVmsIsCanonical(data: Option<PathData>, dir: string)
    requires CanonicalOrEmpty(VMS, data)
    ensures CanonicalOrEmpty(VMS, ChangedVms(data, dir))
  {
    var open, close := Find(dir, '['), FindLast(dir, ']');
    assert AreSegments(VMS, []) && AreSegments(VMS, SegmentsOf(data));
    hide Find, FindLast, Finish, Segmentized, AreSegments, TraitsOf, Canonical;
    if open == |dir| {
      KeepsPrefix(VMS, data, dir, SegmentsOf(data));
    } else if close == |dir| && close > open + 2 {
      var inner := dir[open + 1..close - 1];
      KeepsPrefix(VMS, data, inner, []);
      if open > 0 {
        assert '[' !in dir[..open];
        FinishIsCanonical(VMS, Some(dir[..open]), inner, []);
      }
    }
  }

  lemma ChangedDosIsCanonical(t: ServerType, data: Option<PathData>, dir: string)
    requires (t == DOS || t == DOS_FWD_SLASHES) && CanonicalOrEmpty(t, data) && dir != ""
    ensures CanonicalOrEmpty(t, ChangedDos(t, data, dir))
  {
    KeepsPrefix(t, data, dir, SegmentsOf(data));
    KeepsPrefix(t, data, dir, []);
    if SegmentsOf(data) != [] {
      KeepsPrefix(t, data, dir[1..], [SegmentsOf(data)[0]]);
    }
  }

  lemma ChangedMvsIsCanonical(data: Option<PathData>, dir: string)
    requires CanonicalOrEmpty(MVS, data)
    ensures CanonicalOrEmpty(MVS, ChangedMvs(data, dir))
  {
    var d := StripRight(StripLeft(dir, MVSQUOTE), MVSQUOTE);
    assert AreSegments(MVS, SegmentsOf(data)) && AreSegments(MVS, []);
    hide StripRight, StripLeft, MvsInner, Canonical, AreSegments;
    if d != "" {
      if d[0] == '\'' {
        MvsInnerIsCanonical(data, if |d| == 1 then "" else d[1..|d| - 1], []);
      } else {
        MvsInnerIsCanonical(data, d, SegmentsOf(data));
      }
    }
  }

  lemma MvsInnerIsCanonical(data: Option<PathData>, d: string, segments: seq<string>)
    requires AreSegments(MVS, segments) && (d == "" ==> segments == [])
    ensures CanonicalOrEmpty(MVS, MvsInner(data, d, segments))
  {
    assert Segmentized(MVS, "", []) == Some([]);
    assert d != "" && Last(d) != '.' ==> !IsSep(MVS, Last(d));
    hide AreSegments, Pieces, AddAll, IsSep, TraitsOf;
    SegmentizedIsCanonical(MVS, d, segments);
    if d != "" && Last(d) != '.' {
      MvsEndsAsText(d, segments);
    }
  }

  lemma MvsEndsAsText(d: string, segments: seq<string>)
    requires d != "" && !IsSep(MVS, Last(d))
    ensures Segmentized(MVS, d, segments).Some? && Segmentized(MVS, d, segments).value != []
    ensures
      var r := Segmentized(MVS, d, segments).value;
      r[|r| - 1] != "" && Last(r[|r| - 1]) == Last(d)
  {
    LastPiece(MVS, d);
    LastAdded(MVS, Pieces(MVS, d), segments);
    hide Pieces, AddAll;
  }

  /** Without dots and escapes the last piece becomes the last segment. */
  lemma {:induction false} LastAdded(t: ServerType, pieces: seq<string>, segments: seq<string>)
    requires !TraitsOf(t).hasDots && TraitsOf(t).separatorEscape.None? && pieces != []
    ensures AddAll(t, pieces, segments, false) == Some(segments + pieces)
    decreases |pieces|
  {
    assert Pushed(t, pieces[0], segments, false) == segments + [pieces[0]];
    assert segments + [pieces[0]] + pieces[1..] == segments + pieces;
    if |pieces| > 1 {
      LastAdded(t, pieces[1..], segments + [pieces[0]]);
    } else {
      assert pieces[1..] == [] && segments + [pieces[0]] + [] == segments + [pieces[0]];
    }
  }

  lemma ChangedVxWorksIsCanonical(data: Option<PathData>, dir: string)
    requires CanonicalOrEmpty(VXWORKS, data) && dir != ""
    ensures CanonicalOrEmpty(VXWORKS, ChangedVxWorks(data, dir))
  {
    if dir[0] != ':' {
      if data.Some? {
        KeepsPrefix(VXWORKS, data, dir, SegmentsOf(data));
      }
    } else {
      var colon := 1 + Find(dir[1..], ':');
      if 1 < colon < |dir| {
        var prefix := dir[..colon + 1];
        assert Last(prefix) == dir[1..][colon - 1] == ':';
        forall k | 0 < k < |prefix| - 1 ensures prefix[k] != ':' {
          assert prefix[k] == dir[1..][k - 1];
        }
        FinishIsCanonical(VXWORKS, Some(prefix), dir[colon + 1..], []);
      }
    }
  }

  /** Every change of a canonical path, and every path parsed from a text, is canonical. */
  lemma ChangedIsCanonical(t: ServerType, data: Option<PathData>, dir: string)
    requires CanonicalOrEmpty(t, data)
    ensures CanonicalOrEmpty(t, Changed(t, data, dir))
  {
    if dir != "" {
      match t
      case VMS => ChangedVmsIsCanonical(data, dir);
      case DOS => ChangedDosIsCanonical(t, data, dir);
      case DOS_FWD_SLASHES => ChangedDosIsCanonical(t, data, dir);
      case MVS => ChangedMvsIsCanonical(data, dir);
      case VXWORKS => ChangedVxWorksIsCanonical(data, dir);
      case CYGWIN => ChangedCygwinIsCanonical(data, dir);
      case _ =>
        KeepsPrefix(t, data, dir, SegmentsOf(data));
        KeepsPrefix(t, data, dir, []);
    }
  }

  lemma ChangedCygwinIsCanonical(data: Option<PathData>, dir: string)
    requires CanonicalOrEmpty(CYGWIN, data) && dir != ""
    ensures CanonicalOrEmpty(CYGWIN, ChangedCygwin(data, dir))
  {
    KeepsPrefix(CYGWIN, data, dir, SegmentsOf(data));
    FinishIsCanonical(CYGWIN, None, dir, []);
    FinishIsCanonical(CYGWIN, Some("/"), dir[1..], []);
  }

  // ---- Printing and parsing again ----

  lemma FirstSepIs(t: ServerType, s: string, n: nat)
    requires n <= |s| && NoSep(t, s[..n]) && (n < |s| ==> IsSep(t, s[n]))
    ensures FirstSep(t, s) == n
  {
    forall k | 0 <= k < n ensures !IsSep(t, s[k]) {
      assert s[..n][k] == s[k];
    }
    hide IsSep;
  }

  lemma SliceAround(a: string, c: char, b: string)
    ensures (a + [c] + b)[..|a|] == a && (a + [c] + b)[|a| + 1..] == b && (a + [c] + b)[|a|] == c
    ensures a[..|a|] == a
  {
  }

  lemma SplitAtSep(t: ServerType, a: string, b: string)
    requires a != "" && NoSep(t, a)
    ensures Pieces(t, a) == [a]
    ensures Pieces(t, a + [Sep(t)] + b) == [a] + Pieces(t, b)
  {
    assert IsSep(t, Sep(t));
    SliceAround(a, Sep(t), b);
    hide IsSep, NoSep, Pieces, Sep;
    FirstSepIs(t, a + [Sep(t)] + b, |a|);
    FirstSepIs(t, a, |a|);
    PiecesUnfold(t, a);
    PiecesUnfold(t, a + [Sep(t)] + b);
  }

  lemma LeadingSepIsSkipped(t: ServerType, s: string)
    ensures Pieces(t, [Sep(t)] + s) == Pieces(t, s)
  {
    assert IsSep(t, Sep(t)) && ([Sep(t)] + s)[1..] == s;
  }

  lemma {:induction false} TrailingSepIsSkipped(t: ServerType, s: string)
    requires s != "" && NoSep(t, s)
    ensures Pieces(t, s + [Sep(t)]) == [s]
  {
    SplitAtSep(t, s, "");
    assert s + [Sep(t)] + "" == s + [Sep(t)];
    assert Pieces(t, "") == [];
  }

  lemma {:induction false} EscapedIsSame(t: ServerType, s: string)
    requires NoSep(t, s) || TraitsOf(t).separatorEscape.None?
    ensures Escaped(t, s) == s
  {
    if s != "" {
      EscapedIsSame(t, s[1..]);
      assert s == [s[0]] + s[1..];
    }
  }

  /** Where nothing is escaped, the joined segments split into themselves. */
  lemma {:induction false} JoinedSplits(t: ServerType, segments: seq<string>)
    requires t != VMS && AreSegments(t, segments)
    ensures Pieces(t, Joined(t, segments)) == segments
    decreases |segments|
  {
    if segments == [] {
      assert Pieces(t, "") == [];
    } else {
      EscapedIsSame(t, segments[0]);
      SplitAtSep(t, segments[0], Joined(t, segments[1..]));
      assert segments == [segments[0]] + segments[1..];
      assert AreSegments(t, segments[1..]);
      hide Pieces, AreSegments, Escaped;
      JoinedSplits(t, segments[1..]);
    }
  }

  lemma {:induction false} PlainAdded(t: ServerType, pieces: seq<string>, segments: seq<string>)
    requires t != VMS && AreSegments(t, pieces)
    ensures AddAll(t, pieces, segments, false) == Some(segments + pieces)
    decreases |pieces|
  {
    if pieces == [] {
      assert segments + pieces == segments;
    } else {
      assert TraitsOf(t).separatorEscape.None?;
      assert Pushed(t, pieces[0], segments, false) == segments + [pieces[0]];
      assert segments + [pieces[0]] + pieces[1..] == segments + pieces;
      assert AreSegments(t, pieces[1..]);
      PlainAdded(t, pieces[1..], segments + [pieces[0]]);
    }
  }

  lemma PlainRoundTrip(t: ServerType, segments: seq<string>)
    requires t != VMS && AreSegments(t, segments)
    ensures Segmentized(t, Joined(t, segments), []) == Some(segments)
    ensures Segmentized(t, [Sep(t)] + Joined(t, segments), []) == Some(segments)
    ensures |segments| == 1 ==> Segmentized(t, Joined(t, segments) + [Sep(t)], []) == Some(segments)
  {
    JoinedSplits(t, segments);
    LeadingSepIsSkipped(t, Joined(t, segments));
    PlainAdded(t, segments, []);
    assert [] + segments == segments;
    if |segments| == 1 {
      EscapedIsSame(t, segments[0]);
      TrailingSepIsSkipped(t, segments[0]);
      assert segments == [segments[0]];
    }
    hide Pieces, AddAll, Joined;
  }

  // ---- VMS ----

  lemma {:induction false} EscapedAppend(a: string, b: string)
    ensures Escaped(VMS, a + b) == Escaped(VMS, a) + Escaped(VMS, b)
  {
    if a == "" {
      assert a + b == b;
    } else {
      assert (a + b)[1..] == a[1..] + b;
      EscapedAppend(a[1..], b);
      assert EscapedChar(VMS, a[0]) + (Escaped(VMS, a[1..]) + Escaped(VMS, b)) == EscapedChar(VMS, a[0]) + Escaped(VMS, a[1..]) + Escaped(VMS, b);
    }
  }

  /** A segment that is still open, with what has been read of it. */
  function Opened(segments: seq<string>, open: string): seq<string> {
    if open == "" then segments else segments + [open]
  }

  lemma AddNext(piece: string, rest: seq<string>, segments: seq<string>, append: bool)
    requires append ==> segments != []
    ensures AddAll(VMS, [piece] + rest, segments, append) ==
      AddAll(VMS, rest, Pushed(VMS, piece, segments, append), EndsEscaped(VMS, piece))
  {
    assert ([piece] + rest)[0] == piece && ([piece] + rest)[1..] == rest;
  }

  lemma EscapedDot(y: string)
    ensures Escaped(VMS, "." + y) == "^." + Escaped(VMS, y)
  {
    assert ("." + y)[0] == '.' && ("." + y)[1..] == y;
    assert EscapedChar(VMS, '.') == "^.";
  }

  lemma SegmentBehindDot(s: string, dot: nat)
    requires IsSegment(VMS, s) && dot < |s| && s[dot] == '.'
    ensures IsSegment(VMS, s[dot + 1..])
  {
    assert dot < |s| - 1 && Last(s[dot + 1..]) == Last(s);
  }

  lemma Regroup(x: string, dot: string, y: string, tail: string)
    ensures x + (dot + y) == x + dot + y && x + dot + y + tail == x + dot + (y + tail)
  {
  }

  lemma SplitAround(s: string, dot: nat)
    requires dot < |s| && s[dot] == '.'
    ensures s == s[..dot] + "." + s[dot + 1..]
  {
  }

  /** A segment up to its first dot, and what is behind it. */
  lemma EscapedAtDot(s: string, dot: nat)
    requires dot < |s| && s[dot] == '.' && NoSep(VMS, s[..dot])
    ensures Escaped(VMS, s) == s[..dot] + "^" + "." + Escaped(VMS, s[dot + 1..])
  {
    var x, y := s[..dot], s[dot + 1..];
    hide *;
    SplitAround(s, dot);
    Regroup(x, ".", y, "");
    EscapedAppend(x, "." + y);
    EscapedIsSame(VMS, x);
    EscapedDot(y);
    assert "^." == "^" + ".";
    Regroup(x, "^.", Escaped(VMS, y), "");
    Regroup(x, "^", ".", Escaped(VMS, y));
  }

  /** Reading an escaped segment piece by piece puts it together again. */
  lemma {:induction false} EscapedIsRead(s: string, tail: string, segments: seq<string>, open: string)
    requires IsSegment(VMS, s) && (tail == "" || tail[0] == '.')
    ensures AddAll(VMS, Pieces(VMS, Escaped(VMS, s) + tail), Opened(segments, open), open != "") ==
      AddAll(VMS, Pieces(VMS, tail), segments + [open + s], false)
    decreases |s|
  {
    var dot := FirstSep(VMS, s);
    if dot == |s| {
      EscapedIsSame(VMS, s);
      hide *;
      WholePiece(s, tail);
      PushLast(s, segments, open);
      AddNext(s, Pieces(VMS, tail), Opened(segments, open), open != "");
    } else {
      var x, y := s[..dot], s[dot + 1..];
      assert s[dot] == '.' && NoSep(VMS, x) && NoSep(VMS, x + "^");
      hide *;
      EscapedAtDot(s, dot);
      SegmentBehindDot(s, dot);
      SplitAround(s, dot);
      ReadToDot(x, Escaped(VMS, y) + tail, segments, open);
      Regroup(x + "^", ".", Escaped(VMS, y), tail);
      Regroup(open, x + ".", y, "");
      Regroup(open, x, ".", "");
      EscapedIsRead(y, tail, segments, open + x + ".");
    }
  }

  lemma ReadToDot(x: string, more: string, segments: seq<string>, open: string)
    requires NoSep(VMS, x + "^")
    ensures AddAll(VMS, Pieces(VMS, x + "^" + "." + more), Opened(segments, open), open != "") ==
      AddAll(VMS, Pieces(VMS, more), Opened(segments, open + x + "."), true)
  {
    SplitAtDot(x + "^", more);
    PushOpen(x, segments, open);
    hide Pieces, AddAll, Pushed, EndsEscaped;
    AddNext(x + "^", Pieces(VMS, more), Opened(segments, open), open != "");
  }

  lemma SplitAtDot(a: string, b: string)
    requires a != "" && NoSep(VMS, a)
    ensures Pieces(VMS, a + "." + b) == [a] + Pieces(VMS, b)
  {
    SplitAtSep(VMS, a, b);
  }

  lemma WholePiece(s: string, tail: string)
    requires IsSegment(VMS, s) && NoSep(VMS, s) && (tail == "" || tail[0] == '.')
    ensures Pieces(VMS, s + tail) == [s] + Pieces(VMS, tail)
  {
    if tail == "" {
      assert s + tail == s;
      SplitAtSep(VMS, s, "");
    } else {
      assert s + tail == s + "." + tail[1..];
      SplitAtSep(VMS, s, tail[1..]);
      assert tail == "." + tail[1..];
      LeadingSepIsSkipped(VMS, tail[1..]);
    }
  }

  lemma PushLast(s: string, segments: seq<string>, open: string)
    requires IsSegment(VMS, s)
    ensures Pushed(VMS, s, Opened(segments, open), open != "") == segments + [open + s] && !EndsEscaped(VMS, s)
  {
    assert "" + s == s;
  }

  lemma PushOpen(x: string, segments: seq<string>, open: string)
    ensures Pushed(VMS, x + "^", Opened(segments, open), open != "") == Opened(segments, open + x + ".")
    ensures EndsEscaped(VMS, x + "^")
  {
    var piece := x + "^";
    assert EndsEscaped(VMS, piece) && piece[..|piece| - 1] == x;
    assert "" + x + "." == x + ".";
    assert open + (x + ".") == open + x + ".";
  }

  function Tail(rest: seq<string>): string {
    if rest == [] then "" else "." + Joined(VMS, rest)
  }

  lemma TailPieces(rest: seq<string>)
    ensures Pieces(VMS, Tail(rest)) == Pieces(VMS, Joined(VMS, rest))
    ensures Tail(rest) == "" || Tail(rest)[0] == '.'
  {
    if rest != [] {
      hide Pieces, Joined;
      LeadingSepIsSkipped(VMS, Joined(VMS, rest));
    }
  }

  lemma JoinedUnfolds(more: seq<string>)
    requires more != []
    ensures Joined(VMS, more) == Escaped(VMS, more[0]) + Tail(more[1..])
  {
    hide Escaped;
    if |more| == 1 {
      assert Escaped(VMS, more[0]) + "" == Escaped(VMS, more[0]);
    } else {
      Regroup(Escaped(VMS, more[0]), ".", Joined(VMS, more[1..]), "");
    }
  }

  lemma FirstThenRest(segments: seq<string>, more: seq<string>)
    requires more != []
    ensures segments + [more[0]] + more[1..] == segments + more
  {
  }

  lemma {:induction false} VmsRoundTrip(more: seq<string>, segments: seq<string>)
    requires AreSegments(VMS, more)
    ensures AddAll(VMS, Pieces(VMS, Joined(VMS, more)), segments, false) == Some(segments + more)
    decreases |more|
  {
    if more == [] {
      assert segments + more == segments && Pieces(VMS, "") == [];
    } else {
      var s, rest := more[0], more[1..];
      var tail := Tail(rest);
      JoinedUnfolds(more);
      TailPieces(rest);
      assert Opened(segments, "") == segments;
      assert IsSegment(VMS, s) && AreSegments(VMS, rest);
      hide *;
      Nothing(s);
      FirstThenRest(segments, more);
      EscapedIsRead(s, tail, segments, "");
      VmsRoundTrip(rest, segments + [s]);
    }
  }

  // ---- Every canonical path survives ----

  predicate IsUnixLike(t: ServerType) {
    t == DEFAULT || t == UNIX || t == ZVM || t == DOS_VIRTUAL
  }

  lemma Nothing(s: string)
    ensures s + "" == s && "" + s == s
  {
  }

  lemma UnixPrinted(t: ServerType, data: PathData)
    requires IsUnixLike(t) && data.prefix.None?
    ensures Printed(t, data) == [Sep(t)] + Joined(t, data.segments)
  {
    assert Opening(t, data) == [Sep(t)] && Closing(t, data) == "";
    hide *;
    PrintedIs(t, data);
    Nothing([Sep(t)] + Joined(t, data.segments));
  }

  lemma PrintedIs(t: ServerType, data: PathData)
    ensures Printed(t, data) == Opening(t, data) + Joined(t, data.segments) + Closing(t, data)
  {
  }

  lemma UnixParsed(t: ServerType, s: string)
    requires IsUnixLike(t)
    ensures Parsed(t, [Sep(t)] + s) == Finish(t, None, Segmentized(t, [Sep(t)] + s, []))
  {
    hide Segmentized;
    assert IsSep(t, Sep(t));
  }

  lemma UnixRoundTrip(t: ServerType, data: PathData)
    requires IsUnixLike(t) && Canonical(t, data)
    ensures Parsed(t, Printed(t, data)) == Some(data)
  {
    assert data.prefix.None? && AreSegments(t, data.segments) && TraitsOf(t).hasRoot;
    hide Joined, Segmentized, AreSegments, Printed, Parsed, Canonical, TraitsOf;
    PlainRoundTrip(t, data.segments);
    UnixPrinted(t, data);
    UnixParsed(t, Joined(t, data.segments));
  }

  lemma CygwinPrinted(data: PathData)
    requires data.prefix.Some? ==> data.prefix.value == "/"
    ensures Printed(CYGWIN, data) == (if data.prefix.Some? then "//" else "/") + Joined(CYGWIN, data.segments)
  {
    assert Opening(CYGWIN, data) == (if data.prefix.Some? then "//" else "/") && Closing(CYGWIN, data) == "";
    hide *;
    PrintedIs(CYGWIN, data);
    Nothing((if data.prefix.Some? then "//" else "/") + Joined(CYGWIN, data.segments));
  }

  lemma CygwinParsed(s: string)
    ensures Parsed(CYGWIN, "//" + s) == Finish(CYGWIN, Some("/"), Segmentized(CYGWIN, "/" + s, []))
    ensures s == "" || s[0] != '/' ==> Parsed(CYGWIN, "/" + s) == Finish(CYGWIN, None, Segmentized(CYGWIN, "/" + s, []))
  {
    hide Segmentized;
    assert ("//" + s)[1..] == "/" + s;
  }

  lemma CygwinRoundTrip(data: PathData)
    requires Canonical(CYGWIN, data)
    ensures Parsed(CYGWIN, Printed(CYGWIN, data)) == Some(data)
  {
    var segments := data.segments;
    assert data.prefix.Some? ==> data.prefix.value == "/";
    assert AreSegments(CYGWIN, segments) && TraitsOf(CYGWIN).hasRoot && Sep(CYGWIN) == '/' && IsSep(CYGWIN, '/');
    hide Joined, Segmentized, AreSegments, Printed, Parsed, Canonical, TraitsOf, IsSep, Sep;
    JoinedStart(CYGWIN, segments);
    PlainRoundTrip(CYGWIN, segments);
    CygwinPrinted(data);
    CygwinParsed(Joined(CYGWIN, segments));
  }

  /** What is joined starts as its first segment does. */
  lemma JoinedStart(t: ServerType, segments: seq<string>)
    requires t != VMS && AreSegments(t, segments)
    ensures Joined(t, segments) != "" <==> segments != []
    ensures segments != [] ==> !IsSep(t, Joined(t, segments)[0])
  {
    if segments != [] {
      EscapedIsSame(t, segments[0]);
      assert Joined(t, segments)[0] == segments[0][0];
    }
  }

  lemma DosPrinted(t: ServerType, data: PathData)
    requires (t == DOS || t == DOS_FWD_SLASHES) && data.prefix.None? && data.segments != []
    ensures Printed(t, data) == Joined(t, data.segments) + if |data.segments| == 1 then [Sep(t)] else ""
  {
    assert Opening(t, data) == "" && Closing(t, data) == if |data.segments| == 1 then [Sep(t)] else "";
    hide *;
    PrintedIs(t, data);
    Nothing(Joined(t, data.segments));
  }

  lemma DosParsed(t: ServerType, text: string)
    requires (t == DOS || t == DOS_FWD_SLASHES) && text != "" && !IsSep(t, text[0])
    ensures Parsed(t, text) == Finish(t, None, Segmentized(t, text, []))
  {
    hide Segmentized, IsAbsoluteDos;
  }

  lemma DosRoundTrip(t: ServerType, data: PathData)
    requires (t == DOS || t == DOS_FWD_SLASHES) && Canonical(t, data)
    ensures Parsed(t, Printed(t, data)) == Some(data)
  {
    var segments := data.segments;
    assert data.prefix.None? && AreSegments(t, segments) && segments != [];
    hide Joined, Segmentized, AreSegments, Printed, Parsed, Canonical, TraitsOf, IsSep, Sep;
    JoinedStart(t, segments);
    PlainRoundTrip(t, segments);
    DosPrinted(t, data);
    Nothing(Joined(t, segments));
    DosParsed(t, Joined(t, segments) + if |segments| == 1 then [Sep(t)] else "");
  }

  lemma HpNonStopPrinted(data: PathData)
    requires data.prefix.None? && data.segments != []
    ensures Printed(HPNONSTOP, data) == Joined(HPNONSTOP, data.segments)
  {
    assert Opening(HPNONSTOP, data) == "" && Closing(HPNONSTOP, data) == "";
    hide *;
    PrintedIs(HPNONSTOP, data);
    Nothing(Joined(HPNONSTOP, data.segments));
  }

  lemma HpNonStopRoundTrip(data: PathData)
    requires Canonical(HPNONSTOP, data)
    ensures Parsed(HPNONSTOP, Printed(HPNONSTOP, data)) == Some(data)
  {
    hide Joined, Segmentized, AreSegments, Printed;
    PlainRoundTrip(HPNONSTOP, data.segments);
    JoinedStart(HPNONSTOP, data.segments);
    HpNonStopPrinted(data);
  }

  lemma VxWorksPrinted(data: PathData)
    requires data.prefix.Some?
    ensures Printed(VXWORKS, data) == data.prefix.value + Joined(VXWORKS, data.segments)
  {
    Nothing(data.prefix.value);
    assert Opening(VXWORKS, data) == data.prefix.value && Closing(VXWORKS, data) == "";
    hide *;
    PrintedIs(VXWORKS, data);
    Nothing(data.prefix.value + Joined(VXWORKS, data.segments));
  }

  lemma VxWorksParsed(prefix: string, s: string)
    requires |prefix| >= 3 && prefix[0] == ':' && Last(prefix) == ':'
    requires forall k :: 0 < k < |prefix| - 1 ==> prefix[k] != ':'
    ensures Parsed(VXWORKS, prefix + s) == Finish(VXWORKS, Some(prefix), Segmentized(VXWORKS, s, []))
  {
    var text, colon := prefix + s, |prefix| - 1;
    assert text[1..][colon - 1] == ':';
    forall k | 0 <= k < colon - 1 ensures text[1..][k] != ':' {
      assert text[1..][k] == prefix[k + 1];
    }
    assert Find(text[1..], ':') == colon - 1;
    assert text[..colon + 1] == prefix && text[colon + 1..] == s;
    hide Find, Segmentized;
  }

  lemma VxWorksRoundTrip(data: PathData)
    requires Canonical(VXWORKS, data)
    ensures Parsed(VXWORKS, Printed(VXWORKS, data)) == Some(data)
  {
    hide Joined, Segmentized, AreSegments, Printed, Parsed;
    PlainRoundTrip(VXWORKS, data.segments);
    VxWorksPrinted(data);
    VxWorksParsed(data.prefix.value, Joined(VXWORKS, data.segments));
  }

  lemma VmsPrinted(data: PathData)
    requires data.segments != []
    ensures Printed(VMS, data) == data.prefix.GetOr("") + "[" + Joined(VMS, data.segments) + "]"
  {
    assert Opening(VMS, data) == data.prefix.GetOr("") + "[" && Closing(VMS, data) == "]" by {
      Nothing(data.prefix.GetOr("") + "[");
    }
    hide *;
    PrintedIs(VMS, data);
  }

  lemma VmsParsed(prefix: string, s: string)
    requires '[' !in prefix && s != ""
    ensures Parsed(VMS, prefix + "[" + s + "]") ==
      Finish(VMS, if prefix == "" then None else Some(prefix), Segmentized(VMS, s, []))
  {
    var text := prefix + "[" + s + "]";
    var open := |prefix|;
    assert text[open] == '[' && forall k :: 0 <= k < open ==> text[k] == prefix[k];
    assert Find(text, '[') == open;
    assert Last(text) == ']' && FindLast(text, ']') == |text|;
    assert text[open + 1..|text| - 1] == s && text[..open] == prefix;
    hide Find, FindLast, Segmentized;
  }

  lemma VmsPathRoundTrip(data: PathData)
    requires Canonical(VMS, data)
    ensures Parsed(VMS, Printed(VMS, data)) == Some(data)
  {
    var prefix, segments := data.prefix.GetOr(""), data.segments;
    JoinedIsNotEmpty(segments);
    assert '[' !in prefix && (data.prefix == if prefix == "" then None else Some(prefix));
    assert AreSegments(VMS, segments) && segments != [];
    hide Joined, Pieces, AddAll, AreSegments, Printed, Parsed, Canonical, TraitsOf;
    VmsRoundTrip(segments, []);
    assert [] + segments == segments;
    VmsPrinted(data);
    VmsParsed(prefix, Joined(VMS, segments));
  }

  lemma JoinedIsNotEmpty(segments: seq<string>)
    requires segments != [] && AreSegments(VMS, segments)
    ensures Joined(VMS, segments) != ""
  {
    assert segments[0] != "";
    assert Escaped(VMS, segments[0]) != "";
  }

  lemma MvsPrinted(data: PathData)
    requires data.segments != []
    ensures Printed(MVS, data) == "'" + (Joined(MVS, data.segments) + data.prefix.GetOr("")) + "'"
  {
    assert Opening(MVS, data) == "'" && Closing(MVS, data) == data.prefix.GetOr("") + "'" by {
      Nothing(data.prefix.GetOr("") + "'");
    }
    hide *;
    PrintedIs(MVS, data);
    Regroup("'", Joined(MVS, data.segments), data.prefix.GetOr(""), "'");
  }

  lemma MvsParsed(inner: string)
    ensures Parsed(MVS, "'" + inner + "'") == MvsInner(None, inner, [])
  {
    var text := "'" + inner + "'";
    assert text[0] == '\'' && Last(text) == '\'' && |text| > 1 && text[1..|text| - 1] == inner;
    assert StripLeft(text, MVSQUOTE) == text && StripRight(text, MVSQUOTE) == text;
    hide StripLeft, StripRight, MvsInner;
  }

  lemma MvsRoundTrip(data: PathData)
    requires Canonical(MVS, data)
    ensures Parsed(MVS, Printed(MVS, data)) == Some(data)
  {
    assert data.segments != [];
    hide Canonical, Parsed, Printed, MvsInner, Joined, TraitsOf;
    MvsPrinted(data);
    MvsParsed(Joined(MVS, data.segments) + data.prefix.GetOr(""));
    MvsInnerRoundTrip(data);
  }

  lemma MvsInnerRoundTrip(data: PathData)
    requires Canonical(MVS, data)
    ensures MvsInner(None, Joined(MVS, data.segments) + data.prefix.GetOr(""), []) == Some(data)
  {
    var segments := data.segments;
    var joined := Joined(MVS, segments);
    assert segments != [] && AreSegments(MVS, segments) && (data.prefix.Some? ==> data.prefix.value == ".");
    assert segments[|segments| - 1] != "";
    assert data.prefix.None? ==> Last(segments[|segments| - 1]) != ')';
    assert IsSep(MVS, '.');
    hide Canonical, Joined, Pieces, AddAll, AreSegments, TraitsOf, IsSep;
    JoinedEnd(segments);
    JoinedSplits(MVS, segments);
    PlainAdded(MVS, segments, []);
    assert [] + segments == segments;
    TrailingDot(joined);
    Nothing(joined);
    assert Last(joined + ".") == '.';
    MvsInnerIs(joined, data);
  }

  lemma MvsInnerIs(joined: string, data: PathData)
    requires joined != "" && Last(joined) != '.' && data.segments != []
    requires if data.prefix.Some? then data.prefix.value == "." else Last(joined) != ')'
    requires Segmentized(MVS, joined + data.prefix.GetOr(""), []) == Some(data.segments)
    ensures MvsInner(None, joined + data.prefix.GetOr(""), []) == Some(data)
  {
    hide Segmentized;
    Nothing(joined);
    assert Last(joined + ".") == '.';
  }

  lemma {:induction false} JoinedEnd(segments: seq<string>)
    requires segments != [] && AreSegments(MVS, segments)
    ensures Joined(MVS, segments) != "" && Last(Joined(MVS, segments)) == Last(segments[|segments| - 1])
    ensures !IsSep(MVS, Last(Joined(MVS, segments)))
  {
    EscapedIsSame(MVS, segments[0]);
    if |segments| > 1 {
      JoinedEnd(segments[1..]);
    }
  }

  lemma {:induction false} TrailingDot(s: string)
    ensures Pieces(MVS, s + ".") == Pieces(MVS, s)
    decreases |s|
  {
    var pos, s' := FirstSep(MVS, s), s + ".";
    SliceOfAppend(s, '.', pos);
    FirstSepIs(MVS, s', pos);
    PiecesUnfold(MVS, s);
    PiecesUnfold(MVS, s');
    PiecesUnfold(MVS, "");
    hide *;
    if pos < |s| {
      TrailingDot(s[pos + 1..]);
    }
  }

  lemma SliceOfAppend(s: string, c: char, n: nat)
    requires n <= |s|
    ensures (s + [c])[..n] == s[..n] && (n == |s| ==> s[..n] == s)
    ensures (s + [c])[n + 1..] == if n == |s| then "" else s[n + 1..] + [c]
  {
  }

  lemma CanonicalSurvives(t: ServerType, data: PathData)
    requires Canonical(t, data)
    ensures Parsed(t, Printed(t, data)) == Some(data)
  {
    hide Parsed, Printed, Canonical;
    match t
    case VMS => VmsPathRoundTrip(data);
    case DOS => DosRoundTrip(t, data);
    case DOS_FWD_SLASHES => DosRoundTrip(t, data);
    case MVS => MvsRoundTrip(data);
    case HPNONSTOP => HpNonStopRoundTrip(data);
    case VXWORKS => VxWorksRoundTrip(data);
    case CYGWIN => CygwinRoundTrip(data);
    case _ => UnixRoundTrip(t, data);
  }

  /** Printing a path and parsing the text gives the path back exactly if it is canonical. */
  lemma PathRoundTrip(t: ServerType, data: PathData)
    ensures Parsed(t, Printed(t, data)) == Some(data) <==> Canonical(t, data)
  {
    if Canonical(t, data) {
      CanonicalSurvives(t, data);
    }
    ChangedIsCanonical(t, None, Printed(t, data));
    hide Changed, Printed, Canonical;
  }

  /** However a path was parsed and changed, it can be printed and parsed again. */
  function ChangedBy(t: ServerType, dirs: seq<string>): Option<PathData> {
    if dirs == [] then None else Changed(t, ChangedBy(t, dirs[..|dirs| - 1]), dirs[|dirs| - 1])
  }

  lemma {:induction false} ReachedPathsSurvive(t: ServerType, dirs: seq<string>)
    ensures CanonicalOrEmpty(t, ChangedBy(t, dirs))
    ensures ChangedBy(t, dirs).Some? ==> Parsed(t, Printed(t, ChangedBy(t, dirs).value)) == ChangedBy(t, dirs)
  {
    if dirs != [] {
      ReachedPathsSurvive(t, dirs[..|dirs| - 1]);
      ChangedIsCanonical(t, ChangedBy(t, dirs[..|dirs| - 1]), dirs[|dirs| - 1]);
    }
    var data := ChangedBy(t, dirs);
    hide ChangedBy, Changed, Printed, Canonical;
    if data.Some? {
      PathRoundTrip(t, data.value);
    }
  }

  // ---- Going up ----

  /** `MakeParent`; a data set's parent is a prefix. */
  function Parent(t: ServerType, data: PathData): Option<PathData> {
    if !ServerPath(t, Some(data)).HasParent() then None
    else Some(PathData(if t == MVS then Some(".") else data.prefix, data.segments[..|data.segments| - 1]))
  }

  lemma ParentIsCanonical(t: ServerType, data: PathData)
    requires Canonical(t, data)
    ensures CanonicalOrEmpty(t, Parent(t, data))
  {
    hide IsSegment;
  }

  lemma DotsArePieces(t: ServerType)
    requires TraitsOf(t).hasDots
    ensures Pieces(t, "..") == [".."]
  {
    FirstSepIs(t, "..", 2);
  }

  /** Where two dots mean going up, changing to them gives the parent; the root is its own. */
  lemma DotsGoUp(t: ServerType, data: PathData)
    requires TraitsOf(t).hasDots && Canonical(t, data)
    ensures Changed(t, Some(data), "..") ==
      if Parent(t, data).Some? then Parent(t, data) else if TraitsOf(t).hasRoot then Some(data) else None
  {
    DotsArePieces(t);
    var segments := data.segments;
    var up := if segments == [] then [] else segments[..|segments| - 1];
    assert [".."][1..] == [];
    assert AddAll(t, [".."], segments, false) == AddAll(t, [], up, false) == Some(up);
    assert Segmentized(t, "..", segments) == Some(up);
    hide Pieces, AddAll, AreSegments, IsPrefix, Segmentized;
    assert !IsSep(t, '.');
  }

  /** Changing into a segment by its name gives the child. */
  lemma NameGoesDown(t: ServerType, data: PathData, name: string)
    requires IsUnixLike(t) && Canonical(t, data) && IsSegment(t, name)
    ensures Changed(t, Some(data), name) == Some(data.(segments := data.segments + [name]))
  {
    SplitAtSep(t, name, "");
    PlainAdded(t, [name], data.segments);
    hide Pieces, AddAll, AreSegments;
  }

  // ---- The loops ----

  method FindSep(t: ServerType, s: string, start: nat) returns (pos: nat)
    requires start <= |s|
    ensures start <= pos <= |s| && pos == start + FirstSep(t, s[start..])
  {
    pos := start;
    while pos < |s| && !IsSep(t, s[pos])
      invariant start <= pos <= |s| && start + FirstSep(t, s[start..]) == pos + FirstSep(t, s[pos..])
    {
      assert s[pos..][1..] == s[pos + 1..];
      pos := pos + 1;
    }
  }

  method SegmentizeAddSegment(t: ServerType, piece: string, segments: seq<string>, append: bool)
    returns (segments': seq<string>, append': bool)
    requires append ==> segments != []
    ensures if IsDots(t, piece) then
        segments' == (if piece == ".." && segments != [] then segments[..|segments| - 1] else segments) && append' == append
      else
        segments' == Pushed(t, piece, segments, append) && append' == EndsEscaped(t, piece)
  {
    if TraitsOf(t).hasDots {
      if piece == "." {
        return segments, append;
      } else if piece == ".." {
        return if segments != [] then segments[..|segments| - 1] else segments, append;
      }
    }
    append' := false;
    var segment := piece;
    if segment != "" && TraitsOf(t).separatorEscape == Some(segment[|segment| - 1]) {
      append' := true;
      segment := segment[|segment| - 1 := Sep(t)];
      assert segment == Unescaped(t, piece);
    }
    if append {
      segments' := segments[|segments| - 1 := segments[|segments| - 1] + segment];
    } else {
      segments' := segments + [segment];
    }
  }

  /** `Segmentize`. */
  method Segmentize(t: ServerType, s: string, before: seq<string>) returns (r: Option<seq<string>>)
    ensures r == Segmentized(t, s, before)
  {
    var segments, append, start := before, false, 0;
    SegmentizedIs(t, s, before);
    hide *;
    while start < |s|
      invariant start <= |s|
      invariant append ==> segments != [] && TraitsOf(t).separatorEscape.Some?
      invariant AddAll(t, Pieces(t, s[start..]), segments, append) == Segmentized(t, s, before)
    {
      var pos := FindSep(t, s, start);
      NextPieces(t, s, start);
      if start == pos {
        start := start + 1;
      } else {
        var piece := s[start..pos];
        AddAllUnfolds(t, piece, if pos == |s| then [] else Pieces(t, s[pos + 1..]), segments, append);
        segments, append := SegmentizeAddSegment(t, piece, segments, append);
        start := if pos == |s| then |s| else pos + 1;
      }
    }
    AddAllEnds(t, s, segments, append);
    return if append then None else Some(segments);
  }

  lemma SegmentizedIs(t: ServerType, s: string, before: seq<string>)
    ensures Segmentized(t, s, before) == AddAll(t, Pieces(t, s[0..]), before, false)
    ensures Pieces(t, s[|s|..]) == []
  {
    assert s[0..] == s && s[|s|..] == "";
  }

  lemma AddAllEnds(t: ServerType, s: string, segments: seq<string>, append: bool)
    requires append ==> segments != [] && TraitsOf(t).separatorEscape.Some?
    ensures AddAll(t, Pieces(t, s[|s|..]), segments, append) == if append then None else Some(segments)
  {
    SegmentizedIs(t, s, segments);
  }

  lemma NoDotsWithEscapes(t: ServerType)
    ensures TraitsOf(t).separatorEscape.Some? ==> !TraitsOf(t).hasDots
  {
  }

  lemma NextPieces(t: ServerType, s: string, start: nat)
    requires start < |s|
    ensures
      var pos := start + FirstSep(t, s[start..]);
      && (pos == start ==> Pieces(t, s[start..]) == Pieces(t, s[start + 1..]))
      && (start < pos < |s| ==> Pieces(t, s[start..]) == [s[start..pos]] + Pieces(t, s[pos + 1..]))
      && (pos == |s| ==> Pieces(t, s[start..]) == [s[start..pos]] + [])
  {
    var text := s[start..];
    var n := FirstSep(t, text);
    PiecesUnfold(t, text);
    SliceOfSlice(s, start, n);
    hide *;
    if n == |text| {
      NothingAdded(text);
    }
  }

  lemma NothingAdded(piece: string)
    ensures [piece] + [] == [piece]
  {
  }

  lemma SliceOfSlice(s: string, start: nat, n: nat)
    requires start + n <= |s|
    ensures s[start..][..n] == s[start..start + n]
    ensures n < |s| - start ==> s[start..][n + 1..] == s[start + n + 1..]
    ensures n == |s| - start ==> s[start..start + n] == s[start..]
  {
  }

  lemma AddAllUnfolds(t: ServerType, piece: string, rest: seq<string>, segments: seq<string>, append: bool)
    requires append ==> segments != [] && TraitsOf(t).separatorEscape.Some?
    ensures EndsEscaped(t, piece) ==> TraitsOf(t).separatorEscape.Some?
    ensures IsDots(t, piece) ==> !append
    ensures AddAll(t, [piece] + rest, segments, append) ==
      if IsDots(t, piece) then AddAll(t, rest, if piece == ".." && segments != [] then segments[..|segments| - 1] else segments, false)
      else AddAll(t, rest, Pushed(t, piece, segments, append), EndsEscaped(t, piece))
  {
    NoDotsWithEscapes(t);
    assert ([piece] + rest)[0] == piece && ([piece] + rest)[1..] == rest;
    hide Pushed;
  }

  /** What is still to be printed after some segments. */
  function JoinedFrom(t: ServerType, segments: seq<string>, i: nat): string
    requires i <= |segments|
  {
    if i == |segments| then "" else Joined(t, segments[i..])
  }

  lemma JoinedFromUnfolds(t: ServerType, segments: seq<string>, i: nat)
    requires i < |segments|
    ensures JoinedFrom(t, segments, i) ==
      if i + 1 == |segments| then Escaped(t, segments[i]) else Escaped(t, segments[i]) + [Sep(t)] + JoinedFrom(t, segments, i + 1)
  {
    var rest := segments[i..];
    assert rest[0] == segments[i] && rest[1..] == segments[i + 1..];
    hide Escaped;
  }

  /** The loop of `GetPath` over the segments. */
  method PrintSegments(t: ServerType, segments: seq<string>) returns (text: string)
    ensures text == Joined(t, segments)
  {
    text := "";
    var i := 0;
    ghost var all := JoinedFrom(t, segments, 0);
    assert segments[0..] == segments && all == Joined(t, segments);
    Nothing(all);
    hide *;
    while i < |segments|
      invariant i <= |segments|
      invariant if i == |segments| then text == all else (if i == 0 then text else text + [Sep(t)]) + JoinedFrom(t, segments, i) == all
    {
      JoinedFromUnfolds(t, segments, i);
      if i > 0 {
        text := text + [Sep(t)];
      }
      Regroup3(text, Escaped(t, segments[i]), [Sep(t)], if i + 1 == |segments| then "" else JoinedFrom(t, segments, i + 1));
      text := text + Escaped(t, segments[i]);
      i := i + 1;
    }
  }

  lemma Regroup3(a: string, b: string, c: string, d: string)
    ensures a + (b + c + d) == a + b + c + d
  {
  }
}
