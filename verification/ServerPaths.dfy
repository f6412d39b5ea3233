/**
 The value of a remote path: a server type, an optional prefix and a list of segments
 (`CServerPath` in src/engine/serverpath.cpp).  This module holds the comparisons; the
 textual forms are in SafePath.dfy and PathFormats.dfy.
 */
module ServerPaths {
  import opened Options

  datatype ServerType =
    DEFAULT | UNIX | VMS | DOS | MVS | VXWORKS | ZVM | HPNONSTOP | DOS_VIRTUAL | CYGWIN | DOS_FWD_SLASHES

  /** One row of the traits table.  A `None` character is the table's 0. */
  datatype Traits = Traits(
    separators: string,
    hasRoot: bool,
    leftEnclosure: Option<char>,
    rightEnclosure: Option<char>,
    filenameInsideEnclosure: bool,
    prefixIsSuffix: bool,
    separatorEscape: Option<char>,
    hasDots: bool,
    separatorAfterPrefix: bool)

  function TraitsOf(t: ServerType): (r: Traits)
    ensures r.separators != ""
  {
    match t
    case VMS => Traits(".", false, Some('['), Some(']'), false, false, Some('^'), false, false)
    case DOS => Traits("\\/", false, None, None, false, false, None, true, false)
    case MVS => Traits(".", false, Some('\''), Some('\''), true, true, None, false, false)
    case HPNONSTOP => Traits(".", false, None, None, false, false, None, false, false)
    case DOS_VIRTUAL => Traits("\\", true, None, None, false, false, None, true, false)
    case CYGWIN => Traits("/", true, None, None, false, false, None, true, true)
    case DOS_FWD_SLASHES => Traits("/\\", false, None, None, false, false, None, true, false)
    case _ => Traits("/", true, None, None, false, false, None, true, false)
  }

  datatype PathData = PathData(prefix: Option<string>, segments: seq<string>)

  /** `data.None?` is the source's empty path; it keeps its type, which still takes part in `==`. */
  datatype ServerPath = ServerPath(typ: ServerType, data: Option<PathData>) {
    predicate Empty() {
      data.None?
    }

    predicate HasParent() {
      data.Some? && if TraitsOf(typ).hasRoot then |data.value.segments| > 0 else |data.value.segments| > 1
    }
  }

  const NOPATH := ServerPath(DEFAULT, None)

  /** The name folding used by a case-insensitive comparison; the identity for a case-sensitive one. */
  type Folding = string -> string

  const EXACT: Folding := s => s

  predicate SamePrefix(a: Option<string>, b: Option<string>, fold: Folding) {
    match (a, b)
    case (Some(x), Some(y)) => fold(x) == fold(y)
    case _ => a == b
  }

  /** Segment lists that agree, under the folding, on the first `n` places. */
  predicate AgreeUpTo(a: seq<string>, b: seq<string>, n: nat, fold: Folding)
    requires n <= |a| && n <= |b|
  {
    forall k :: 0 <= k < n ==> fold(a[k]) == fold(b[k])
  }

  predicate PrefixAllows(p: PathData, q: PathData, isSuffix: bool, fold: Folding) {
    if isSuffix then q.prefix.Some? else SamePrefix(p.prefix, q.prefix, fold)
  }

  /** What being below a path means: its segments are a proper prefix (or, if allowed, all) of the other's. */
  predicate IsSubdirBy(p: ServerPath, q: ServerPath, fold: Folding, allowEqual: bool) {
    && p.HasParent()
    && q.data.Some?
    && p.typ == q.typ
    && PrefixAllows(p.data.value, q.data.value, TraitsOf(p.typ).prefixIsSuffix, fold)
    && (if allowEqual then |q.data.value.segments| <= |p.data.value.segments|
        else |q.data.value.segments| < |p.data.value.segments|)
    && AgreeUpTo(q.data.value.segments, p.data.value.segments, |q.data.value.segments|, fold)
  }

  predicate IsSubdirOf(p: ServerPath, q: ServerPath) {
    IsSubdirBy(p, q, EXACT, false)
  }

  predicate IsParentOf(p: ServerPath, q: ServerPath) {
    IsSubdirOf(q, p)
  }

  /** The iterator walk of `CServerPath::IsSubdirOf`. */
  method ComputeIsSubdirOf(p: ServerPath, q: ServerPath, fold: Folding, allowEqual: bool) returns (r: bool)
    ensures r == IsSubdirBy(p, q, fold, allowEqual)
  {
    if p.Empty() || q.Empty() {
      return false;
    }
    if p.typ != q.typ {
      return false;
    }
    if !p.HasParent() {
      return false;
    }
    var ld, rd := p.data.value, q.data.value;
    if !TraitsOf(p.typ).prefixIsSuffix {
      if !SamePrefix(ld.prefix, rd.prefix, fold) {
        return false;
      }
    }
    if TraitsOf(p.typ).prefixIsSuffix && rd.prefix.None? {
      return false;
    }
    var i := 0;
    while i < |ld.segments|
      invariant 0 <= i <= |ld.segments| && i <= |rd.segments|
      invariant AgreeUpTo(rd.segments, ld.segments, i, fold)
    {
      if i == |rd.segments| {
        return true;
      }
      if fold(ld.segments[i]) != fold(rd.segments[i]) {
        return false;
      }
      i := i + 1;
    }
    return allowEqual && i == |rd.segments|;
  }

  /** Being strictly below is irreflexive and transitive, so locks and walks have a real tree under them. */
  lemma SubdirIsStrictOrder(p: ServerPath, q: ServerPath, r: ServerPath, fold: Folding)
    ensures !IsSubdirBy(p, p, fold, false)
    ensures IsSubdirBy(p, q, fold, false) && IsSubdirBy(q, r, fold, false) ==> IsSubdirBy(p, r, fold, false)
    ensures IsSubdirBy(p, q, fold, false) ==> !IsSubdirBy(q, p, fold, true)
  {
    if IsSubdirBy(p, q, fold, false) && IsSubdirBy(q, r, fold, false) {
      var a, b, c := p.data.value.segments, q.data.value.segments, r.data.value.segments;
      forall k | 0 <= k < |c| ensures fold(c[k]) == fold(a[k]) {
        assert fold(b[k]) == fold(a[k]);
      }
    }
  }

  /**
   Lying in a directory, said of the parts of the paths: the same type and prefix, and the segments of the
   directory come first in those of the path.  On MVS the directory must be a prefix of data sets.
   */
  predicate LiesIn(path: ServerPath, dir: ServerPath) {
    && path.data.Some? && dir.data.Some? && path.typ == dir.typ
    && (if path.typ == MVS then dir.data.value.prefix.Some? else path.data.value.prefix == dir.data.value.prefix)
    && dir.data.value.segments <= path.data.value.segments
    && path.data.value.segments != []
    && (|path.data.value.segments| > 1 || path.typ !in {VMS, DOS, MVS, HPNONSTOP, DOS_FWD_SLASHES})
  }

  predicate LiesBelow(path: ServerPath, dir: ServerPath) {
    LiesIn(path, dir) && dir.data.value.segments != path.data.value.segments
  }

  function FoldedAll(segments: seq<string>, fold: Folding): seq<string> {
    seq(|segments|, i requires 0 <= i < |segments| => fold(segments[i]))
  }

  /** The path with everything in it folded; all empty paths are the same. */
  function Folded(p: ServerPath, fold: Folding): ServerPath {
    if p.data.None? then NOPATH
    else
      var d := p.data.value;
      p.(data := Some(PathData(if d.prefix.Some? then Some(fold(d.prefix.value)) else None, FoldedAll(d.segments, fold))))
  }

  lemma AgreeIsPrefix(a: seq<string>, b: seq<string>, fold: Folding)
    requires |a| <= |b|
    ensures AgreeUpTo(a, b, |a|, fold) <==> FoldedAll(a, fold) <= FoldedAll(b, fold)
  {
    if FoldedAll(a, fold) <= FoldedAll(b, fold) {
      forall k | 0 <= k < |a| ensures fold(a[k]) == fold(b[k]) {
        assert FoldedAll(a, fold)[k] == FoldedAll(b, fold)[k];
      }
    }
  }

  lemma SubdirLiesIn(p: ServerPath, q: ServerPath, fold: Folding)
    ensures IsSubdirBy(p, q, fold, true) <==> LiesIn(Folded(p, fold), Folded(q, fold))
    ensures IsSubdirBy(p, q, fold, false) <==> LiesBelow(Folded(p, fold), Folded(q, fold))
  {
    if p.data.Some? && q.data.Some? && |q.data.value.segments| <= |p.data.value.segments| {
      AgreeIsPrefix(q.data.value.segments, p.data.value.segments, fold);
    }
    hide AgreeUpTo;
  }

  lemma FoldedExactly(p: ServerPath)
    requires p.data.Some?
    ensures Folded(p, EXACT) == p
  {
    assert FoldedAll(p.data.value.segments, EXACT) == p.data.value.segments;
  }

  lemma SubdirLiesBelow(p: ServerPath, q: ServerPath)
    ensures IsSubdirOf(p, q) <==> LiesBelow(p, q)
    ensures IsParentOf(q, p) <==> LiesBelow(p, q)
  {
    SubdirLiesIn(p, q, EXACT);
    if p.data.Some? && q.data.Some? {
      FoldedExactly(p);
      FoldedExactly(q);
    }
  }

  // ---- The order of cached paths (`operator<`) ----

  predicate StringLess(a: string, b: string) {
    b != "" && (a == "" || a[0] < b[0] || (a[0] == b[0] && StringLess(a[1..], b[1..])))
  }

  const NUL: char := '\0'

  /** The length of the C string. */
  function FirstNul(s: string): (r: nat)
    ensures r <= |s| && (r < |s| ==> s[r] == NUL) && forall k :: 0 <= k < r ==> s[k] != NUL
  {
    if s == "" || s[0] == NUL then 0 else 1 + FirstNul(s[1..])
  }

  /** What a comparison of C strings sees. */
  function UpToNul(s: string): string {
    s[..FirstNul(s)]
  }

  predicate SegmentsLess(a: seq<string>, b: seq<string>) {
    b != [] && (a == [] || StringLess(UpToNul(a[0]), UpToNul(b[0])) ||
                (UpToNul(a[0]) == UpToNul(b[0]) && SegmentsLess(a[1..], b[1..])))
  }

  predicate SameUpToNul(a: seq<string>, b: seq<string>) {
    |a| == |b| && forall k :: 0 <= k < |a| ==> UpToNul(a[k]) == UpToNul(b[k])
  }

  predicate PrefixLess(a: Option<string>, b: Option<string>) {
    b.Some? && (a.None? || StringLess(a.value, b.value))
  }

  function TypeRank(t: ServerType): nat {
    match t
    case DEFAULT => 0 case UNIX => 1 case VMS => 2 case DOS => 3 case MVS => 4 case VXWORKS => 5
    case ZVM => 6 case HPNONSTOP => 7 case DOS_VIRTUAL => 8 case CYGWIN => 9 case DOS_FWD_SLASHES => 10
  }

  /** Empty paths first, then by prefix, server type and segments. */
  predicate PathLess(p: ServerPath, q: ServerPath) {
    q.data.Some? &&
    (p.data.None? ||
     var a, b := p.data.value, q.data.value;
     || PrefixLess(a.prefix, b.prefix)
     || (a.prefix == b.prefix && TypeRank(p.typ) < TypeRank(q.typ))
     || (a.prefix == b.prefix && p.typ == q.typ && SegmentsLess(a.segments, b.segments)))
  }

  /** The walk of `operator<` over the segments. */
  method ComputeSegmentsLess(a: seq<string>, b: seq<string>) returns (r: bool)
    ensures r == SegmentsLess(a, b)
  {
    var i := 0;
    assert a[0..] == a && b[0..] == b;
    while i < |a|
      invariant i <= |a| && i <= |b|
      invariant SegmentsLess(a, b) == SegmentsLess(a[i..], b[i..])
    {
      if i == |b| {
        return false;
      }
      assert a[i..][1..] == a[i + 1..] && b[i..][1..] == b[i + 1..];
      var x, y := UpToNul(a[i]), UpToNul(b[i]);
      StringOrder(x, y, y);
      if StringLess(x, y) {
        return true;
      }
      if StringLess(y, x) {
        return false;
      }
      i := i + 1;
    }
    return i != |b|;
  }

  lemma {:induction false} StringOrder(a: string, b: string, c: string)
    ensures StringLess(a, b) || StringLess(b, a) || a == b
    ensures !(StringLess(a, b) && StringLess(b, a)) && !StringLess(a, a)
    ensures StringLess(a, b) && StringLess(b, c) ==> StringLess(a, c)
  {
    if a != "" {
      StringOrder(a[1..], if b == "" then "" else b[1..], if c == "" then "" else c[1..]);
      assert b != "" && a[0] == b[0] && a[1..] == b[1..] ==> a == b;
    }
  }

  lemma {:induction false} SegmentsOrder(a: seq<string>, b: seq<string>, c: seq<string>)
    ensures SegmentsLess(a, b) || SegmentsLess(b, a) || SameUpToNul(a, b)
    ensures SameUpToNul(a, b) ==> !SegmentsLess(a, b) && !SegmentsLess(b, a)
    ensures !(SegmentsLess(a, b) && SegmentsLess(b, a)) && !SegmentsLess(a, a)
    ensures SegmentsLess(a, b) && SegmentsLess(b, c) ==> SegmentsLess(a, c)
  {
    if a != [] {
      var b', c' := if b == [] then a else b, if c == [] then a else c;
      StringOrder(UpToNul(a[0]), UpToNul(b'[0]), UpToNul(c'[0]));
      StringOrder(UpToNul(b'[0]), UpToNul(c'[0]), UpToNul(c'[0]));
      SegmentsOrder(a[1..], if b == [] then [] else b[1..], if c == [] then [] else c[1..]);
      SameUpToNulUnfolds(a, b);
    }
  }

  lemma SameUpToNulUnfolds(a: seq<string>, b: seq<string>)
    requires a != []
    ensures SameUpToNul(a, b) <==> b != [] && UpToNul(a[0]) == UpToNul(b[0]) && SameUpToNul(a[1..], b[1..])
  {
    if b != [] && UpToNul(a[0]) == UpToNul(b[0]) && SameUpToNul(a[1..], b[1..]) {
      forall k | 0 <= k < |a| ensures UpToNul(a[k]) == UpToNul(b[k]) {
        if k > 0 {
          assert a[k] == a[1..][k - 1] && b[k] == b[1..][k - 1];
        }
      }
    }
  }

  /** Paths that differ at most in their types, if they are empty, or behind a NUL in a segment. */
  predicate Alike(p: ServerPath, q: ServerPath) {
    if p.data.None? || q.data.None? then p.data.None? && q.data.None?
    else
      && p.typ == q.typ && p.data.value.prefix == q.data.value.prefix
      && SameUpToNul(p.data.value.segments, q.data.value.segments)
  }

  function CutAll(segments: seq<string>): seq<string> {
    seq(|segments|, i requires 0 <= i < |segments| => UpToNul(segments[i]))
  }

  /** What of a path an ordered set can tell from other paths. */
  function Key(p: ServerPath): ServerPath {
    if p.data.None? then NOPATH else p.(data := Some(p.data.value.(segments := CutAll(p.data.value.segments))))
  }

  lemma KeyTellsApart(p: ServerPath, q: ServerPath)
    ensures Key(p) == Key(q) <==> Alike(p, q)
  {
    if p.data.Some? && q.data.Some? {
      var a, b := p.data.value.segments, q.data.value.segments;
      if CutAll(a) == CutAll(b) {
        forall k | 0 <= k < |a| ensures |a| == |b| && UpToNul(a[k]) == UpToNul(b[k]) {
          assert CutAll(a)[k] == CutAll(b)[k];
        }
        assert |CutAll(a)| == |CutAll(b)|;
      }
      if SameUpToNul(a, b) {
        assert CutAll(a) == CutAll(b);
      }
    }
  }

  /** `operator<` is a strict order; the paths that it does not tell apart need not be equal, but are alike. */
  lemma PathOrder(p: ServerPath, q: ServerPath, r: ServerPath)
    ensures !PathLess(p, p)
    ensures PathLess(p, q) && PathLess(q, r) ==> PathLess(p, r)
    ensures !PathLess(p, q) && !PathLess(q, p) <==> Alike(p, q)
  {
    if p.data.Some? {
      var a := p.data.value;
      StringOrder(a.prefix.GetOr(""), "", "");
      SegmentsOrder(a.segments, [], []);
    }
    if p.data.Some? && q.data.Some? {
      var a, b := p.data.value, q.data.value;
      var c := if r.data.Some? then r.data.value else b;
      StringOrder(a.prefix.GetOr(""), b.prefix.GetOr(""), c.prefix.GetOr(""));
      StringOrder(b.prefix.GetOr(""), c.prefix.GetOr(""), c.prefix.GetOr(""));
      SegmentsOrder(a.segments, b.segments, c.segments);
      TypeRankIsInjective(p.typ, q.typ);
      TypeRankIsInjective(q.typ, r.typ);
      hide StringLess, SegmentsLess, SameUpToNul, TypeRank;
    }
  }

  lemma TypeRankIsInjective(s: ServerType, t: ServerType)
    ensures TypeRank(s) == TypeRank(t) <==> s == t
  {
  }
}
