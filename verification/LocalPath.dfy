/**
 Local paths where `/` separates segments (the branch of src/engine/local_path.cpp for other systems than
 Windows): the canonicaliser that works in place on a buffer, with a stack of the beginnings of segments.
 */
module LocalPath {
  import opened Options

  const NUL: char := '\0'

  // ---- What canonical means ----

  predicate IsOrdinary(s: string) {
    s != "" && s != "." && s != ".." && '/' !in s
  }

  predicate AllOrdinary(segments: seq<string>) {
    forall k :: 0 <= k < |segments| ==> IsOrdinary(segments[k])
  }

  /** Every segment followed by a separator. */
  function SegmentText(segments: seq<string>): string {
    if segments == [] then "" else SegmentText(segments[..|segments| - 1]) + segments[|segments| - 1] + "/"
  }

  function PathText(segments: seq<string>): string {
    "/" + SegmentText(segments)
  }

  // ---- Resolving ----

  /** What a piece between separators does: nothing, one back unless at the root, or one down. */
  function Entered(segments: seq<string>, piece: string): seq<string> {
    if piece == "" || piece == "." then segments
    else if piece == ".." then if segments == [] then [] else segments[..|segments| - 1]
    else segments + [piece]
  }

  function FindSlash(s: string): (r: nat)
    ensures r <= |s| && (r < |s| ==> s[r] == '/') && forall k :: 0 <= k < r ==> s[k] != '/'
  {
    if s == "" || s[0] == '/' then 0 else 1 + FindSlash(s[1..])
  }

  /** The segments once every separator has been passed, and the piece behind the last one. */
  datatype Walk = Walk(segments: seq<string>, rest: string)

  function Walked(segments: seq<string>, s: string): Walk
    decreases |s|
  {
    var n := FindSlash(s);
    if n == |s| then Walk(segments, s) else Walked(Entered(segments, s[..n]), s[n + 1..])
  }

  /** The characters in front of the first NUL. */
  function CString(s: string): (r: string)
    ensures |r| <= |s| && r == s[..|r|] && (|r| < |s| ==> s[|r|] == NUL) && NUL !in r
  {
    if s == "" || s[0] == NUL then "" else [s[0]] + CString(s[1..])
  }

  /** The canonical form and, if wanted, the file name split off from its end. */
  datatype Outcome = Outcome(path: string, file: Option<string>)

  function Canonicalised(text: string, wantFile: bool): Option<Outcome> {
    var s := CString(text);
    if s == "" || s[0] != '/' then None
    else
      var w := Walked([], s[1..]);
      if wantFile && IsOrdinary(w.rest) then Some(Outcome(PathText(w.segments), Some(w.rest)))
      else Some(Outcome(PathText(Entered(w.segments, w.rest)), None))
  }

  lemma {:induction false} WalkedIsOrdinary(segments: seq<string>, s: string)
    requires AllOrdinary(segments)
    ensures AllOrdinary(Walked(segments, s).segments) && '/' !in Walked(segments, s).rest
    decreases |s|
  {
    var n := FindSlash(s);
    if n < |s| {
      assert '/' !in s[..n];
      WalkedIsOrdinary(Entered(segments, s[..n]), s[n + 1..]);
    }
  }

  lemma {:induction false} SegmentTextAppend(a: seq<string>, b: seq<string>)
    ensures SegmentText(a + b) == SegmentText(a) + SegmentText(b)
  {
    if b == [] {
      assert a + b == a;
    } else {
      var m := |b| - 1;
      assert (a + b)[..|a| + m] == a + b[..m] && (a + b)[|a| + m] == b[m];
      SegmentTextAppend(a, b[..m]);
    }
  }

  /** Walking over the text of ordinary segments collects them. */
  lemma {:induction false} WalksOver(segments: seq<string>, more: seq<string>)
    requires AllOrdinary(more)
    ensures Walked(segments, SegmentText(more)) == Walk(segments + more, "")
    decreases |more|
  {
    if more == [] {
      assert segments + more == segments;
    } else {
      var s, rest := more[0], more[1..];
      assert more == [s] + rest && SegmentText([s]) == s + "/";
      SegmentTextAppend([s], rest);
      var text := s + "/" + SegmentText(rest);
      assert forall k :: 0 <= k < |s| ==> text[k] == s[k];
      assert text[|s|] == '/';
      assert FindSlash(text) == |s| && text[..|s|] == s && text[|s| + 1..] == SegmentText(rest);
      assert AllOrdinary(rest);
      assert segments + [s] + rest == segments + more;
      hide SegmentText, AllOrdinary, FindSlash;
      WalksOver(segments + [s], rest);
    }
  }

  /** What is in the buffer: the root, the segments and the piece being read. */
  function Buffered(segments: seq<string>, piece: string): string {
    PathText(segments) + piece
  }

  /** The stack of beginnings: of each segment, and of the piece being read. */
  predicate Stacked(stack: seq<nat>, segments: seq<string>) {
    && |stack| == |segments| + 1
    && forall k :: 0 <= k < |stack| ==> stack[k] == |PathText(segments[..k])|
  }

  datatype Last = Separator | Dot | DotDot | Segment

  function LastOf(piece: string): Last {
    if piece == "" then Separator else if piece == "." then Dot else if piece == ".." then DotDot else Segment
  }

  predicate Holds(buf: array<char>, text: string)
    reads buf
  {
    |text| <= buf.Length && buf[..|text|] == text
  }

  lemma WalkStep(segments: seq<string>, piece: string, rest: string)
    requires '/' !in piece
    ensures Walked(segments, piece + "/" + rest) == Walked(Entered(segments, piece), rest)
  {
    var s := piece + "/" + rest;
    assert s[|piece|] == '/' && forall k :: 0 <= k < |piece| ==> s[k] == piece[k];
    assert FindSlash(s) == |piece| && s[..|piece|] == piece && s[|piece| + 1..] == rest;
  }

  lemma WalkEnds(segments: seq<string>, piece: string)
    requires '/' !in piece
    ensures Walked(segments, piece) == Walk(segments, piece)
  {
  }

  lemma PushedText(segments: seq<string>, piece: string)
    ensures PathText(segments + [piece]) == Buffered(segments, piece) + "/"
  {
    var more := segments + [piece];
    assert more[..|more| - 1] == segments;
    assert "/" + (SegmentText(segments) + piece + "/") == "/" + SegmentText(segments) + piece + "/";
  }

  lemma PushedStack(stack: seq<nat>, segments: seq<string>, piece: string)
    requires Stacked(stack, segments)
    ensures Stacked(stack + [|PathText(segments + [piece])|], segments + [piece])
  {
    var more := segments + [piece];
    assert forall k :: 0 <= k <= |segments| ==> more[..k] == segments[..k];
    assert more[..|more|] == more;
    hide SegmentText;
  }

  lemma PoppedStack(stack: seq<nat>, segments: seq<string>)
    requires Stacked(stack, segments)
    ensures |stack| == |segments| + 1
    ensures stack[|stack| - 1] == |PathText(segments)|
    ensures segments != [] ==> Stacked(stack[..|stack| - 1], segments[..|segments| - 1])
    ensures segments != [] ==> PathText(segments[..|segments| - 1]) <= PathText(segments)
  {
    assert segments[..|segments|] == segments;
    if segments != [] {
      var less := segments[..|segments| - 1];
      assert forall k :: 0 <= k < |segments| ==> less[..k] == segments[..k];
      assert PathText(segments) == PathText(less) + (segments[|segments| - 1] + "/");
    }
    hide SegmentText;
  }

  /** The state of the in-place algorithm after the segments so far and the piece being read. */
  ghost predicate Ready(buf: array<char>, out: nat, stack: seq<nat>, last: Last, segments: seq<string>, piece: string)
    reads buf
  {
    && Holds(buf, Buffered(segments, piece)) && out == |Buffered(segments, piece)|
    && Stacked(stack, segments)
    && last == LastOf(piece) && '/' !in piece
  }

  lemma RootIsReady(buf: array<char>)
    requires buf.Length > 0 && buf[0] == '/'
    ensures Ready(buf, 1, [1], Separator, [], "")
  {
    assert PathText([]) == "/" && Buffered([], "") == "/";
  }

  /** An ordinary piece ends: it gets its separator, and a new beginning goes on the stack. */
  method PushPiece(buf: array<char>, out: nat, stack: seq<nat>, ghost segments: seq<string>, ghost piece: string)
    returns (stack': seq<nat>)
    requires Ready(buf, out, stack, Segment, segments, piece) && out < buf.Length
    modifies buf
    ensures Ready(buf, out + 1, stack', Separator, segments + [piece], "")
  {
    PushedText(segments, piece);
    PushedStack(stack, segments, piece);
    hide Stacked, PathText;
    buf[out] := '/';
    stack' := stack + [out + 1];
    assert Buffered(segments + [piece], "") == PathText(segments + [piece]);
  }

  /** Back to the last beginning on the stack, which belongs to fewer segments. */
  lemma BackIsReady(buf: array<char>, out: nat, stack: seq<nat>, last: Last, segments: seq<string>, piece: string,
                    stack': seq<nat>, less: seq<string>)
    requires Ready(buf, out, stack, last, segments, piece)
    requires Stacked(stack', less) && PathText(less) <= PathText(segments)
    ensures Ready(buf, stack'[|stack'| - 1], stack', Separator, less, "") && stack'[|stack'| - 1] <= out
  {
    PoppedStack(stack', less);
    hide Stacked, PathText;
    BufferShrinks(buf, segments, less, piece);
  }

  /** A separator: the piece just read is dropped, takes the segment before it with it, or becomes a segment. */
  method PassSeparator(buf: array<char>, out: nat, stack: seq<nat>, last: Last, ghost segments: seq<string>, ghost piece: string)
    returns (out': nat, stack': seq<nat>)
    requires Ready(buf, out, stack, last, segments, piece) && out < buf.Length
    modifies buf
    ensures Ready(buf, out', stack', Separator, Entered(segments, piece), "") && out' <= out + 1
  {
    PoppedStack(stack, segments);
    LastIsOf(buf, out, stack, last, segments, piece);
    out', stack' := out, stack;
    hide *;
    match last
    case Separator =>
    case Dot =>
      out' := stack[|stack| - 1];
      BackIsReady(buf, out, stack, last, segments, piece, stack, segments);
    case DotDot =>
      if |stack| > 1 {
        stack' := stack[..|stack| - 1];
      }
      out' := stack'[|stack'| - 1];
      BackIsReady(buf, out, stack, last, segments, piece, stack', Entered(segments, piece));
    case Segment =>
      stack' := PushPiece(buf, out, stack, segments, piece);
      out' := out + 1;
  }

  lemma LastIsOf(buf: array<char>, out: nat, stack: seq<nat>, last: Last, segments: seq<string>, piece: string)
    requires Ready(buf, out, stack, last, segments, piece)
    ensures Stacked(stack, segments) && |stack| == |segments| + 1
    ensures last == Separator ==> piece == ""
    ensures Entered(segments, piece) ==
      match last
      case Separator => segments
      case Dot => segments
      case DotDot => if segments == [] then [] else segments[..|segments| - 1]
      case Segment => segments + [piece]
  {
    hide Stacked, PathText, Holds;
    assert |stack| == |segments| + 1 by {
      PoppedStack(stack, segments);
    }
  }

  lemma BufferShrinks(buf: array<char>, segments: seq<string>, less: seq<string>, piece: string)
    requires Holds(buf, Buffered(segments, piece)) && PathText(less) <= PathText(segments)
    ensures Holds(buf, Buffered(less, "")) && |Buffered(less, "")| == |PathText(less)|
  {
    hide PathText;
    assert Buffered(less, "") == PathText(less);
    assert PathText(less) <= Buffered(segments, piece);
  }

  function NextLast(last: Last, c: char): Last {
    if c != '.' then Segment
    else match last
      case Separator => Dot
      case Dot => DotDot
      case _ => Segment
  }

  method PassCharacter(buf: array<char>, out: nat, ghost stack: seq<nat>, last: Last, c: char, ghost segments: seq<string>, ghost piece: string)
    returns (last': Last)
    requires Ready(buf, out, stack, last, segments, piece) && out < buf.Length && c != '/'
    modifies buf
    ensures Ready(buf, out + 1, stack, last', segments, piece + [c])
  {
    last' := NextLast(last, c);
    buf[out] := c;
    hide PathText;
    assert Buffered(segments, piece + [c]) == Buffered(segments, piece) + [c];
    assert last' == LastOf(piece + [c]) by {
      if piece == "" {
        assert piece + [c] == [c];
      } else if |piece| == 1 {
        assert (piece + [c])[0] == piece[0] && (piece + [c])[1] == c;
      } else if |piece| == 2 {
        assert |piece + [c]| == 3;
      }
    }
  }

  lemma CStringEnds(text: string)
    ensures forall p :: 0 <= p <= |CString(text)| ==> (At(text, p) == NUL <==> p == |CString(text)|)
    ensures forall p :: 0 <= p < |CString(text)| ==> text[p] == CString(text)[p]
  {
    var s := CString(text);
    forall p | 0 <= p < |s| ensures text[p] == s[p] != NUL {
      assert text[..|s|][p] == text[p];
    }
  }

  function At(text: string, p: nat): char {
    if p < |text| then text[p] else NUL
  }

  class Path {
    var path: string

    constructor ()
      ensures path == ""
    {
      path := "";
    }

    /** The scan over the text up to its first NUL; it never writes further than it has read. */
    method Scan(buf: array<char>, text: string) returns (out: nat, stack: seq<nat>, last: Last, ghost w: Walk)
      requires CString(text) != "" && text[0] == '/' && buf.Length == |text| + 1
      modifies buf
      ensures w == Walked([], CString(text)[1..]) && Ready(buf, out, stack, last, w.segments, w.rest)
      ensures out <= |text|
    {
      ghost var s := CString(text);
      CStringEnds(text);
      hide *;
      buf[0] := '/';
      out, stack, last := 1, [1], Separator;
      var p: nat := 1;
      ghost var segments: seq<string>, piece: string := [], "";
      RootIsReady(buf);
      assert piece + s[1..] == s[1..];
      while At(text, p) != NUL
        invariant out <= p && 1 <= p <= |s| <= |text|
        invariant Ready(buf, out, stack, last, segments, piece)
        invariant Walked([], s[1..]) == Walked(segments, piece + s[p..])
        decreases |text| - p
      {
        NoSlash(buf, out, stack, last, segments, piece);
        if text[p] == '/' {
          out, stack := PassSeparator(buf, out, stack, last, segments, piece);
          last := Separator;
          SlashRead(s, p, segments, piece);
          segments, piece := Entered(segments, piece), "";
        } else {
          CharacterRead(s, p, piece);
          last := PassCharacter(buf, out, stack, last, text[p], segments, piece);
          out := out + 1;
          piece := piece + [text[p]];
        }
        p := p + 1;
      }
      assert piece + s[p..] == piece;
      NoSlash(buf, out, stack, last, segments, piece);
      WalkEnds(segments, piece);
      w := Walk(segments, piece);
    }

    /**
     Succeeds exactly for absolute paths, with the canonical form; no write goes beyond one character more than
     the text has.  A failure leaves the path empty.
     */
    method SetPath(text: string, wantFile: bool) returns (ok: bool, file: Option<string>)
      modifies this
      ensures ok <==> Canonicalised(text, wantFile).Some?
      ensures path == if ok then Canonicalised(text, wantFile).value.path else ""
      ensures file == if ok then Canonicalised(text, wantFile).value.file else None
    {
      file := None;
      if At(text, 0) != '/' {
        path := "";
        return false, None;
      }
      var buf := new char[|text| + 1];
      var out, stack, last;
      ghost var w;
      out, stack, last, w := Scan(buf, text);
      hide Walked, CString, SegmentText, PathText, Stacked;
      assert Canonicalised(text, wantFile) ==
        if wantFile && IsOrdinary(w.rest) then Some(Outcome(PathText(w.segments), Some(w.rest)))
        else Some(Outcome(PathText(Entered(w.segments, w.rest)), None));
      assert IsOrdinary(w.rest) <==> last == Segment;
      if wantFile && last == Segment {
        PoppedStack(stack, w.segments);
        file := Some(buf[stack[|stack| - 1]..out]);
        path := buf[..stack[|stack| - 1]];
      } else {
        out, stack := PassSeparator(buf, out, stack, last, w.segments, w.rest);
        path := buf[..out];
      }
      return true, file;
    }

    method AddSegment(segment: string)
      requires path != "" && '/' !in segment
      modifies this
      ensures path == if segment == "" then old(path) else old(path) + segment + "/"
    {
      if segment != "" {
        path := path + segment;
        path := path + "/";
      }
    }

    /** Goes back to the separator before the last character. */
    method MakeParent() returns (ok: bool, last: Option<string>)
      modifies this
      ensures ok <==> ParentEnd(old(path)) > 0
      ensures path == if ok then old(path)[..ParentEnd(old(path))] else old(path)
      ensures last == if ok then Some(old(path)[ParentEnd(old(path))..|old(path)| - 1]) else None
    {
      var i := |path| - 2;
      while i >= 0
        invariant -2 <= i < |path| && path == old(path)
        invariant forall k :: 0 <= k && i < k < |path| - 1 ==> path[k] != '/'
      {
        if path[i] == '/' {
          last := Some(path[i + 1..|path| - 1]);
          ParentEndIs(path, i + 1);
          path := path[..i + 1];
          return true, last;
        }
        i := i - 1;
      }
      ParentEndIs(path, 0);
      return false, None;
    }

    method ChangePath(newPath: string, wantFile: bool) returns (ok: bool, file: Option<string>)
      modifies this
      ensures newPath == "" ==> !ok && path == old(path)
      ensures newPath != "" && newPath[0] != '/' && old(path) == "" ==> !ok && path == ""
      ensures newPath != "" && (newPath[0] == '/' || old(path) != "") ==>
        var r := Canonicalised(if newPath[0] == '/' then newPath else old(path) + newPath, wantFile);
        && (ok <==> r.Some?)
        && path == (if ok then r.value.path else "")
        && file == (if ok then r.value.file else None)
    {
      if newPath == "" {
        return false, None;
      }
      if newPath[0] == '/' {
        ok, file := SetPath(newPath, wantFile);
      } else {
        if path == "" {
          return false, None;
        }
        ok, file := SetPath(path + newPath, wantFile);
      }
    }
  }

  /** The position behind the last separator that has a character behind it, or 0. */
  function ParentEnd(path: string): (r: nat)
    ensures r == 0 || (r < |path| && path[r - 1] == '/')
    ensures forall k :: r <= k < |path| - 1 ==> path[k] != '/'
  {
    if |path| < 2 then 0 else if path[|path| - 2] == '/' then |path| - 1 else ParentEnd(path[..|path| - 1])
  }

  lemma ParentEndIs(path: string, n: nat)
    requires n == 0 || (n < |path| && path[n - 1] == '/')
    requires forall k :: n <= k < |path| - 1 ==> path[k] != '/'
    ensures ParentEnd(path) == n
  {
  }

  lemma SlashRead(s: string, p: nat, segments: seq<string>, piece: string)
    requires p < |s| && s[p] == '/' && '/' !in piece
    ensures Walked(segments, piece + s[p..]) == Walked(Entered(segments, piece), "" + s[p + 1..])
  {
    assert piece + s[p..] == piece + "/" + s[p + 1..] && "" + s[p + 1..] == s[p + 1..];
    WalkStep(segments, piece, s[p + 1..]);
  }

  lemma CharacterRead(s: string, p: nat, piece: string)
    requires p < |s|
    ensures piece + s[p..] == piece + [s[p]] + s[p + 1..]
  {
  }

  lemma NoSlash(buf: array<char>, out: nat, stack: seq<nat>, last: Last, segments: seq<string>, piece: string)
    requires Ready(buf, out, stack, last, segments, piece)
    ensures '/' !in piece
  {
  }

  // ---- Canonical paths ----

  /** The text of some ordinary segments, none of which holds a NUL. */
  ghost predicate IsCanonicalText(path: string, segments: seq<string>) {
    AllOrdinary(segments) && path == PathText(segments) && NUL !in path
  }

  lemma {:induction false} NulStaysOut(segments: seq<string>, s: string)
    requires NUL !in SegmentText(segments) && NUL !in s
    ensures NUL !in SegmentText(Walked(segments, s).segments) && NUL !in Walked(segments, s).rest
    decreases |s|
  {
    var n := FindSlash(s);
    if n < |s| {
      var piece := s[..n];
      EnteredHasNoNul(segments, piece);
      assert NUL !in s[n + 1..];
      hide SegmentText, Entered;
      NulStaysOut(Entered(segments, piece), s[n + 1..]);
    }
  }

  lemma EnteredHasNoNul(segments: seq<string>, piece: string)
    requires NUL !in SegmentText(segments) && NUL !in piece
    ensures NUL !in SegmentText(Entered(segments, piece))
  {
    if piece == ".." && segments != [] {
      var less := segments[..|segments| - 1];
      assert SegmentText(segments) == SegmentText(less) + (segments[|segments| - 1] + "/");
      forall c | c in SegmentText(less) ensures c != NUL {
        assert c in SegmentText(segments);
      }
    } else if piece != "" && piece != "." && piece != ".." {
      assert (segments + [piece])[..|segments|] == segments;
    }
  }

  lemma EnteredIsOrdinary(segments: seq<string>, piece: string)
    requires AllOrdinary(segments) && '/' !in piece
    ensures AllOrdinary(Entered(segments, piece))
  {
  }

  /** Whatever absolute text is set, the path is canonical, and so is a split-off file name ordinary. */
  lemma ResultIsCanonical(text: string, wantFile: bool) returns (segments: seq<string>)
    requires Canonicalised(text, wantFile).Some?
    ensures IsCanonicalText(Canonicalised(text, wantFile).value.path, segments)
    ensures Canonicalised(text, wantFile).value.file.Some? ==> IsOrdinary(Canonicalised(text, wantFile).value.file.value)
  {
    var s := CString(text);
    var w := Walked([], s[1..]);
    WalkedIsOrdinary([], s[1..]);
    NulStaysOut([], s[1..]);
    EnteredHasNoNul(w.segments, w.rest);
    EnteredIsOrdinary(w.segments, w.rest);
    segments := if wantFile && IsOrdinary(w.rest) then w.segments else Entered(w.segments, w.rest);
    hide Walked, CString, SegmentText, AllOrdinary, Entered;
  }

  lemma {:induction false} CStringIsSame(s: string)
    requires NUL !in s
    ensures CString(s) == s
  {
    if s != "" {
      CStringIsSame(s[1..]);
      assert s == [s[0]] + s[1..];
    }
  }

  /** A canonical path is its own canonical form, and there is no file name to split off. */
  lemma CanonicalIsFixed(path: string, segments: seq<string>, wantFile: bool)
    requires IsCanonicalText(path, segments)
    ensures Canonicalised(path, wantFile) == Some(Outcome(path, None))
  {
    CStringIsSame(path);
    assert path[1..] == SegmentText(segments);
    WalksOver([], segments);
    assert [] + segments == segments;
    hide Walked, CString, SegmentText;
  }

  /** Canonicalising is idempotent. */
  lemma Idempotent(text: string, wantFile: bool, wantFile': bool)
    requires Canonicalised(text, wantFile).Some?
    ensures Canonicalised(Canonicalised(text, wantFile).value.path, wantFile') == Some(Outcome(Canonicalised(text, wantFile).value.path, None))
  {
    var segments := ResultIsCanonical(text, wantFile);
    hide Canonicalised;
    CanonicalIsFixed(Canonicalised(text, wantFile).value.path, segments, wantFile');
  }

  lemma {:induction false} WalksThrough(segments: seq<string>, more: seq<string>, s: string)
    requires AllOrdinary(more)
    ensures Walked(segments, SegmentText(more) + s) == Walked(segments + more, s)
    decreases |more|
  {
    if more == [] {
      assert segments + more == segments && SegmentText(more) + s == s;
    } else {
      var first, rest := more[0], more[1..];
      assert more == [first] + rest && SegmentText([first]) == first + "/";
      assert AllOrdinary(rest) && '/' !in first && Entered(segments, first) == segments + [first];
      assert segments + [first] + rest == segments + more;
      hide AllOrdinary, Entered, Walked, SegmentText;
      SegmentTextAppend([first], rest);
      assert first + "/" + SegmentText(rest) + s == first + "/" + (SegmentText(rest) + s);
      WalkStep(segments, first, SegmentText(rest) + s);
      WalksThrough(segments + [first], rest, s);
    }
  }

  lemma BehindRoot(path: string, text: string, s: string)
    requires path == "/" + text
    ensures path + s != "" && (path + s)[0] == '/' && (path + s)[1..] == text + s
  {
  }

  lemma BehindCanonical(path: string, segments: seq<string>, s: string)
    requires IsCanonicalText(path, segments) && NUL !in s
    ensures path + s != "" && CString(path + s) == path + s && (path + s)[0] == '/' && Walked([], (path + s)[1..]) == Walked(segments, s)
  {
    var text := SegmentText(segments);
    assert path == "/" + text && AllOrdinary(segments);
    CStringIsSame(path + s);
    hide *;
    BehindRoot(path, text, s);
    assert [] + segments == segments;
    WalksThrough([], segments, s);
  }

  /** Relative to a canonical path, a text continues from its segments: two dots go up, a name goes down. */
  lemma RelativeContinues(path: string, segments: seq<string>, s: string)
    requires IsCanonicalText(path, segments) && NUL !in s
    ensures
      var w := Walked(segments, s);
      Canonicalised(path + s, false) == Some(Outcome(PathText(Entered(w.segments, w.rest)), None))
  {
    hide Walked, CString, PathText, Entered;
    BehindCanonical(path, segments, s);
    assert Walked([], CString(path + s)[1..]) == Walked(segments, s);
  }

  lemma Regrouped(piece: string, rest: string, b: string)
    ensures piece + "/" + rest + "/" + b == piece + "/" + (rest + "/" + b)
  {
  }

  lemma AtSlash(a: string, n: nat)
    requires n < |a| && a[n] == '/' && forall k :: 0 <= k < n ==> a[k] != '/'
    ensures a == a[..n] + "/" + a[n + 1..] && '/' !in a[..n]
  {
  }

  lemma {:induction false} WalkedBehind(segments: seq<string>, a: string, b: string)
    ensures var w := Walked(segments, a); Walked(segments, a + "/" + b) == Walked(Entered(w.segments, w.rest), b)
    decreases |a|
  {
    var n := FindSlash(a);
    hide Walked, Entered, FindSlash;
    if n == |a| {
      WalkStep(segments, a, b);
      WalkEnds(segments, a);
    } else {
      var piece, rest := a[..n], a[n + 1..];
      AtSlash(a, n);
      WalkStep(segments, piece, rest);
      WalkStep(segments, piece, rest + "/" + b);
      Regrouped(piece, rest, b);
      WalkedBehind(Entered(segments, piece), rest, b);
    }
  }

  function Resolved(s: string): seq<string> {
    var w := Walked([], s);
    Entered(w.segments, w.rest)
  }

  lemma ResolvedIs(s: string)
    requires NUL !in s
    ensures Canonicalised("/" + s, false) == Some(Outcome(PathText(Resolved(s)), None))
    ensures IsCanonicalText(PathText(Resolved(s)), Resolved(s))
  {
    var w := Walked([], s);
    CStringIsSame("/" + s);
    assert ("/" + s)[1..] == s;
    WalkedIsOrdinary([], s);
    NulStaysOut([], s);
    EnteredHasNoNul(w.segments, w.rest);
    EnteredIsOrdinary(w.segments, w.rest);
    hide Walked, CString, SegmentText, AllOrdinary, Entered;
  }

  /** What follows a separator is resolved from what is in front of it. */
  lemma Stepwise(a: string, b: string, wantFile: bool)
    requires NUL !in a && NUL !in b
    ensures Canonicalised("/" + a, false).Some?
    ensures Canonicalised("/" + (a + "/" + b), wantFile) == Canonicalised(Canonicalised("/" + a, false).value.path + b, wantFile)
  {
    var s, segments := a + "/" + b, Resolved(a);
    ResolvedIs(a);
    WalkedBehind([], a, b);
    assert Walked([], s) == Walked(segments, b);
    CStringIsSame("/" + s);
    Behind(s);
    hide Walked, CString, PathText, Entered, AllOrdinary, Resolved;
    BehindCanonical(PathText(segments), segments, b);
  }

  lemma Behind(s: string)
    ensures "/" + s != "" && ("/" + s)[0] == '/' && ("/" + s)[1..] == s
  {
  }

  /** An empty piece and a dot do nothing, and two dots lead to the parent, or stay at the root. */
  lemma DotsGoUp(path: string, segments: seq<string>, wantFile: bool)
    requires IsCanonicalText(path, segments)
    ensures Canonicalised(path, wantFile) == Canonicalised(path + ".", wantFile) == Some(Outcome(path, None))
    ensures Canonicalised(path + "..", wantFile) ==
      Some(Outcome(if segments == [] then path else path[..|path| - |segments[|segments| - 1]| - 1], None))
  {
    CanonicalIsFixed(path, segments, wantFile);
    WalkEnds(segments, ".");
    WalkEnds(segments, "..");
    if segments != [] {
      assert path == PathText(segments[..|segments| - 1]) + (segments[|segments| - 1] + "/");
    }
    hide Walked, CString, PathText, AllOrdinary;
    BehindCanonical(path, segments, ".");
    BehindCanonical(path, segments, "..");
  }

  /** With a file wanted, exactly the last ordinary piece is split off. */
  lemma SplitsFile(path: string, segments: seq<string>, name: string)
    requires IsCanonicalText(path, segments) && IsOrdinary(name) && NUL !in name
    ensures Canonicalised(path + name, true) == Some(Outcome(path, Some(name)))
  {
    hide Walked, CString, PathText;
    BehindCanonical(path, segments, name);
    WalkEnds(segments, name);
  }

  /** `AddSegment` keeps a path canonical for an ordinary name, and is then the change into that name. */
  lemma AddSegmentGoesDown(path: string, segments: seq<string>, name: string)
    requires IsCanonicalText(path, segments) && IsOrdinary(name) && NUL !in name
    ensures IsCanonicalText(path + name + "/", segments + [name])
    ensures Canonicalised(path + name, false) == Some(Outcome(path + name + "/", None))
  {
    PushedText(segments, name);
    WalkEnds(segments, name);
    RelativeContinues(path, segments, name);
  }

  /** `MakeParent` takes off exactly the last segment; only the root has no parent. */
  lemma ParentGoesUp(path: string, segments: seq<string>)
    requires IsCanonicalText(path, segments)
    ensures ParentEnd(path) > 0 <==> segments != []
    ensures segments != [] ==>
      && IsCanonicalText(path[..ParentEnd(path)], segments[..|segments| - 1])
      && path[ParentEnd(path)..|path| - 1] == segments[|segments| - 1]
  {
    if segments == [] {
      assert path == "/";
    } else {
      var less, name := segments[..|segments| - 1], segments[|segments| - 1];
      var n := |PathText(less)|;
      assert path == PathText(less) + (name + "/");
      EndsWithSlash(less);
      assert path[..n] == PathText(less) && path[n..|path| - 1] == name;
      assert forall k :: n <= k < |path| - 1 ==> path[k] == name[k - n];
      ParentEndIs(path, n);
      hide PathText;
    }
  }

  lemma EndsWithSlash(segments: seq<string>)
    ensures PathText(segments) != "" && PathText(segments)[|PathText(segments)| - 1] == '/'
  {
  }
}
