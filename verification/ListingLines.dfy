/**
 What the lines of a byte stream are, independently of how the stream arrives
 (the rules inside `GetLine`, src/engine/directorylistingparser.cpp).
 */
module ListingLines {
  type Byte = x: int | 0 <= x < 256

  const MAX_LINE := 10000

  predicate IsBreak(b: Byte) {
    b == 10 || b == 13 || b == 0
  }

  predicate IsBlank(b: Byte) {
    IsBreak(b) || b == 32 || b == 9
  }

  /** The stream without leading blanks and line breaks. */
  function Trimmed(s: seq<Byte>): (r: seq<Byte>)
    ensures |r| <= |s| && (r != [] ==> !IsBlank(r[0]))
  {
    if s != [] && IsBlank(s[0]) then Trimmed(s[1..]) else s
  }

  /** Everything up to the first line break, trailing blanks included. */
  function FirstLine(s: seq<Byte>): (r: seq<Byte>)
    ensures r <= s
    ensures |r| < |s| ==> IsBreak(s[|r|])
    ensures forall k :: 0 <= k < |r| ==> !IsBreak(r[k])
  {
    if s == [] || IsBreak(s[0]) then [] else [s[0]] + FirstLine(s[1..])
  }

  /** The reference definition: the whole stream cut at once. */
  function Lines(s: seq<Byte>): (r: seq<seq<Byte>>)
    ensures forall l :: l in r ==> l != [] && !IsBlank(l[0])
    decreases |s|
  {
    var t := Trimmed(s);
    if t == [] then [] else
      var l := FirstLine(t);
      [l] + Lines(t[|l|..])
  }

  predicate Fits(l: seq<Byte>) {
    |l| <= MAX_LINE
  }

  /** What one scan takes off a buffer, what it leaves, and whether it met a line that is too long. */
  datatype Scan = Scan(lines: seq<seq<Byte>>, rest: seq<Byte>, error: bool)

  /** A partial scan leaves an unfinished last line in the buffer, a final one takes it. */
  function ScanOf(s: seq<Byte>, partial: bool): (r: Scan)
    ensures forall l :: l in r.lines ==> Fits(l)
    ensures |r.rest| <= |s|
    decreases |s|
  {
    var t := Trimmed(s);
    if t == [] then Scan([], [], false) else
      var l := FirstLine(t);
      if !Fits(l) then Scan([], t, true)
      else if partial && |l| == |t| then Scan([], t, false)
      else
        var r := ScanOf(t[|l|..], partial);
        Scan([l] + r.lines, r.rest, r.error)
  }

  /** Taking the lines `taken` off buffer `s` leaves `s'`, as far as any later scan can tell. */
  ghost predicate Took(s: seq<Byte>, taken: seq<seq<Byte>>, s': seq<Byte>, partial: bool) {
    var before, after := ScanOf(s, partial), ScanOf(s', partial);
    before == Scan(taken + after.lines, after.rest, after.error)
  }

  lemma {:induction false} TrimmedAppend(s: seq<Byte>, c: seq<Byte>)
    ensures Trimmed(s + c) == if Trimmed(s) == [] then Trimmed(c) else Trimmed(s) + c
    ensures Trimmed(Trimmed(s) + c) == Trimmed(s + c)
  {
    if s == [] {
      assert s + c == c;
    } else if IsBlank(s[0]) {
      assert (s + c)[1..] == s[1..] + c;
      TrimmedAppend(s[1..], c);
    } else {
      assert Trimmed(s + c) == s + c;
    }
  }

  lemma {:induction false} FirstLineAppend(s: seq<Byte>, c: seq<Byte>)
    ensures FirstLine(s + c) == if |FirstLine(s)| < |s| then FirstLine(s) else s + FirstLine(c)
  {
    if s == [] {
      assert s + c == c;
    } else if !IsBreak(s[0]) {
      assert (s + c)[1..] == s[1..] + c;
      FirstLineAppend(s[1..], c);
    }
  }

  lemma {:induction false} TrimmedTwice(s: seq<Byte>)
    ensures Trimmed(Trimmed(s)) == Trimmed(s)
  {
    if s != [] && IsBlank(s[0]) {
      TrimmedTwice(s[1..]);
    }
  }

  lemma ScanSkipsBlanks(s: seq<Byte>, s': seq<Byte>, partial: bool)
    requires Trimmed(s) == Trimmed(s')
    ensures ScanOf(s, partial) == ScanOf(s', partial)
  {
  }

  /** A line at the front of a buffer that is finished, or taken by a final scan. */
  lemma ScanFinishedLine(s: seq<Byte>, t: seq<Byte>, l: seq<Byte>, partial: bool)
    requires t == Trimmed(s) && t != [] && l == FirstLine(t) && Fits(l) && (|l| < |t| || !partial)
    ensures var r := ScanOf(t[|l|..], partial); ScanOf(s, partial) == Scan([l] + r.lines, r.rest, r.error)
  {
  }

  lemma ScanNothingFinished(s: seq<Byte>, partial: bool)
    ensures var t := Trimmed(s); var l := FirstLine(t);
      && (t == [] ==> ScanOf(s, partial) == Scan([], [], false))
      && (!Fits(l) ==> ScanOf(s, partial) == Scan([], t, true))
      && (Fits(l) && |l| == |t| ==> ScanOf(s, true) == Scan([], t, false))
  {
  }

  lemma Regroup(l: seq<Byte>, a: seq<seq<Byte>>, b: seq<seq<Byte>>)
    ensures [l] + (a + b) == [l] + a + b
  {
  }

  /** What a partial scan took is final: later bytes only continue what it left. */
  lemma {:induction false} ScanContinues(s: seq<Byte>, c: seq<Byte>, partial: bool)
    ensures var first := ScanOf(s, true); Took(s + c, first.lines, first.rest + c, partial)
    ensures ScanOf(s, true).error ==> ScanOf(s + c, partial).error
    decreases |s|
  {
    hide ScanOf, FirstLine, Trimmed;
    TrimmedAppend(s, c);
    var t := Trimmed(s);
    var l := FirstLine(t);
    if t != [] && Fits(l) && |l| < |t| {
      FirstLineAppend(t, c);
      assert (t + c)[|l|..] == t[|l|..] + c;
      ScanContinues(t[|l|..], c, partial);
      ScanFinishedLine(s, t, l, true);
      ScanFinishedLine(s + c, t + c, l, partial);
      var first, second := ScanOf(t[|l|..], true), ScanOf(ScanOf(s, true).rest + c, partial);
      Regroup(l, first.lines, second.lines);
      hide Fits;
    } else {
      ScanStopsAtOnce(s, c, partial);
    }
  }

  lemma ScanStopsAtOnce(s: seq<Byte>, c: seq<Byte>, partial: bool)
    requires var t := Trimmed(s); var l := FirstLine(t); !Fits(l) || |l| == |t|
    ensures var first := ScanOf(s, true); Took(s + c, first.lines, first.rest + c, partial)
    ensures ScanOf(s, true).error ==> ScanOf(s + c, partial).error
  {
    hide ScanOf, FirstLine, Trimmed;
    var t := Trimmed(s);
    TrimmedAppend(s, c);
    FirstLineAppend(t, c);
    ScanNothingFinished(s, true);
    ScanSkipsBlanks(s + c, t + c, partial);
    ScanNothingFinished(s + c, partial);
    var second := ScanOf(t + c, partial);
    assert [] + second.lines == second.lines;
  }

  /** A final scan is exactly the reference cut, or stops at a line that is too long. */
  lemma {:induction false} FinalScanIsLines(s: seq<Byte>)
    ensures ScanOf(s, false).error <==> exists l :: l in Lines(s) && !Fits(l)
    ensures !ScanOf(s, false).error ==> ScanOf(s, false).lines == Lines(s) && ScanOf(s, false).rest == []
    decreases |s|
  {
    var t := Trimmed(s);
    if t != [] {
      var l := FirstLine(t);
      assert l in Lines(s);
      FinalScanIsLines(t[|l|..]);
      assert forall k :: k in Lines(s) <==> k == l || k in Lines(t[|l|..]);
    }
  }

  lemma TookBlanks(s: seq<Byte>, partial: bool)
    ensures Took(s, [], s, partial) && Took(s, [], Trimmed(s), partial)
    ensures Trimmed(Trimmed(s)) == Trimmed(s)
  {
    TrimmedTwice(s);
    ScanSkipsBlanks(s, Trimmed(s), partial);
    assert [] + ScanOf(s, partial).lines == ScanOf(s, partial).lines;
  }

  lemma TookLine(s: seq<Byte>, taken: seq<seq<Byte>>, s1: seq<Byte>, l: seq<Byte>, partial: bool)
    requires Took(s, taken, s1, partial)
    requires s1 != [] && Trimmed(s1) == s1 && l == FirstLine(s1) && Fits(l) && (|l| < |s1| || !partial)
    ensures Took(s, taken + [l], s1[|l|..], partial)
  {
    ScanFinishedLine(s1, s1, l, partial);
    TakesOne(ScanOf(s, partial), taken, ScanOf(s1, partial), l, ScanOf(s1[|l|..], partial));
    hide ScanOf, Trimmed, FirstLine, Fits;
  }

  lemma TakesOne(before: Scan, taken: seq<seq<Byte>>, between: Scan, l: seq<Byte>, after: Scan)
    requires before == Scan(taken + between.lines, between.rest, between.error)
    requires between == Scan([l] + after.lines, after.rest, after.error)
    ensures before == Scan(taken + [l] + after.lines, after.rest, after.error)
  {
    assert taken + ([l] + after.lines) == taken + [l] + after.lines;
  }

  lemma TookTwice(s: seq<Byte>, a: seq<seq<Byte>>, s1: seq<Byte>, b: seq<seq<Byte>>, s2: seq<Byte>, partial: bool)
    requires Took(s, a, s1, partial) && Took(s1, b, s2, partial)
    ensures Took(s, a + b, s2, partial)
  {
    hide ScanOf;
    var r := ScanOf(s2, partial);
    assert a + (b + r.lines) == a + b + r.lines;
  }

  // ---- What the lines are, said of the stream as a whole ----

  predicate OnlyBlanks(s: seq<Byte>) {
    forall k :: 0 <= k < |s| ==> s[k] in {0, 9, 10, 13, 32}
  }

  predicate IsLine(l: seq<Byte>) {
    l != [] && l[0] !in {9, 32} && forall k :: 0 <= k < |l| ==> l[k] !in {0, 10, 13}
  }

  /** `gaps[k]` stands before line `k`, and the last behind them all. */
  predicate Woven(s: seq<Byte>, gaps: seq<seq<Byte>>, lines: seq<seq<Byte>>)
    requires |gaps| == |lines| + 1
  {
    if lines == [] then s == gaps[0]
    else
      var n := |gaps[0]| + |lines[0]|;
      n <= |s| && s[..n] == gaps[0] + lines[0] && Woven(s[n..], gaps[1..], lines[1..])
  }

  /** A gap behind a line begins with a line break, unless the stream ends there. */
  predicate AreGaps(gaps: seq<seq<Byte>>) {
    && (forall k :: 0 <= k < |gaps| ==> OnlyBlanks(gaps[k]))
    && (forall k :: 0 < k < |gaps| - 1 ==> gaps[k] != [])
    && (forall k :: 0 < k < |gaps| && gaps[k] != [] ==> gaps[k][0] in {0, 10, 13})
  }

  lemma {:induction false} TrimmedBehindBlanks(s: seq<Byte>)
    ensures var n := |s| - |Trimmed(s)|; s[n..] == Trimmed(s) && OnlyBlanks(s[..n])
    ensures s != [] && IsBlank(s[0]) ==> |Trimmed(s)| < |s|
  {
    if s != [] && IsBlank(s[0]) {
      TrimmedBehindBlanks(s[1..]);
      assert Trimmed(s) == Trimmed(s[1..]);
      OneBlankMore(s, Trimmed(s[1..]));
      hide *;
    } else {
      assert s[0..] == s;
    }
  }

  lemma OneBlankMore(s: seq<Byte>, t: seq<Byte>)
    requires s != [] && IsBlank(s[0]) && |t| <= |s[1..]|
    requires var n := |s[1..]| - |t|; s[1..][n..] == t && OnlyBlanks(s[1..][..n])
    ensures var n := |s| - |t|; s[n..] == t && OnlyBlanks(s[..n])
  {
    var n := |s| - |t|;
    assert s[..n] == [s[0]] + s[1..][..n - 1];
  }

  /** These lines are what is between these gaps. */
  predicate Cut(s: seq<Byte>, gaps: seq<seq<Byte>>, lines: seq<seq<Byte>>) {
    && |gaps| == |lines| + 1 && Woven(s, gaps, lines) && AreGaps(gaps)
    && (forall l :: l in lines ==> IsLine(l))
    && (gaps[0] != [] ==> s != [] && gaps[0][0] == s[0])
    && (s != [] && s[0] in {0, 10, 13} ==> gaps[0] != [])
  }

  lemma WovenMore(gap: seq<Byte>, l: seq<Byte>, rest: seq<Byte>, gaps: seq<seq<Byte>>, lines: seq<seq<Byte>>)
    requires |gaps| == |lines| + 1 && Woven(rest, gaps, lines)
    ensures Woven(gap + l + rest, [gap] + gaps, [l] + lines)
  {
    var s := gap + l + rest;
    assert ([gap] + gaps)[1..] == gaps && ([l] + lines)[1..] == lines;
    assert s[..|gap| + |l|] == gap + l && s[|gap| + |l|..] == rest;
  }

  lemma GapsMore(gap: seq<Byte>, gaps: seq<seq<Byte>>)
    requires AreGaps(gaps) && OnlyBlanks(gap)
    requires |gaps| > 1 ==> gaps[0] != []
    requires gaps != [] && gaps[0] != [] ==> gaps[0][0] in {0, 10, 13}
    ensures AreGaps([gap] + gaps)
  {
    hide OnlyBlanks;
  }

  lemma OneMoreGap(gap: seq<Byte>, l: seq<Byte>, rest: seq<Byte>, gaps: seq<seq<Byte>>, lines: seq<seq<Byte>>)
    requires Cut(rest, gaps, lines) && OnlyBlanks(gap) && IsLine(l)
    requires if rest == [] then lines == [] else rest[0] in {0, 10, 13}
    ensures Cut(gap + l + rest, [gap] + gaps, [l] + lines)
  {
    WovenMore(gap, l, rest, gaps, lines);
    GapsMore(gap, gaps);
    assert (gap + l + rest)[0] == if gap == [] then l[0] else gap[0];
    assert ([gap] + gaps)[0] == gap;
    assert forall k :: k in [l] + lines ==> k == l || k in lines;
    hide Woven, AreGaps, OnlyBlanks;
  }

  lemma FirstLineIsLine(t: seq<Byte>)
    requires t != [] && !IsBlank(t[0])
    ensures IsLine(FirstLine(t)) && FirstLine(t) != [] && t == FirstLine(t) + t[|FirstLine(t)|..]
    ensures var rest := t[|FirstLine(t)|..]; rest != [] ==> rest[0] in {0, 10, 13}
  {
    assert FirstLine(t) != [];
  }

  lemma LinesUnfold(s: seq<Byte>)
    ensures var t := Trimmed(s);
      if t == [] then Lines(s) == [] else Lines(s) == [FirstLine(t)] + Lines(t[|FirstLine(t)|..])
  {
    hide Trimmed, FirstLine;
  }

  /**
   The lines are what is between the gaps: gaps are blanks, and begin with a line break, except for the first; lines
   have no line breaks and do not begin with blanks.
   */
  lemma {:induction false} LinesCutTheStream(s: seq<Byte>) returns (gaps: seq<seq<Byte>>)
    ensures Cut(s, gaps, Lines(s))
    decreases |s|
  {
    if Trimmed(s) == [] {
      gaps := [s];
      OnlyOneGap(s);
    } else {
      var gap, l, rest := FirstCut(s);
      hide *;
      gaps := LinesCutTheStream(rest);
      OneMoreGap(gap, l, rest, gaps, Lines(rest));
      gaps := [gap] + gaps;
    }
  }

  lemma OnlyOneGap(s: seq<Byte>)
    requires Trimmed(s) == []
    ensures Cut(s, [s], Lines(s))
  {
    TrimmedBehindBlanks(s);
    assert s[..|s|] == s;
    hide Trimmed;
  }

  lemma FirstCut(s: seq<Byte>) returns (gap: seq<Byte>, l: seq<Byte>, rest: seq<Byte>)
    requires Trimmed(s) != []
    ensures s == gap + l + rest && OnlyBlanks(gap) && IsLine(l) && |rest| < |s|
    ensures if rest == [] then Lines(rest) == [] else rest[0] in {0, 10, 13}
    ensures Lines(s) == [l] + Lines(rest)
  {
    var t := Trimmed(s);
    gap, l, rest := s[..|s| - |t|], FirstLine(t), t[|FirstLine(t)|..];
    TrimmedBehindBlanks(s);
    FirstLineIsLine(t);
    LinesUnfold(s);
    assert s == gap + t;
    Parts(s, gap, t, l, rest);
    hide Trimmed, FirstLine, OnlyBlanks, IsLine;
  }

  lemma Parts(s: seq<Byte>, gap: seq<Byte>, t: seq<Byte>, l: seq<Byte>, rest: seq<Byte>)
    requires s == gap + t && t == l + rest
    ensures s == gap + l + rest
  {
  }
}
