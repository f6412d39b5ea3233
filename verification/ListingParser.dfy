/**
 The buffering line splitter of the directory listing parser
 (`AddData`, `GetLine`, `ParseData`, `Parse` in src/engine/directorylistingparser.cpp).

 The bytes live in the chunks they arrived in, and an offset into the first chunk marks how far
 they were taken.  Character conversion and the recognition of one line are parameters.
 */
module ListingParser {
  import opened Options
  import opened ListingLines

  type Chunks = seq<seq<Byte>>

  ghost function Flat(chunks: Chunks): (r: seq<Byte>)
  {
    if chunks == [] then [] else chunks[0] + Flat(chunks[1..])
  }

  lemma {:induction false} FlatAppend(a: Chunks, b: Chunks)
    ensures Flat(a + b) == Flat(a) + Flat(b)
  {
    if a == [] {
      assert a + b == b;
    } else {
      assert (a + b)[1..] == a[1..] + b;
      FlatAppend(a[1..], b);
    }
  }

  ghost predicate NonEmpty(chunks: Chunks) {
    forall k :: 0 <= k < |chunks| ==> chunks[k] != []
  }

  /** The bytes from offset `off` of chunk `k` to the end. */
  ghost function Suffix(chunks: Chunks, k: nat, off: nat): seq<Byte>
    requires k < |chunks| ==> off <= |chunks[k]|
  {
    if k < |chunks| then chunks[k][off..] + Flat(chunks[k + 1..]) else []
  }

  /** One byte further, and into the next chunk when this one is used up. */
  lemma SuffixStep(chunks: Chunks, k: nat, off: nat)
    requires k < |chunks| && off < |chunks[k]|
    ensures
      var s := Suffix(chunks, k, off);
      && s != [] && s[0] == chunks[k][off]
      && s[1..] == if off + 1 < |chunks[k]| then Suffix(chunks, k, off + 1) else Suffix(chunks, k + 1, 0)
  {
    var s := Suffix(chunks, k, off);
    assert s[1..] == chunks[k][off + 1..] + Flat(chunks[k + 1..]);
    if off + 1 == |chunks[k]| {
      assert s[1..] == Flat(chunks[k + 1..]);
      if k + 1 < |chunks| {
        assert chunks[k + 1..][0] == chunks[k + 1] && chunks[k + 1..][1..] == chunks[k + 2..];
        assert chunks[k + 1][0..] == chunks[k + 1];
      }
    }
  }

  lemma FlatOne(data: seq<Byte>)
    ensures Flat([data]) == data
  {
    assert Flat([data][1..]) == [];
  }

  lemma SuffixAppend(chunks: Chunks, off: nat, data: seq<Byte>)
    requires if chunks == [] then off == 0 else off <= |chunks[0]|
    ensures Suffix(chunks + [data], 0, off) == Suffix(chunks, 0, off) + data
  {
    FlatOne(data);
    if chunks == [] {
      assert (chunks + [data])[1..] == [] && data[0..] == data;
    } else {
      assert (chunks + [data])[1..] == chunks[1..] + [data];
      FlatAppend(chunks[1..], [data]);
    }
  }

  lemma NoSuffix(chunks: Chunks, off: nat)
    ensures Suffix(chunks, |chunks|, off) == []
  {
  }

  lemma SuffixOfTail(chunks: Chunks, k: nat, off: nat)
    requires k <= |chunks| && (k < |chunks| ==> off <= |chunks[k]|)
    ensures Suffix(chunks[k..], 0, off) == Suffix(chunks, k, off)
  {
    if k < |chunks| {
      assert chunks[k..][1..] == chunks[k + 1..];
    }
  }

  lemma SuffixLength(chunks: Chunks, k: nat, from: nat, to: nat)
    requires k < |chunks| && from <= |chunks[k]| && to <= |chunks[k]|
    ensures |Suffix(chunks, k, from)| - |Suffix(chunks, k, to)| == to - from
  {
  }

  /** Copying `n` bytes of chunk `k` continues the copy of `t`, and a whole chunk leads into the next one. */
  lemma CopyStep(chunks: Chunks, k: nat, from: nat, n: nat, t: seq<Byte>, done: nat)
    requires k < |chunks| && from + n <= |chunks[k]| && done <= |t|
    requires Suffix(chunks, k, from) == t[done..]
    ensures done + n <= |t| && t[..done] + chunks[k][from..from + n] == t[..done + n]
    ensures from + n == |chunks[k]| ==> Suffix(chunks, k + 1, 0) == t[done + n..]
  {
    assert t[done..][..n] == chunks[k][from..][..n];
    assert t[done..][..n] == t[done..done + n] && chunks[k][from..][..n] == chunks[k][from..from + n];
    assert t[..done] + t[done..done + n] == t[..done + n];
    if from + n == |chunks[k]| {
      assert t[done..][n..] == Flat(chunks[k + 1..]) && t[done..][n..] == t[done + n..];
      if k + 1 < |chunks| {
        assert chunks[k + 1..][1..] == chunks[k + 2..] && chunks[k + 1][0..] == chunks[k + 1];
      }
    }
  }

  lemma FirstLineIs(t: seq<Byte>, n: nat)
    requires n <= |t| && (forall k :: 0 <= k < n ==> !IsBreak(t[k])) && (n < |t| ==> IsBreak(t[n]))
    ensures |FirstLine(t)| == n
  {
    assert forall k :: 0 <= k < |FirstLine(t)| ==> FirstLine(t)[k] == t[k];
  }

  lemma FirstLineIsNotEmpty(t: seq<Byte>)
    requires t != [] && Trimmed(t) == t
    ensures FirstLine(t) != []
  {
  }

  /** The state of line recognition: entries found so far, and the unrecognised previous line. */
  datatype Recognised<S> = Recognised(state: S, prevLine: Option<string>)

  /** `parseLine(state, line, concatenated)`: the new state and whether the line was recognised. */
  type LineParser<!S> = (S, string, bool) -> (S, bool)

  /** A line that is not recognised is tried once more, joined to an unrecognised line before it. */
  ghost function Feed<S>(parseLine: LineParser<S>, r: Recognised<S>, line: string): Recognised<S> {
    var (s, ok) := parseLine(r.state, line, false);
    if ok then Recognised(s, None)
    else if r.prevLine.None? then Recognised(s, Some(line))
    else
      var (s', ok') := parseLine(s, r.prevLine.value + " " + line, true);
      Recognised(s', if ok' then None else Some(line))
  }

  ghost function FeedAll<S>(parseLine: LineParser<S>, r: Recognised<S>, lines: seq<string>): Recognised<S> {
    if lines == [] then r
    else Feed(parseLine, FeedAll(parseLine, r, lines[..|lines| - 1]), lines[|lines| - 1])
  }

  lemma {:induction false} FeedAllAppend<S>(parseLine: LineParser<S>, r: Recognised<S>, a: seq<string>, b: seq<string>)
    ensures FeedAll(parseLine, r, a + b) == FeedAll(parseLine, FeedAll(parseLine, r, a), b)
  {
    if b == [] {
      assert a + b == a;
    } else {
      var n := |b| - 1;
      assert (a + b)[..|a + b| - 1] == a + b[..n];
      FeedAllAppend(parseLine, r, a, b[..n]);
    }
  }

  // ---- The calls of the line parser ----

  /** One call of the line parser, and whether it recognised the text. */
  datatype Call = Call(text: string, joined: bool, ok: bool)

  predicate AllRefused(calls: seq<Call>) {
    forall c :: c in calls ==> !c.ok
  }

  /** What is tried for line `k`: the line alone, and if that fails after a line that failed in every way, the two with a space between. */
  predicate TriesForLine(lines: seq<string>, tries: seq<seq<Call>>, k: nat)
    requires k < |lines| == |tries|
  {
    var now := tries[k];
    && now != [] && now[0].text == lines[k] && !now[0].joined
    && (if !now[0].ok && k > 0 && AllRefused(tries[k - 1])
        then |now| == 2 && now[1].text == lines[k - 1] + " " + lines[k] && now[1].joined
        else |now| == 1)
  }

  predicate TriesForAll(lines: seq<string>, tries: seq<seq<Call>>) {
    |tries| == |lines| && forall k :: 0 <= k < |lines| ==> TriesForLine(lines, tries, k)
  }

  ghost function Joined(tries: seq<seq<Call>>): seq<Call> {
    if tries == [] then [] else Joined(tries[..|tries| - 1]) + tries[|tries| - 1]
  }

  /** The state after the calls, one after the other. */
  ghost function AfterCalls<S>(parseLine: LineParser<S>, s: S, calls: seq<Call>): S {
    if calls == [] then s
    else
      var last := calls[|calls| - 1];
      parseLine(AfterCalls(parseLine, s, calls[..|calls| - 1]), last.text, last.joined).0
  }

  /** Each call had the answer that it gives after those before it. */
  ghost predicate Answered<S>(parseLine: LineParser<S>, s: S, calls: seq<Call>) {
    calls == [] ||
    var before, last := calls[..|calls| - 1], calls[|calls| - 1];
    Answered(parseLine, s, before) && parseLine(AfterCalls(parseLine, s, before), last.text, last.joined).1 == last.ok
  }

  lemma OneMoreCall<S>(parseLine: LineParser<S>, s: S, calls: seq<Call>, text: string, joined: bool) returns (c: Call)
    ensures var (s', ok) := parseLine(AfterCalls(parseLine, s, calls), text, joined);
      && c == Call(text, joined, ok)
      && AfterCalls(parseLine, s, calls + [c]) == s'
      && (Answered(parseLine, s, calls) ==> Answered(parseLine, s, calls + [c]))
  {
    c := Call(text, joined, parseLine(AfterCalls(parseLine, s, calls), text, joined).1);
    assert (calls + [c])[..|calls + [c]| - 1] == calls;
  }

  lemma TriesExtend(lines: seq<string>, tries: seq<seq<Call>>, line: string, now: seq<Call>)
    requires TriesForAll(lines, tries) && TriesForLine(lines + [line], tries + [now], |lines|)
    ensures TriesForAll(lines + [line], tries + [now]) && Joined(tries + [now]) == Joined(tries) + now
  {
    assert (tries + [now])[..|tries + [now]| - 1] == tries;
    var lines', tries' := lines + [line], tries + [now];
    forall k | 0 <= k < |lines'| ensures TriesForLine(lines', tries', k) {
      if k < |lines| {
        assert TriesForLine(lines, tries, k);
      }
    }
  }

  /** The calls for one line. */
  lemma TriesNow<S>(parseLine: LineParser<S>, start: S, calls: seq<Call>, prevLine: Option<string>, line: string) returns (now: seq<Call>)
    requires Answered(parseLine, start, calls)
    ensures Answered(parseLine, start, calls + now) && now != [] && now[0].text == line && !now[0].joined
    ensures if !now[0].ok && prevLine.Some? then |now| == 2 && now[1].text == prevLine.value + " " + line && now[1].joined else |now| == 1
    ensures Feed(parseLine, Recognised(AfterCalls(parseLine, start, calls), prevLine), line) ==
      Recognised(AfterCalls(parseLine, start, calls + now), if AllRefused(now) then Some(line) else None)
  {
    hide AfterCalls, Answered;
    var c := OneMoreCall(parseLine, start, calls, line, false);
    now := [c];
    if !c.ok && prevLine.Some? {
      var c2 := OneMoreCall(parseLine, start, calls + [c], prevLine.value + " " + line, true);
      now := [c, c2];
      assert calls + [c] + [c2] == calls + now;
      assert AllRefused(now) <==> !c2.ok;
    }
  }

  lemma FeedOne<S>(parseLine: LineParser<S>, r: Recognised<S>, lines: seq<string>, line: string)
    ensures FeedAll(parseLine, r, lines + [line]) == Feed(parseLine, FeedAll(parseLine, r, lines), line)
  {
    assert (lines + [line])[..|lines + [line]| - 1] == lines;
  }

  /** The line that waits to be joined. */
  function Waiting(lines: seq<string>, tries: seq<seq<Call>>): Option<string>
    requires |tries| == |lines|
  {
    if lines != [] && AllRefused(tries[|lines| - 1]) then Some(lines[|lines| - 1]) else None
  }

  /** Feeding the lines amounts to these calls. */
  ghost predicate FeedsBy<S>(parseLine: LineParser<S>, start: S, lines: seq<string>, tries: seq<seq<Call>>) {
    && TriesForAll(lines, tries)
    && Answered(parseLine, start, Joined(tries))
    && FeedAll(parseLine, Recognised(start, None), lines) == Recognised(AfterCalls(parseLine, start, Joined(tries)), Waiting(lines, tries))
  }

  lemma NowTried(lines: seq<string>, tries: seq<seq<Call>>, line: string, now: seq<Call>)
    requires TriesForAll(lines, tries) && now != [] && now[0].text == line && !now[0].joined
    requires
      if !now[0].ok && Waiting(lines, tries).Some?
      then |now| == 2 && now[1].text == Waiting(lines, tries).value + " " + line && now[1].joined
      else |now| == 1
    ensures TriesForLine(lines + [line], tries + [now], |lines|)
    ensures Waiting(lines + [line], tries + [now]) == if AllRefused(now) then Some(line) else None
  {
    assert (tries + [now])[|lines|] == now && (lines + [line])[|lines|] == line;
    assert lines != [] ==> (tries + [now])[|lines| - 1] == tries[|lines| - 1] && (lines + [line])[|lines| - 1] == lines[|lines| - 1];
    assert |tries| == |lines|;
    hide TriesForAll, AllRefused;
  }

  lemma FeedsOneMore<S>(parseLine: LineParser<S>, start: S, lines: seq<string>, tries: seq<seq<Call>>, line: string) returns (now: seq<Call>)
    requires FeedsBy(parseLine, start, lines, tries)
    ensures FeedsBy(parseLine, start, lines + [line], tries + [now])
  {
    assert |tries| == |lines|;
    hide Joined, AfterCalls, Answered, FeedAll, Feed, TriesForAll, TriesForLine, Waiting, AllRefused;
    now := TriesNow(parseLine, start, Joined(tries), Waiting(lines, tries), line);
    NowTried(lines, tries, line, now);
    TriesExtend(lines, tries, line, now);
    FeedOne(parseLine, Recognised(start, None), lines, line);
  }

  /**
   Feeding lines makes these calls and no others: every line alone, in order, and right after a line that was refused,
   the line before it and it, if that one had been recognised neither alone nor joined.
   */
  lemma {:induction false} FeedingTries<S>(parseLine: LineParser<S>, start: S, lines: seq<string>) returns (tries: seq<seq<Call>>)
    ensures TriesForAll(lines, tries)
    ensures Answered(parseLine, start, Joined(tries))
    ensures FeedAll(parseLine, Recognised(start, None), lines) == Recognised(AfterCalls(parseLine, start, Joined(tries)), Waiting(lines, tries))
  {
    if lines == [] {
      tries := [];
    } else {
      var before, line := lines[..|lines| - 1], lines[|lines| - 1];
      tries := FeedingTries(parseLine, start, before);
      hide TriesForAll, Answered, FeedAll, AfterCalls, Joined, Waiting;
      var now := FeedsOneMore(parseLine, start, before, tries, line);
      assert before + [line] == lines;
      tries := tries + [now];
    }
  }

  /** A line parser that keeps a record of its calls. */
  ghost function Recorder(recognises: (seq<Call>, string, bool) -> bool): LineParser<seq<Call>> {
    (calls, text, joined) => (calls + [Call(text, joined, recognises(calls, text, joined))], recognises(calls, text, joined))
  }

  lemma RecordedOne(recognises: (seq<Call>, string, bool) -> bool, before: seq<Call>, last: Call)
    requires Recorder(recognises)(before, last.text, last.joined).1 == last.ok
    ensures Recorder(recognises)(before, last.text, last.joined).0 == before + [last]
  {
  }

  lemma {:induction false} RecordedAre(recognises: (seq<Call>, string, bool) -> bool, calls: seq<Call>)
    requires Answered(Recorder(recognises), [], calls)
    ensures AfterCalls(Recorder(recognises), [], calls) == calls
  {
    if calls != [] {
      var before, last := calls[..|calls| - 1], calls[|calls| - 1];
      RecordedAre(recognises, before);
      RecordedOne(recognises, before, last);
      assert before + [last] == calls;
      hide Recorder, Answered;
    }
  }

  /** The record of such a parser. */
  lemma RecordedTries(recognises: (seq<Call>, string, bool) -> bool, lines: seq<string>) returns (tries: seq<seq<Call>>)
    ensures TriesForAll(lines, tries)
    ensures FeedAll(Recorder(recognises), Recognised([], None), lines).state == Joined(tries)
  {
    tries := FeedingTries(Recorder(recognises), [], lines);
    RecordedAre(recognises, Joined(tries));
    hide *;
  }

  type Decoder = seq<Byte> -> string

  const BYTE_ORDER_MARK: char := '\U{FEFF}'

  function WithoutMark(s: string): (r: string)
    ensures s == r || s == [BYTE_ORDER_MARK] + r
    ensures s != r <==> s != "" && s[0] == '\U{FEFF}'
  {
    if s != "" && s[0] == BYTE_ORDER_MARK then s[1..] else s
  }

  /** The text of each line, leaving out lines that convert to nothing. */
  ghost function Texts(decode: Decoder, lines: seq<seq<Byte>>): seq<string> {
    if lines == [] then [] else
      var text := WithoutMark(decode(lines[0]));
      (if text == "" then [] else [text]) + Texts(decode, lines[1..])
  }

  lemma TextsUnfold(decode: Decoder, l: seq<Byte>, lines: seq<seq<Byte>>)
    ensures var text := WithoutMark(decode(l));
      Texts(decode, [l] + lines) == (if text == "" then [] else [text]) + Texts(decode, lines)
  {
    assert ([l] + lines)[1..] == lines;
    hide WithoutMark;
  }

  lemma RegroupedTexts(a: seq<string>, b: seq<string>, c: seq<string>)
    ensures a + (b + c) == a + b + c && [] + a == a
  {
  }

  lemma {:induction false} TextsAppend(decode: Decoder, a: seq<seq<Byte>>, b: seq<seq<Byte>>)
    ensures Texts(decode, a + b) == Texts(decode, a) + Texts(decode, b)
  {
    if a == [] {
      assert a + b == b;
      RegroupedTexts(Texts(decode, b), [], []);
    } else {
      assert a == [a[0]] + a[1..] && a + b == [a[0]] + (a[1..] + b);
      TextsAppend(decode, a[1..], b);
      TextsUnfold(decode, a[0], a[1..]);
      TextsUnfold(decode, a[0], a[1..] + b);
      var text := WithoutMark(decode(a[0]));
      hide *;
      RegroupedTexts(if text == "" then [] else [text], Texts(decode, a[1..]), Texts(decode, b));
    }
  }

  lemma NoTexts(decode: Decoder)
    ensures Texts(decode, []) == []
  {
  }

  lemma OneMoreText(decode: Decoder, lines: seq<seq<Byte>>, l: seq<Byte>)
    ensures var text := WithoutMark(decode(l));
      Texts(decode, lines + [l]) == Texts(decode, lines) + if text == "" then [] else [text]
  {
    TextsAppend(decode, lines, [l]);
  }

  lemma FeedNothing<S>(decode: Decoder, parseLine: LineParser<S>, r: Recognised<S>)
    ensures FeedAll(parseLine, r, Texts(decode, [])) == r
  {
  }

  lemma FeedMore<S>(decode: Decoder, parseLine: LineParser<S>, r: Recognised<S>, done: seq<seq<Byte>>, taken: seq<seq<Byte>>, line: string)
    requires Texts(decode, taken) == [line]
    ensures FeedAll(parseLine, r, Texts(decode, done + taken)) == Feed(parseLine, FeedAll(parseLine, r, Texts(decode, done)), line)
  {
    TextsAppend(decode, done, taken);
    FeedAllAppend(parseLine, r, Texts(decode, done), [line]);
    assert [line][..0] == [];
  }

  lemma FeedNoText<S>(decode: Decoder, parseLine: LineParser<S>, r: Recognised<S>, done: seq<seq<Byte>>, taken: seq<seq<Byte>>)
    requires Texts(decode, taken) == []
    ensures FeedAll(parseLine, r, Texts(decode, done + taken)) == FeedAll(parseLine, r, Texts(decode, done))
  {
    TextsAppend(decode, done, taken);
    assert Texts(decode, done) + [] == Texts(decode, done);
  }

  lemma TookEverything(s: seq<Byte>, taken: seq<seq<Byte>>, s': seq<Byte>, partial: bool, error: bool)
    requires Took(s, taken, s', partial) && ScanOf(s', partial) == Scan([], s', error)
    ensures ScanOf(s, partial) == Scan(taken, s', error)
  {
    assert taken + [] == taken;
  }

  class ListingParser<S> {
    var dataList: Chunks
    var currentOffset: nat
    var totalData: nat
    var prevLine: Option<string>
    var state: S
    const decode: Decoder
    const parseLine: LineParser<S>

    constructor (decode: Decoder, parseLine: LineParser<S>, state: S)
      ensures Valid() && Ready() && Rest() == [] && totalData == 0
      ensures this.decode == decode && this.parseLine == parseLine && Lines() == Recognised(state, None)
    {
      dataList, currentOffset, totalData, prevLine := [], 0, 0, None;
      this.decode, this.parseLine, this.state := decode, parseLine, state;
    }

    ghost predicate Valid()
      reads this
    {
      NonEmpty(dataList) && (dataList != [] ==> currentOffset < |dataList[0]|)
    }

    /** More data may be added: an empty buffer starts at offset 0. */
    ghost predicate Ready()
      reads this
    {
      dataList == [] ==> currentOffset == 0
    }

    ghost function Rest(): seq<Byte>
      requires Valid()
      reads this
    {
      Suffix(dataList, 0, currentOffset)
    }

    ghost function Lines(): Recognised<S>
      reads this
    {
      Recognised(state, prevLine)
    }

    /** Skips blanks, dropping the chunks it leaves behind. */
    method TrimBlanks() returns (more: bool)
      requires Valid() && dataList != []
      modifies this`dataList, this`currentOffset
      ensures Valid() && Rest() == Trimmed(old(Rest()))
      ensures more == (dataList != []) && Ready()
    {
      hide Suffix;
      ghost var start := Rest();
      var iter := 0;
      while IsBlank(dataList[iter][currentOffset])
        invariant 0 <= iter < |dataList| && dataList == old(dataList) && currentOffset < |dataList[iter]|
        invariant Trimmed(Suffix(dataList, iter, currentOffset)) == Trimmed(start)
        decreases |dataList| - iter, |dataList[iter]| - currentOffset
      {
        SuffixStep(dataList, iter, currentOffset);
        currentOffset := currentOffset + 1;
        if currentOffset >= |dataList[iter]| {
          iter, currentOffset := iter + 1, 0;
          if iter == |dataList| {
            NoSuffix(dataList, 0);
            NoSuffix([], 0);
            dataList := [];
            return false;
          }
        }
      }
      SuffixStep(dataList, iter, currentOffset);
      SuffixOfTail(dataList, iter, currentOffset);
      dataList := dataList[iter..];
      return true;
    }

    /** Finds the end of the first line: its chunk, the offset in it and the length of the line. */
    method FindBreak() returns (iter: nat, offset: nat, reslen: nat)
      requires Valid() && dataList != []
      ensures iter <= |dataList| && (iter < |dataList| ==> offset < |dataList[iter]|)
      ensures reslen == |FirstLine(Rest())| <= |Rest()| && Suffix(dataList, iter, offset) == Rest()[reslen..]
      ensures iter == |dataList| <==> reslen == |Rest()|
    {
      hide Suffix;
      hide FirstLine;
      ghost var t := Rest();
      iter, offset, reslen := 0, currentOffset, 0;
      while !IsBreak(dataList[iter][offset])
        invariant iter < |dataList| && offset < |dataList[iter]|
        invariant reslen <= |t| && Suffix(dataList, iter, offset) == t[reslen..]
        invariant forall k :: 0 <= k < reslen ==> !IsBreak(t[k])
        decreases |dataList| - iter, |dataList[iter]| - offset
      {
        SuffixStep(dataList, iter, offset);
        assert t[reslen..][1..] == t[reslen + 1..];
        reslen, offset := reslen + 1, offset + 1;
        if offset >= |dataList[iter]| {
          iter := iter + 1;
          if iter == |dataList| {
            NoSuffix(dataList, offset);
            NoSuffix(dataList, 0);
            FirstLineIs(t, reslen);
            return;
          }
          offset := 0;
        }
      }
      SuffixStep(dataList, iter, offset);
      FirstLineIs(t, reslen);
    }

    /** Copies the first `buflen` bytes of the buffer, chunk by chunk, up to offset `end` of chunk `iter`. */
    method CopyLine(iter: nat, end: nat, buflen: nat) returns (res: seq<Byte>)
      requires Valid() && dataList != [] && 0 < buflen <= |Rest()|
      requires iter <= |dataList| && (iter < |dataList| ==> end < |dataList[iter]|)
      requires Suffix(dataList, iter, end) == Rest()[buflen..]
      ensures res == Rest()[..buflen]
    {
      hide Suffix;
      ghost var t := Rest();
      var reslen: nat, startpos: nat := buflen, currentOffset;
      res := [];
      var i := 0;
      NoSuffix(dataList, startpos);
      while i < iter && reslen > 0
        invariant i <= iter && |res| + reslen == buflen <= |t|
        invariant res == t[..|res|]
        invariant i < |dataList| ==> startpos <= |dataList[i]|
        invariant reslen > 0 ==> Suffix(dataList, i, startpos) == t[|res|..]
      {
        var copylen: nat := |dataList[i]| - startpos;
        if copylen > reslen {
          copylen := reslen;
        }
        CopyStep(dataList, i, startpos, copylen, t, |res|);
        res := res + dataList[i][startpos..startpos + copylen];
        reslen, startpos, i := reslen - copylen, 0, i + 1;
      }
      NoSuffix(dataList, startpos);
      if iter < |dataList| && reslen > 0 {
        var copylen := end - startpos;
        SuffixLength(dataList, iter, startpos, end);
        assert copylen == reslen;
        // so the chunk is not used up: it still holds the line break
        assert reslen < |dataList[iter]|;
        CopyStep(dataList, iter, startpos, copylen, t, |res|);
        res := res + dataList[iter][startpos..startpos + copylen];
      }
    }

    /**
     The next line with some text in it.  `breakAtEnd` keeps an unfinished last line in the buffer.
     `taken` are the raw lines this call took, the last one being the line it returns.
     */
    method GetLine(breakAtEnd: bool) returns (line: Option<string>, error: bool, ghost taken: seq<seq<Byte>>)
      requires Valid()
      modifies this`dataList, this`currentOffset
      ensures Valid() && (breakAtEnd && old(Ready()) ==> Ready())
      ensures |Rest()| <= |old(Rest())| && (line.Some? ==> |Rest()| < |old(Rest())|)
      ensures Texts(decode, taken) == if line.Some? then [line.value] else []
      ensures line.Some? ==> !error
      ensures Took(old(Rest()), taken, Rest(), breakAtEnd)
      ensures line.None? ==> ScanOf(Rest(), breakAtEnd) == Scan([], Rest(), error)
    {
      hide ScanOf, Took, Texts, Suffix, Trimmed, FirstLine;
      line, error, taken := None, false, [];
      NoTexts(decode);
      TookBlanks(Rest(), breakAtEnd);
      while dataList != []
        invariant Valid() && !error && line == None
        invariant breakAtEnd && old(Ready()) ==> Ready()
        invariant |Rest()| <= |old(Rest())|
        invariant Texts(decode, taken) == []
        invariant Took(old(Rest()), taken, Rest(), breakAtEnd)
        decreases |Rest()|
      {
        ghost var s := Rest();
        var more := TrimBlanks();
        ghost var t := Rest();
        TookBlanks(s, breakAtEnd);
        TookTwice(old(Rest()), taken, s, [], t, breakAtEnd);
        assert taken + [] == taken;
        ScanNothingFinished(t, breakAtEnd);
        if !more {
          NoSuffix(dataList, currentOffset);
          return;
        }
        SuffixStep(dataList, 0, currentOffset);
        var iter, offset, reslen := FindBreak();
        if reslen > MAX_LINE {
          error := true;
          return;
        }
        if iter == |dataList| && breakAtEnd {
          return;
        }
        FirstLineIsNotEmpty(t);
        var res := CopyLine(iter, offset, reslen);
        TookLine(old(Rest()), taken, t, res, breakAtEnd);
        OneMoreText(decode, taken, res);
        SuffixOfTail(dataList, iter, offset);
        dataList, currentOffset := dataList[iter..], offset;
        taken := taken + [res];
        var buffer := WithoutMark(decode(res));
        if buffer != "" {
          line := Some(buffer);
          return;
        }
      }
      NoSuffix(dataList, currentOffset);
      ScanNothingFinished([], breakAtEnd);
    }

    /** Takes what the buffer offers and feeds it to the recognition, line by line. */
    method ParseData(partial: bool) returns (ok: bool)
      requires Valid()
      modifies this
      ensures Valid() && (partial && old(Ready()) ==> Ready()) && totalData == old(totalData)
      ensures var r := ScanOf(old(Rest()), partial);
        ok == !r.error && Rest() == r.rest && Lines() == FeedAll(parseLine, old(Lines()), Texts(decode, r.lines))
    {
      hide ScanOf, Took, Texts, Suffix, FeedAll;
      ghost var start, done := Rest(), [];
      TookBlanks(start, partial);
      FeedNothing(decode, parseLine, Lines());
      var line, error, taken := GetLine(partial);
      assert [] + taken == taken;
      while line.Some?
        invariant Valid() && (partial && old(Ready()) ==> Ready()) && totalData == old(totalData)
        invariant Took(start, done + taken, Rest(), partial)
        invariant Lines() == FeedAll(parseLine, old(Lines()), Texts(decode, done))
        invariant Texts(decode, taken) == if line.Some? then [line.value] else []
        invariant line.None? ==> ScanOf(Rest(), partial) == Scan([], Rest(), error)
        decreases |Rest()|, line.Some?
      {
        var (s, ok') := parseLine(state, line.value, false);
        state := s;
        if !ok' {
          if prevLine.Some? {
            var (s', ok'') := parseLine(state, prevLine.value + " " + line.value, true);
            state := s';
            prevLine := if ok'' then None else line;
          } else {
            prevLine := line;
          }
        } else {
          prevLine := None;
        }
        FeedMore(decode, parseLine, old(Lines()), done, taken, line.value);
        done := done + taken;
        ghost var before := Rest();
        line, error, taken := GetLine(partial);
        TookTwice(start, done, before, taken, Rest(), partial);
      }
      FeedNoText(decode, parseLine, old(Lines()), done, taken);
      TookEverything(start, done + taken, Rest(), partial, error);
      return !error;
    }

    /** Appends a chunk; parsing starts once 512 bytes have arrived, so that the encoding can be deduced. */
    method AddData(data: seq<Byte>) returns (ok: bool)
      requires Valid() && Ready() && data != []
      modifies this
      ensures Valid() && Ready() && totalData == old(totalData) + |data|
      ensures var s := old(Rest()) + data; var r := ScanOf(s, true);
        if totalData < 512 then ok && Rest() == s && Lines() == old(Lines())
        else ok == !r.error && Rest() == r.rest && Lines() == FeedAll(parseLine, old(Lines()), Texts(decode, r.lines))
    {
      hide ScanOf, FeedAll, Texts, Suffix;
      SuffixAppend(dataList, currentOffset, data);
      dataList := dataList + [data];
      totalData := totalData + |data|;
      if totalData < MIN_DATA {
        return true;
      }
      ok := ParseData(true);
    }

    /** Takes everything that is left.  After a line without a line break the offset is stale: no data may follow. */
    method Parse() returns (ok: bool)
      requires Valid()
      modifies this
      ensures Valid()
      ensures var r := ScanOf(old(Rest()), false);
        ok == !r.error && Lines() == FeedAll(parseLine, old(Lines()), Texts(decode, r.lines))
    {
      ok := ParseData(false);
    }
  }

  const MIN_DATA := 512

  /**
   Chunk invariance.  However a stream is cut into non-empty chunks, parsing fails exactly when the stream
   has a line that is too long, and otherwise has recognised exactly the lines of the whole stream, by these tries.
   */
  method ParseStream<S>(decode: Decoder, parseLine: LineParser<S>, start: S, chunks: Chunks)
    returns (ok: bool, state: S, ghost tries: seq<seq<Call>>)
    requires NonEmpty(chunks)
    ensures ok <==> forall l :: l in Lines(Flat(chunks)) ==> |l| <= 10000
    ensures ok ==> state == FeedAll(parseLine, Recognised(start, None), Texts(decode, Lines(Flat(chunks)))).state
    ensures ok ==>
      && TriesForAll(Texts(decode, Lines(Flat(chunks))), tries)
      && Answered(parseLine, start, Joined(tries)) && state == AfterCalls(parseLine, start, Joined(tries))
  {
    hide ScanOf, FeedAll, Texts, Suffix, Lines, Flat, TookForGood, TriesForAll, Answered, AfterCalls, Joined;
    tries := FeedingTries(parseLine, start, Texts(decode, Lines(Flat(chunks))));
    var parser := new ListingParser<S>(decode, parseLine, start);
    ghost var done := [];
    FeedNothing(decode, parseLine, Recognised(start, None));
    NothingTaken();
    assert chunks[..0] == [];
    var k := 0;
    while k < |chunks|
      invariant k <= |chunks| && fresh(parser) && parser.Valid() && parser.Ready()
      invariant parser.decode == decode && parser.parseLine == parseLine
      invariant TookForGood(Flat(chunks[..k]), done, parser.Rest())
      invariant parser.Lines() == FeedAll(parseLine, Recognised(start, None), Texts(decode, done))
    {
      ghost var rest := parser.Rest();
      var _ := parser.AddData(chunks[k]);
      ghost var r := ScanOf(rest + chunks[k], true);
      FlatPrefix(chunks, k);
      TookMoreData(Flat(chunks[..k]), done, rest, chunks[k]);
      if parser.totalData >= MIN_DATA {
        TookByScan(Flat(chunks[..k + 1]), done, rest + chunks[k]);
        TextsAppend(decode, done, r.lines);
        FeedAllAppend(parseLine, Recognised(start, None), Texts(decode, done), Texts(decode, r.lines));
        done := done + r.lines;
      }
      k := k + 1;
    }
    assert chunks[..k] == chunks;
    ghost var r := ScanOf(parser.Rest(), false);
    TextsAppend(decode, done, r.lines);
    FeedAllAppend(parseLine, Recognised(start, None), Texts(decode, done), Texts(decode, r.lines));
    TookAtTheEnd(Flat(chunks), done, parser.Rest());
    ok := parser.Parse();
    state := parser.state;
  }

  /** `Took` whatever data is still to come. */
  ghost predicate TookForGood(s: seq<Byte>, taken: seq<seq<Byte>>, s': seq<Byte>) {
    forall c :: Took(s + c, taken, s' + c, false)
  }

  lemma FlatPrefix(chunks: Chunks, k: nat)
    requires k < |chunks|
    ensures Flat(chunks[..k + 1]) == Flat(chunks[..k]) + chunks[k]
  {
    assert chunks[..k] + [chunks[k]] == chunks[..k + 1];
    FlatAppend(chunks[..k], [chunks[k]]);
    FlatOne(chunks[k]);
  }

  lemma NothingTaken()
    ensures TookForGood(Flat([]), [], [])
  {
    forall c: seq<Byte> ensures Took([] + c, [], [] + c, false) {
      TookBlanks([] + c, false);
    }
  }

  lemma TookMoreData(s: seq<Byte>, taken: seq<seq<Byte>>, s': seq<Byte>, data: seq<Byte>)
    requires TookForGood(s, taken, s')
    ensures TookForGood(s + data, taken, s' + data)
  {
    hide Took;
    forall c ensures Took(s + data + c, taken, s' + data + c, false) {
      assert Took(s + (data + c), taken, s' + (data + c), false);
      assert s + data + c == s + (data + c) && s' + data + c == s' + (data + c);
    }
  }

  lemma TookByScan(s: seq<Byte>, taken: seq<seq<Byte>>, s': seq<Byte>)
    requires TookForGood(s, taken, s')
    ensures TookForGood(s, taken + ScanOf(s', true).lines, ScanOf(s', true).rest)
  {
    var r := ScanOf(s', true);
    forall c ensures Took(s + c, taken + r.lines, r.rest + c, false) {
      ScanContinues(s', c, false);
      TookTwice(s + c, taken, s' + c, r.lines, r.rest + c, false);
    }
  }

  lemma TookAtTheEnd(s: seq<Byte>, taken: seq<seq<Byte>>, s': seq<Byte>)
    requires TookForGood(s, taken, s')
    ensures var r := ScanOf(s', false);
      && (r.error <==> exists l :: l in Lines(s) && !Fits(l))
      && (!r.error ==> taken + r.lines == Lines(s))
  {
    assert s + [] == s && s' + [] == s';
    assert Took(s + [], taken, s' + [], false);
    FinalScanIsLines(s);
  }
}
