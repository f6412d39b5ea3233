/**
 The length-prefixed form in which paths are saved (`GetSafePath` and `SetSafePath` in
 src/engine/serverpath.cpp): a printer into a buffer whose size is computed beforehand, and a reader.
 */
module SafePath {
  import opened Options
  import opened ServerPaths

  const MAXLENGTH: nat := 32767
  const SIZELIMIT: nat := 0x1_0000_0000_0000_0000

  // ---- Decimal numbers ----

  predicate IsDigit(c: char) {
    '0' <= c <= '9'
  }

  function Digit(d: nat): (c: char)
    requires d < 10
    ensures IsDigit(c) && DigitValue(c) == d
  {
    ('0' as int + d) as char
  }

  function DigitValue(c: char): nat
    requires IsDigit(c)
  {
    c as int - '0' as int
  }

  function Digits(n: nat): (s: string)
    ensures s != "" && forall k :: 0 <= k < |s| ==> IsDigit(s[k])
  {
    if n < 10 then [Digit(n)] else Digits(n / 10) + [Digit(n % 10)]
  }

  function Power(k: nat): (r: nat)
    ensures r >= 1
  {
    if k == 0 then 1 else 10 * Power(k - 1)
  }

  lemma {:induction false} DigitsFit(n: nat, k: nat)
    requires k > 0 && n < Power(k)
    ensures |Digits(n)| <= k
  {
    if n >= 10 {
      DigitsFit(n / 10, k - 1);
    }
  }

  /** The scratch array of the printer is long enough for every size. */
  lemma SizesHaveTwentyDigits(n: nat)
    requires n < SIZELIMIT
    ensures |Digits(n)| <= 20
  {
    assert Power(10) == 10000000000 by {
      assert Power(5) == 100000;
    }
    PowersMultiply(10, 10);
    DigitsFit(n, 20);
  }

  lemma {:induction false} PowersMultiply(a: nat, b: nat)
    ensures Power(a + b) == Power(a) * Power(b)
  {
    if a > 0 {
      PowersMultiply(a - 1, b);
      assert Power(a) * Power(b) == 10 * (Power(a - 1) * Power(b));
    }
  }

  // ---- The text ----

  function ItemText(segment: string): string {
    " " + Digits(|segment|) + " " + segment
  }

  function ItemTexts(segments: seq<string>): string {
    if segments == [] then "" else ItemText(segments[0]) + ItemTexts(segments[1..])
  }

  function PrefixText(prefix: Option<string>): string {
    match prefix
    case None => Digits(0)
    case Some(s) => Digits(|s|) + " " + s
  }

  function SafeText(typ: ServerType, data: PathData): string {
    Digits(TypeRank(typ)) + " " + PrefixText(data.prefix) + ItemTexts(data.segments)
  }

  /** The text is built up from the type, the length of the prefix or 0, and the length and text of each segment. */
  lemma SafeTextGrows(typ: ServerType, prefix: string, segments: seq<string>, segment: string)
    ensures SafeText(typ, PathData(None, [])) == Digits(TypeRank(typ)) + " 0"
    ensures SafeText(typ, PathData(Some(prefix), [])) == Digits(TypeRank(typ)) + " " + Digits(|prefix|) + " " + prefix
    ensures forall p: Option<string> ::
      SafeText(typ, PathData(p, segments + [segment])) == SafeText(typ, PathData(p, segments)) + " " + Digits(|segment|) + " " + segment
  {
    forall p: Option<string>
      ensures SafeText(typ, PathData(p, segments + [segment])) == SafeText(typ, PathData(p, segments)) + " " + Digits(|segment|) + " " + segment
    {
      OneMoreItem(segments, segment);
      ThreeMore(Digits(TypeRank(typ)) + " " + PrefixText(p), ItemTexts(segments), Digits(|segment|), segment);
      hide ItemTexts, Digits, PrefixText, TypeRank;
    }
    assert Digits(0) == "0";
    FewItems(typ, prefix);
    hide Digits, ItemTexts;
  }

  lemma FewItems(typ: ServerType, prefix: string)
    ensures SafeText(typ, PathData(None, [])) == Digits(TypeRank(typ)) + " " + Digits(0)
    ensures SafeText(typ, PathData(Some(prefix), [])) == Digits(TypeRank(typ)) + " " + Digits(|prefix|) + " " + prefix
  {
    assert SafeText(typ, PathData(None, [])) == Digits(TypeRank(typ)) + " " + Digits(0) + "";
    assert SafeText(typ, PathData(Some(prefix), [])) == Digits(TypeRank(typ)) + " " + (Digits(|prefix|) + " " + prefix) + "";
    hide *;
    NothingMore(Digits(TypeRank(typ)), Digits(0));
    TwoMore(Digits(TypeRank(typ)), Digits(|prefix|), prefix);
  }

  lemma NothingMore(a: string, b: string)
    ensures a + " " + b + "" == a + " " + b
  {
  }

  lemma TwoMore(a: string, n: string, prefix: string)
    ensures a + " " + (n + " " + prefix) + "" == a + " " + n + " " + prefix
  {
  }

  lemma OneMoreItem(segments: seq<string>, segment: string)
    ensures ItemTexts(segments + [segment]) == ItemTexts(segments) + (" " + Digits(|segment|) + " " + segment)
  {
    ItemTextsAppend(segments, [segment]);
    assert [segment][1..] == [] && ItemTexts([]) == "";
    hide Digits;
    assert ItemTexts([segment]) == ItemText(segment) + "";
    hide ItemTexts;
  }

  lemma ThreeMore(front: string, items: string, n: string, segment: string)
    ensures front + (items + (" " + n + " " + segment)) == front + items + " " + n + " " + segment
  {
    assert items + (" " + n + " " + segment) == items + " " + n + " " + segment;
  }

  /** Numbers are written in decimal, without leading zeros. */
  lemma DigitsAreDecimal(n: nat, d: nat)
    requires d < 10
    ensures Digits(d) == ["0123456789"[d]]
    ensures n > 0 ==> Digits(10 * n + d) == Digits(n) + ["0123456789"[d]]
  {
    assert Digit(d) == "0123456789"[d];
    if n > 0 {
      assert (10 * n + d) / 10 == n && (10 * n + d) % 10 == d;
    }
  }

  /** What copying a string up to its first NUL into zeroed memory of its length leaves there. */
  function Copied(s: string): (r: string)
    ensures |r| == |s|
  {
    if s == "" then "" else if s[0] == NUL then seq(|s|, _ => NUL) else [s[0]] + Copied(s[1..])
  }

  function CopiedAll(segments: seq<string>): (r: seq<string>)
    ensures |r| == |segments| && forall k :: 0 <= k < |r| ==> r[k] == Copied(segments[k])
  {
    if segments == [] then [] else [Copied(segments[0])] + CopiedAll(segments[1..])
  }

  function CopiedPrefix(prefix: Option<string>): Option<string> {
    match prefix
    case None => None
    case Some(s) => Some(Copied(s))
  }

  function CopiedData(data: PathData): PathData {
    PathData(CopiedPrefix(data.prefix), CopiedAll(data.segments))
  }

  /** A string survives copying exactly if nothing but NULs follows its first NUL. */
  lemma {:induction false} CopyIsFaithful(s: string)
    ensures Copied(s) == s <==> forall i, j :: 0 <= i < j < |s| && s[i] == NUL ==> s[j] == NUL
  {
    if s != "" && s[0] != NUL {
      CopyIsFaithful(s[1..]);
      assert s == [s[0]] + s[1..];
      if forall i, j :: 0 <= i < j < |s| && s[i] == NUL ==> s[j] == NUL {
        forall i, j | 0 <= i < j < |s[1..]| && s[1..][i] == NUL ensures s[1..][j] == NUL {
          assert s[i + 1] == NUL;
        }
      } else {
        var i, j :| 0 <= i < j < |s| && s[i] == NUL && s[j] != NUL;
        assert s[1..][i - 1] == NUL && s[1..][j - 1] != NUL;
      }
    }
  }

  // ---- Printing ----

  predicate Fits(data: PathData) {
    && (data.prefix.Some? ==> |data.prefix.value| < SIZELIMIT)
    && forall k :: 0 <= k < |data.segments| ==> |data.segments[k]| < SIZELIMIT
  }

  function ItemsRoom(segments: seq<string>): nat {
    if segments == [] then 0 else |segments[0]| + 2 + 20 + ItemsRoom(segments[1..])
  }

  /** The size of the buffer: type, two spaces and the terminator, the numbers, and the characters. */
  function Room(data: PathData): nat {
    5 + 20 + (if data.prefix.Some? then |data.prefix.value| else 0) + ItemsRoom(data.segments)
  }

  /** The buffer holds `text` and is still zeroed behind it. */
  predicate Holds(buf: array<char>, text: string)
    reads buf
  {
    && |text| <= buf.Length
    && (forall k :: 0 <= k < |text| ==> buf[k] == text[k])
    && forall k :: |text| <= k < buf.Length ==> buf[k] == NUL
  }

  /** The first loop of `fast_sprint_number`: the digits go into the scratch array backwards. */
  method FillScratch(tmp: array<char>, n: nat) returns (c: nat)
    requires tmp.Length == 20 && |Digits(n)| <= 20
    modifies tmp
    ensures c == |Digits(n)| && forall k :: 0 <= k < c ==> tmp[k] == Digits(n)[c - 1 - k]
  {
    ghost var text := Digits(n);
    c := 0;
    var rest := n;
    tmp[c] := Digit(rest % 10);
    c, rest := c + 1, rest / 10;
    while rest > 0
      invariant 1 <= c <= |text|
      invariant if rest == 0 then c == |text| else text[..|text| - c] == Digits(rest)
      invariant forall k :: 0 <= k < c ==> tmp[k] == text[|text| - 1 - k]
    {
      assert text[|text| - 1 - c] == Digits(rest)[|text| - c - 1] == Digit(rest % 10);
      assert rest >= 10 ==> text[..|text| - c - 1] == text[..|text| - c][..|text| - c - 1];
      tmp[c] := Digit(rest % 10);
      c, rest := c + 1, rest / 10;
    }
  }

  method PrintNumber(buf: array<char>, ghost before: string, t: nat, n: nat) returns (t': nat)
    requires t == |before| && Holds(buf, before)
    requires |Digits(n)| <= 20 && t + |Digits(n)| <= buf.Length
    modifies buf
    ensures Holds(buf, before + Digits(n)) && t' == t + |Digits(n)|
  {
    var tmp := new char[20];
    var c := FillScratch(tmp, n);
    ghost var text := Digits(n);
    hide Digits;
    t' := t;
    while c > 0
      invariant 0 <= c <= |text| && t' == t + (|text| - c)
      invariant forall k :: 0 <= k < |text| ==> tmp[k] == text[|text| - 1 - k]
      invariant forall k :: 0 <= k < t ==> buf[k] == before[k]
      invariant forall k :: 0 <= k < |text| - c ==> buf[t + k] == text[k]
      invariant forall k :: t' <= k < buf.Length ==> buf[k] == NUL
    {
      c := c - 1;
      buf[t'] := tmp[c];
      t' := t' + 1;
    }
    assert forall k :: t <= k < t' ==> buf[k] == buf[t + (k - t)];
  }

  lemma {:induction false} CopiedAt(s: string)
    ensures forall k :: 0 <= k < |s| ==> Copied(s)[k] == if k < FirstNul(s) then s[k] else NUL
  {
    if s != "" && s[0] != NUL {
      CopiedAt(s[1..]);
    }
  }

  /** `wcscpy`: everything up to the first NUL, and a NUL. */
  method CopyString(buf: array<char>, ghost before: string, t: nat, s: string)
    requires t == |before| && Holds(buf, before) && t + |s| < buf.Length
    modifies buf
    ensures Holds(buf, before + Copied(s))
  {
    var i := 0;
    ghost var text, n := Copied(s), FirstNul(s);
    CopiedAt(s);
    hide Copied, FirstNul;
    while i < |s| && s[i] != NUL
      invariant i <= n
      invariant forall k :: 0 <= k < t ==> buf[k] == before[k]
      invariant forall k :: 0 <= k < i ==> buf[t + k] == s[k]
      invariant forall k :: t + i <= k < buf.Length ==> buf[k] == NUL
    {
      buf[t + i] := s[i];
      i := i + 1;
    }
    buf[t + i] := NUL;
    assert i == n;
    assert forall k :: t <= k < t + |s| ==> buf[k] == text[k - t] by {
      assert forall k :: t <= k < t + i ==> buf[k] == buf[t + (k - t)];
    }
  }

  method PrintSpace(buf: array<char>, ghost before: string, t: nat) returns (t': nat)
    requires t == |before| && Holds(buf, before) && t < buf.Length
    modifies buf
    ensures Holds(buf, before + " ") && t' == t + 1
  {
    buf[t] := ' ';
    t' := t + 1;
  }

  lemma {:induction false} ItemTextsAppend(a: seq<string>, b: seq<string>)
    ensures ItemTexts(a + b) == ItemTexts(a) + ItemTexts(b)
  {
    if a == [] {
      assert a + b == b;
    } else {
      assert (a + b)[1..] == a[1..] + b;
      ItemTextsAppend(a[1..], b);
      assert ItemText(a[0]) + (ItemTexts(a[1..]) + ItemTexts(b)) == ItemText(a[0]) + ItemTexts(a[1..]) + ItemTexts(b);
    }
  }

  lemma {:induction false} ItemsRoomSplit(segments: seq<string>, i: nat)
    requires i < |segments|
    ensures ItemsRoom(segments) == ItemsRoom(segments[..i]) + |segments[i]| + 2 + 20 + ItemsRoom(segments[i + 1..])
  {
    if i > 0 {
      ItemsRoomSplit(segments[1..], i - 1);
      assert segments[1..][..i - 1] == segments[..i][1..];
      assert segments[1..][i..] == segments[i + 1..];
    }
  }

  method PrintItem(buf: array<char>, ghost before: string, t: nat, segment: string) returns (t': nat)
    requires t == |before| && Holds(buf, before)
    requires |segment| < SIZELIMIT && t + 2 + 20 + |segment| < buf.Length
    modifies buf
    ensures Holds(buf, before + ItemText(Copied(segment))) && t' == t + |ItemText(Copied(segment))|
  {
    SizesHaveTwentyDigits(|segment|);
    ghost var digits := Digits(|segment|);
    hide Digits, Copied;
    t' := PrintSpace(buf, before, t);
    t' := PrintNumber(buf, before + " ", t', |segment|);
    t' := PrintSpace(buf, before + " " + digits, t');
    CopyString(buf, before + " " + digits + " ", t', segment);
    t' := t' + |segment|;
    assert before + " " + digits + " " + Copied(segment) == before + ItemText(Copied(segment));
  }

  method PrintPrefix(buf: array<char>, ghost before: string, t: nat, prefix: Option<string>) returns (t': nat)
    requires t == |before| && Holds(buf, before)
    requires prefix.Some? ==> |prefix.value| < SIZELIMIT
    requires t + 22 + (if prefix.Some? then |prefix.value| else 0) <= buf.Length
    modifies buf
    ensures Holds(buf, before + PrefixText(CopiedPrefix(prefix))) && t' == t + |PrefixText(CopiedPrefix(prefix))|
    ensures t' <= t + 21 + if prefix.Some? then |prefix.value| else 0
  {
    var size := if prefix.Some? then |prefix.value| else 0;
    SizesHaveTwentyDigits(size);
    ghost var digits := Digits(size);
    hide Digits, Copied, Holds;
    t' := PrintNumber(buf, before, t, size);
    if prefix.Some? {
      t' := PrintSpace(buf, before + digits, t');
      CopyString(buf, before + digits + " ", t', prefix.value);
      t' := t' + |prefix.value|;
      assert before + digits + " " + Copied(prefix.value) == before + (digits + " " + Copied(prefix.value));
    }
  }

  /** The beginning of the text: type and prefix. */
  method PrintHead(buf: array<char>, typ: ServerType, prefix: Option<string>) returns (t: nat)
    requires forall k :: 0 <= k < buf.Length ==> buf[k] == NUL
    requires prefix.Some? ==> |prefix.value| < SIZELIMIT
    requires 25 + (if prefix.Some? then |prefix.value| else 0) <= buf.Length
    modifies buf
    ensures
      var text := Digits(TypeRank(typ)) + " " + PrefixText(CopiedPrefix(prefix));
      Holds(buf, text) && t == |text|
    ensures t < 25 + if prefix.Some? then |prefix.value| else 0
  {
    TypesHaveTwoDigits(typ);
    ghost var kind := Digits(TypeRank(typ));
    hide Digits, TypeRank, PrefixText, CopiedPrefix;
    t := PrintNumber(buf, "", 0, TypeRank(typ));
    assert "" + kind == kind;
    hide Holds;
    t := PrintSpace(buf, kind, t);
    t := PrintPrefix(buf, kind + " ", t, prefix);
  }

  lemma TypesHaveTwoDigits(typ: ServerType)
    ensures |Digits(TypeRank(typ))| <= 2
  {
    DigitsFit(TypeRank(typ), 2) by {
      assert Power(2) == 100;
    }
  }

  method PrintItems(buf: array<char>, ghost head: string, start: nat, segments: seq<string>) returns (t: nat)
    requires start == |head| && Holds(buf, head) && start + ItemsRoom(segments) < buf.Length
    requires forall k :: 0 <= k < |segments| ==> |segments[k]| < SIZELIMIT
    modifies buf
    ensures Holds(buf, head + ItemTexts(CopiedAll(segments))) && t == |head + ItemTexts(CopiedAll(segments))|
  {
    t := start;
    var i := 0;
    ghost var before := head;
    assert segments[..0] == [] && segments[..|segments|] == segments && head + "" == head;
    while i < |segments|
      invariant i <= |segments| && t == |before| && Holds(buf, before)
      invariant before == head + ItemTexts(CopiedAll(segments[..i]))
      invariant t <= start + ItemsRoom(segments[..i])
    {
      ItemsRoomSplit(segments, i);
      SizesHaveTwentyDigits(|segments[i]|);
      PrintedOneMore(segments, i, head);
      ItemIs(Copied(segments[i]));
      hide *;
      t := PrintItem(buf, before, t, segments[i]);
      before := before + ItemText(Copied(segments[i]));
      i := i + 1;
    }
  }

  /**
   Prints a path that is not empty.  No write leaves the buffer or the scratch array, and what is printed is the
   text of the path as far as its strings survive copying.
   */
  method GetSafePath(path: ServerPath) returns (text: string)
    requires path.data.Some? ==> Fits(path.data.value)
    ensures path.data.None? ==> text == ""
    ensures path.data.Some? ==> text == SafeText(path.typ, CopiedData(path.data.value))
  {
    if path.Empty() {
      return "";
    }
    var data := path.data.value;
    var buf := new char[Room(data)](_ => NUL);
    ghost var head := Digits(TypeRank(path.typ)) + " " + PrefixText(CopiedPrefix(data.prefix));
    hide Digits, PrefixText, CopiedPrefix, ItemTexts, CopiedAll, ItemsRoom, TypeRank;
    var t := PrintHead(buf, path.typ, data.prefix);
    t := PrintItems(buf, head, t, data.segments);
    text := buf[..t];
    assert text == head + ItemTexts(CopiedAll(data.segments));
  }

  lemma PrintedOneMore(segments: seq<string>, i: nat, head: string)
    requires i < |segments|
    ensures head + ItemTexts(CopiedAll(segments[..i])) + ItemText(Copied(segments[i])) == head + ItemTexts(CopiedAll(segments[..i + 1]))
    ensures ItemsRoom(segments[..i + 1]) == ItemsRoom(segments[..i]) + |segments[i]| + 2 + 20
  {
    var segment := Copied(segments[i]);
    assert segments[..i + 1] == segments[..i] + [segments[i]];
    assert CopiedAll(segments[..i + 1]) == CopiedAll(segments[..i]) + [segment];
    assert ItemTexts([segment]) == ItemText(segment) + "" == ItemText(segment);
    RoomOfOneMore(segments, i);
    hide CopiedAll, ItemTexts, ItemText, ItemsRoom;
    ItemTextsAppend(CopiedAll(segments[..i]), [segment]);
    assert head + ItemTexts(CopiedAll(segments[..i])) + ItemText(segment) == head + (ItemTexts(CopiedAll(segments[..i])) + ItemText(segment));
  }

  lemma RoomOfOneMore(segments: seq<string>, i: nat)
    requires i < |segments|
    ensures ItemsRoom(segments[..i + 1]) == ItemsRoom(segments[..i]) + |segments[i]| + 2 + 20
  {
    ItemsRoomSplit(segments[..i + 1], i);
    assert segments[..i + 1][..i] == segments[..i] && segments[..i + 1][i + 1..] == [];
  }

  // ---- Reading ----

  /** The character a C string has at a position up to its terminator; behind that there is none. */
  function At(text: string, p: nat): char
    requires p <= |text|
  {
    if p < |text| then text[p] else NUL
  }

  datatype Read<+T> = Fail | Done(value: T, next: nat)

  /** Reading on after at least one digit, with the number so far. */
  function ReadOn(text: string, p: nat, n: nat, limit: nat, nulEnds: bool): Read<nat>
    requires p <= |text|
    decreases 2 * (|text| - p) + 1
  {
    if n > limit then Fail
    else if At(text, p) == ' ' || (nulEnds && At(text, p) == NUL) then Done(n, p)
    else ReadDigit(text, p, n, limit, nulEnds)
  }

  function ReadDigit(text: string, p: nat, n: nat, limit: nat, nulEnds: bool): Read<nat>
    requires p <= |text|
    decreases 2 * (|text| - p)
  {
    if !IsDigit(At(text, p)) then Fail else ReadOn(text, p + 1, n * 10 + DigitValue(At(text, p)), limit, nulEnds)
  }

  function ReadNumber(text: string, p: nat, limit: nat, nulEnds: bool): (r: Read<nat>)
    requires p <= |text|
    ensures r.Done? ==> p < r.next <= |text| && r.value <= limit && (r.next == |text| ==> nulEnds)
  {
    ReadBounds(text, p, 0, limit, nulEnds);
    ReadDigit(text, p, 0, limit, nulEnds)
  }

  lemma {:induction false} ReadBounds(text: string, p: nat, n: nat, limit: nat, nulEnds: bool)
    requires p <= |text|
    ensures
      var r := ReadDigit(text, p, n, limit, nulEnds);
      r.Done? ==> p < r.next <= |text| && r.value <= limit && (r.next == |text| ==> nulEnds)
    decreases |text| - p
  {
    if IsDigit(At(text, p)) {
      ReadBounds(text, p + 1, n * 10 + DigitValue(At(text, p)), limit, nulEnds);
    }
  }

  function Decimal(s: string): int {
    if s == "" then 0 else 10 * Decimal(s[..|s| - 1]) + (s[|s| - 1] as int - '0' as int)
  }

  /** Digits, at least one, up to a space, or to the end of the C string where that is allowed. */
  predicate IsNumberAt(text: string, p: nat, q: nat, nulEnds: bool) {
    && p < q <= |text| && (forall k :: p <= k < q ==> '0' <= text[k] <= '9')
    && if q < |text| then text[q] == ' ' || (nulEnds && text[q] == NUL) else nulEnds
  }

  lemma DecimalGoesOn(text: string, p: nat, k: nat)
    requires p <= k < |text|
    ensures Decimal(text[p..k + 1]) == 10 * Decimal(text[p..k]) + (text[k] as int - '0' as int)
  {
    assert text[p..k + 1][..k - p] == text[p..k];
  }

  lemma {:induction false} DecimalGrows(text: string, p: nat, k: nat, q: nat)
    requires p <= k <= q <= |text| && forall j :: p <= j < q ==> '0' <= text[j] <= '9'
    ensures 0 <= Decimal(text[p..k]) <= Decimal(text[p..q])
    decreases q
  {
    if p < k == q {
      DecimalGrows(text, p, p, q - 1);
      DecimalGrows(text, p, q - 1, q - 1);
      DecimalGoesOn(text, p, q - 1);
    } else if k < q {
      DecimalGrows(text, p, k, q - 1);
      DecimalGoesOn(text, p, q - 1);
    }
  }

  lemma {:induction false} ReadsOn(text: string, p: nat, k: nat, n: nat, limit: nat, nulEnds: bool)
    requires p <= k <= |text| && (forall j :: p <= j < k ==> '0' <= text[j] <= '9') && n == Decimal(text[p..k])
    ensures
      var r := ReadDigit(text, k, n, limit, nulEnds);
      && (r.Done? ==> k < r.next && IsNumberAt(text, p, r.next, nulEnds) && r.value == Decimal(text[p..r.next]) <= limit)
      && (forall q :: k < q && IsNumberAt(text, p, q, nulEnds) && Decimal(text[p..q]) <= limit ==> r.Done?)
    decreases |text| - k
  {
    if k < |text| && IsDigit(text[k]) {
      var n' := n * 10 + DigitValue(text[k]);
      DecimalGoesOn(text, p, k);
      forall q | k < q && IsNumberAt(text, p, q, nulEnds) ensures n' <= Decimal(text[p..q]) {
        DecimalGrows(text, p, k + 1, q);
      }
      hide Decimal;
      ReadsOn(text, p, k + 1, n', limit, nulEnds);
    }
  }

  /** What counts as a number anywhere in a text: the digits up to the space, if their value is within the limit. */
  lemma NumberIs(text: string, p: nat, limit: nat, nulEnds: bool)
    requires p <= |text|
    ensures
      var r := ReadNumber(text, p, limit, nulEnds);
      && (r.Done? ==> IsNumberAt(text, p, r.next, nulEnds) && r.value == Decimal(text[p..r.next]) <= limit)
      && (forall q: nat :: IsNumberAt(text, p, q, nulEnds) && Decimal(text[p..q]) <= limit ==> r.Done? && r.next == q)
  {
    assert text[p..p] == "";
    ReadsOn(text, p, p, 0, limit, nulEnds);
    hide Decimal;
  }

  /** The segments from a position to the end of the text; each is followed by one character that is skipped. */
  function ReadSegments(text: string, p: nat): Option<seq<string>>
    decreases |text| - p
  {
    if p >= |text| then Some([])
    else
      match ReadNumber(text, p, MAXLENGTH, false)
      case Fail => None
      case Done(n, q) =>
        if n == 0 || q + 1 + n > |text| then None
        else
          match ReadSegments(text, q + 1 + n + 1)
          case None => None
          case Some(rest) => Some([text[q + 1..q + 1 + n]] + rest)
  }

  function ReadData(text: string, p: nat): Option<PathData>
    requires p <= |text|
  {
    match ReadNumber(text, p, MAXLENGTH, true)
    case Fail => None
    case Done(n, q) => ReadAfterLength(text, n, q)
  }

  /** What follows the length of the prefix; a prefix of length zero is none, and only then may nothing follow. */
  function ReadAfterLength(text: string, n: nat, q: nat): Option<PathData>
    requires q <= |text|
  {
    if At(text, q) == NUL then if n != 0 then None else Some(PathData(None, []))
    else if q + 1 + n > |text| then None
    else
      match ReadSegments(text, if n == 0 then q + 1 else q + 1 + n + 1)
      case None => None
      case Some(segments) => Some(PathData(if n == 0 then None else Some(text[q + 1..q + 1 + n]), segments))
  }

  function TypeOfRank(n: nat): ServerType
    requires n <= 10
  {
    match n
    case 0 => DEFAULT case 1 => UNIX case 2 => VMS case 3 => DOS case 4 => MVS case 5 => VXWORKS
    case 6 => ZVM case 7 => HPNONSTOP case 8 => DOS_VIRTUAL case 9 => CYGWIN case _ => DOS_FWD_SLASHES
  }

  /** `SetSafePath` on a path of type `t`: a failed reading leaves the empty path, of the type read, if any. */
  function ReadPath(text: string, t: ServerType): ServerPath {
    match ReadNumber(text, 0, 10, false)
    case Fail => ServerPath(t, None)
    case Done(n, q) => ServerPath(TypeOfRank(n), ReadData(text, q + 1))
  }

  /** The text has `part` at a position. */
  predicate HasAt(text: string, p: nat, part: string) {
    p + |part| <= |text| && text[p..p + |part|] == part
  }

  /** Reading the digits of a number, one after another, gets to that number or beyond the limit. */
  lemma {:induction false} ReadsDigits(text: string, p: nat, n: nat, limit: nat, nulEnds: bool)
    requires HasAt(text, p, Digits(n))
    ensures ReadDigit(text, p, 0, limit, nulEnds) == ReadOn(text, p + |Digits(n)|, n, limit, nulEnds)
  {
    var digits := Digits(n);
    assert forall k :: 0 <= k < |digits| ==> text[p + k] == text[p..p + |digits|][k] == digits[k];
    if n >= 10 {
      var m := |digits| - 1;
      assert digits[..m] == Digits(n / 10) && digits[m] == Digit(n % 10);
      assert text[p..p + m] == text[p..p + |digits|][..m];
      ReadsDigits(text, p, n / 10, limit, nulEnds);
      assert At(text, p + m) == digits[m];
    }
  }

  lemma ReadsNumber(text: string, p: nat, n: nat, limit: nat, nulEnds: bool)
    requires HasAt(text, p, Digits(n))
    requires At(text, p + |Digits(n)|) == ' ' || (nulEnds && At(text, p + |Digits(n)|) == NUL)
    ensures ReadNumber(text, p, limit, nulEnds) == if n <= limit then Done(n, p + |Digits(n)|) else Fail
  {
    ReadsDigits(text, p, n, limit, nulEnds);
  }

  /** The lengths the reader accepts. */
  predicate Readable(s: string) {
    1 <= |s| <= MAXLENGTH
  }

  predicate AllReadable(segments: seq<string>) {
    forall k :: 0 <= k < |segments| ==> Readable(segments[k])
  }

  lemma HasParts(text: string, p: nat, a: string, b: string)
    requires HasAt(text, p, a + b)
    ensures HasAt(text, p, a) && HasAt(text, p + |a|, b)
  {
    assert text[p..p + |a|] == text[p..p + |a + b|][..|a|];
    assert text[p + |a|..p + |a| + |b|] == text[p..p + |a + b|][|a|..];
  }

  lemma HasText(text: string, p: nat, part: string)
    requires HasAt(text, p, part) && part != ""
    ensures At(text, p) == part[0]
  {
    assert text[p..p + |part|][0] == text[p];
  }

  /** A number, a space and a string of that length, at a position. */
  lemma HasCounted(text: string, p: nat, digits: string, s: string)
    requires HasAt(text, p, digits + " " + s)
    ensures
      var q := p + |digits|;
      && HasAt(text, p, digits) && At(text, q) == ' '
      && q + 1 + |s| <= |text| && text[q + 1..q + 1 + |s|] == s
  {
    HasParts(text, p, digits + " ", s);
    HasParts(text, p, digits, " ");
    HasText(text, p + |digits|, " ");
  }

  lemma ItemIs(s: string)
    ensures ItemText(s) == " " + (Digits(|s|) + " " + s) && |ItemText(s)| == 2 + |Digits(|s|)| + |s|
  {
    hide Digits;
  }

  lemma HasItem(text: string, p: nat, s: string)
    requires HasAt(text, p, ItemText(s))
    ensures
      var q := p + 1 + |Digits(|s|)|;
      && HasAt(text, p + 1, Digits(|s|)) && At(text, q) == ' '
      && q + 1 + |s| == p + |ItemText(s)| <= |text| && text[q + 1..q + 1 + |s|] == s
  {
    hide *;
    var counted := Digits(|s|) + " " + s;
    ItemIs(s);
    HasParts(text, p, " ", counted);
    HasCounted(text, p + 1, Digits(|s|), s);
  }

  lemma ReadsItem(text: string, p: nat, s: string)
    requires HasAt(text, p, ItemText(s))
    ensures ReadSegments(text, p + 1) ==
      if !Readable(s) then None
      else
        match ReadSegments(text, p + |ItemText(s)| + 1)
        case None => None
        case Some(rest) => Some([s] + rest)
  {
    HasItem(text, p, s);
    ReadsNumber(text, p + 1, |s|, MAXLENGTH, false);
    hide ReadNumber, HasAt, ItemText;
  }

  lemma AllReadableUnfolds(segments: seq<string>)
    requires segments != []
    ensures AllReadable(segments) <==> Readable(segments[0]) && AllReadable(segments[1..])
  {
    assert segments == [segments[0]] + segments[1..];
  }

  /** Reading back printed segments, from behind the space of the first. */
  lemma {:induction false} ReadsSegments(text: string, p: nat, segments: seq<string>)
    requires HasAt(text, p, ItemTexts(segments)) && p + |ItemTexts(segments)| == |text|
    ensures ReadSegments(text, p + 1) == if AllReadable(segments) then Some(segments) else None
    decreases |segments|
  {
    if segments == [] {
      assert ReadSegments(text, p + 1) == Some([]);
    } else {
      var s, rest := segments[0], segments[1..];
      assert ItemTexts(segments) == ItemText(s) + ItemTexts(rest);
      AllReadableUnfolds(segments);
      hide *;
      assert segments == [s] + rest;
      HasParts(text, p, ItemText(s), ItemTexts(rest));
      ReadsItem(text, p, s);
      ReadsSegments(text, p + |ItemText(s)|, rest);
    }
  }

  /**
   What reading gives for any printed path.  An empty prefix is lost if no segment follows it, and makes the
   reading fail otherwise.
   */
  function ReadBack(data: PathData): Option<PathData> {
    match data.prefix
    case None => if AllReadable(data.segments) then Some(data) else None
    case Some(prefix) =>
      if prefix == "" then if data.segments == [] then Some(PathData(None, [])) else None
      else if Readable(prefix) && AllReadable(data.segments) then Some(data) else None
  }

  lemma ReadsNoPrefix(text: string, p: nat, segments: seq<string>)
    requires HasAt(text, p, Digits(0) + ItemTexts(segments)) && p + |Digits(0) + ItemTexts(segments)| == |text|
    ensures ReadData(text, p) == if AllReadable(segments) then Some(PathData(None, segments)) else None
  {
    var digits, items := Digits(0), ItemTexts(segments);
    var q := p + |digits|;
    assert segments != [] ==> items != "" && items[0] == ' ';
    assert segments == [] ==> items == "" && AllReadable(segments);
    hide Digits, ItemTexts, AllReadable;
    HasParts(text, p, digits, items);
    if segments != [] {
      HasText(text, q, items);
    }
    ReadsNumber(text, p, 0, MAXLENGTH, true);
    ReadsSegments(text, q, segments);
    hide ReadNumber, HasAt, ReadSegments;
  }

  lemma ReadsEmptyPrefix(text: string, p: nat, segments: seq<string>)
    requires HasAt(text, p, Digits(0) + " " + ItemTexts(segments)) && p + |Digits(0) + " " + ItemTexts(segments)| == |text|
    ensures ReadData(text, p) == if segments == [] then Some(PathData(None, [])) else None
  {
    var digits, items := Digits(0), ItemTexts(segments);
    var q := p + |digits|;
    assert segments != [] ==> items != "" && items[0] == ' ';
    assert segments == [] ==> items == "";
    hide Digits, ItemTexts;
    HasParts(text, p, digits + " ", items);
    HasParts(text, p, digits, " ");
    HasText(text, q, " ");
    ReadsNumber(text, p, 0, MAXLENGTH, true);
    if segments != [] {
      HasText(text, q + 1, items);
      SpaceIsNoNumber(text, q + 1);
      assert q + 1 < |text|;
    }
    hide ReadNumber, HasAt;
  }

  lemma HasPrefix(text: string, p: nat, digits: string, prefix: string, items: string)
    requires HasAt(text, p, digits + " " + prefix + items) && p + |digits + " " + prefix + items| == |text|
    ensures
      var q := p + |digits|;
      && HasAt(text, p, digits) && At(text, q) == ' '
      && q + 1 + |prefix| <= |text| && text[q + 1..q + 1 + |prefix|] == prefix
      && HasAt(text, q + 1 + |prefix|, items) && q + 1 + |prefix| + |items| == |text|
  {
    HasParts(text, p, digits + " " + prefix, items);
    HasCounted(text, p, digits, prefix);
  }

  lemma ReadsPrefix(text: string, p: nat, prefix: string, segments: seq<string>)
    requires prefix != ""
    requires HasAt(text, p, Digits(|prefix|) + " " + prefix + ItemTexts(segments))
    requires p + |Digits(|prefix|) + " " + prefix + ItemTexts(segments)| == |text|
    ensures ReadData(text, p) ==
      if Readable(prefix) && AllReadable(segments) then Some(PathData(Some(prefix), segments)) else None
  {
    hide Digits, ItemTexts, AllReadable, HasAt, ReadNumber, ReadAfterLength, ReadSegments;
    var q := p + |Digits(|prefix|)|;
    HasPrefix(text, p, Digits(|prefix|), prefix, ItemTexts(segments));
    ReadsNumber(text, p, |prefix|, MAXLENGTH, true);
    ReadsSegments(text, q + 1 + |prefix|, segments);
    PrefixIsRead(text, q, prefix);
  }

  lemma PrefixIsRead(text: string, q: nat, prefix: string)
    requires prefix != "" && q + 1 + |prefix| <= |text| && At(text, q) == ' ' && text[q + 1..q + 1 + |prefix|] == prefix
    ensures ReadAfterLength(text, |prefix|, q) ==
      match ReadSegments(text, q + 1 + |prefix| + 1)
      case None => None
      case Some(segments) => Some(PathData(Some(prefix), segments))
  {
    hide ReadSegments;
  }

  lemma ReadsData(text: string, p: nat, data: PathData)
    requires HasAt(text, p, PrefixText(data.prefix) + ItemTexts(data.segments))
    requires p + |PrefixText(data.prefix) + ItemTexts(data.segments)| == |text|
    ensures ReadData(text, p) == ReadBack(data)
  {
    hide Digits, ItemTexts, AllReadable, HasAt, ReadData;
    match data.prefix
    case None => ReadsNoPrefix(text, p, data.segments);
    case Some(prefix) =>
      if prefix == "" {
        assert Digits(0) + " " + "" + ItemTexts(data.segments) == Digits(0) + " " + ItemTexts(data.segments);
        ReadsEmptyPrefix(text, p, data.segments);
      } else {
        ReadsPrefix(text, p, prefix, data.segments);
      }
  }

  lemma SpaceIsNoNumber(text: string, p: nat)
    requires p <= |text|
    ensures !IsDigit(At(text, p)) ==> ReadNumber(text, p, MAXLENGTH, false) == Fail
  {
  }

  lemma SafeTextIs(typ: ServerType, data: PathData)
    ensures SafeText(typ, data) == Digits(TypeRank(typ)) + " " + (PrefixText(data.prefix) + ItemTexts(data.segments))
    ensures TypeRank(typ) <= 10 && TypeOfRank(TypeRank(typ)) == typ
  {
    hide Digits, PrefixText, ItemTexts;
  }

  lemma ReadsPath(typ: ServerType, data: PathData, t: ServerType)
    ensures ReadPath(SafeText(typ, data), t) == ServerPath(typ, ReadBack(data))
  {
    hide *;
    SafeTextIs(typ, data);
    ReadsKind(TypeRank(typ), PrefixText(data.prefix) + ItemTexts(data.segments), t);
    ReadsData(SafeText(typ, data), |Digits(TypeRank(typ))| + 1, data);
  }

  lemma ReadsKind(rank: nat, rest: string, t: ServerType)
    requires rank <= 10
    ensures
      var text, p := Digits(rank) + " " + rest, |Digits(rank)| + 1;
      && ReadPath(text, t) == ServerPath(TypeOfRank(rank), ReadData(text, p))
      && HasAt(text, p, rest) && p + |rest| == |text|
  {
    var kind := Digits(rank);
    var text := kind + " " + rest;
    assert text[0..|text|] == text;
    assert HasAt(text, 0, text);
    hide Digits, HasAt;
    HasParts(text, 0, kind + " ", rest);
    HasParts(text, 0, kind, " ");
    HasText(text, |kind|, " ");
    ReadsNumber(text, 0, rank, 10, false);
    hide ReadNumber, ReadData, TypeOfRank;
  }

  /** Nothing but NULs follows the first NUL. */
  predicate EndsAtNul(s: string) {
    forall i, j :: 0 <= i < j < |s| && s[i] == NUL ==> s[j] == NUL
  }

  /** The paths that survive: no empty strings, none too long, and no character after a NUL. */
  predicate Survives(data: PathData) {
    && (data.prefix.Some? ==> Readable(data.prefix.value) && EndsAtNul(data.prefix.value))
    && forall k :: 0 <= k < |data.segments| ==> Readable(data.segments[k]) && EndsAtNul(data.segments[k])
  }

  /** Reading back what was printed gives the same path exactly for the paths that survive. */
  lemma SafePathRoundTrip(path: ServerPath, t: ServerType)
    requires path.data.Some?
    ensures ReadPath(SafeText(path.typ, CopiedData(path.data.value)), t) == path <==> Survives(path.data.value)
  {
    var data := path.data.value;
    ReadsPath(path.typ, CopiedData(data), t);
    hide ReadPath, SafeText, Copied;
    forall k | 0 <= k < |data.segments|
      ensures Copied(data.segments[k]) == data.segments[k] <==> EndsAtNul(data.segments[k])
    {
      CopyIsFaithful(data.segments[k]);
    }
    if data.prefix.Some? {
      CopyIsFaithful(data.prefix.value);
    }
    if ReadBack(CopiedData(data)) == Some(data) {
      assert data.prefix.Some? ==> CopiedPrefix(data.prefix) == data.prefix;
      forall k | 0 <= k < |data.segments| ensures Readable(data.segments[k]) && EndsAtNul(data.segments[k]) {
        assert CopiedAll(data.segments)[k] == Copied(data.segments[k]);
      }
    }
    if Survives(data) {
      assert CopiedAll(data.segments) == data.segments;
    }
  }

  /** In particular for every path of strings without NULs, none empty and none above the limit. */
  lemma OrdinaryPathsSurvive(data: PathData)
    requires data.prefix.Some? ==> Readable(data.prefix.value) && NUL !in data.prefix.value
    requires forall s :: s in data.segments ==> Readable(s) && NUL !in s
    ensures Survives(data)
  {
    forall k | 0 <= k < |data.segments| ensures Readable(data.segments[k]) && EndsAtNul(data.segments[k]) {
      assert data.segments[k] in data.segments;
    }
  }

  lemma SegmentFound(text: string, p: nat, n: nat, next: nat, found: seq<string>)
    requires p < |text| && ReadNumber(text, p, MAXLENGTH, false) == Done(n, next) && n > 0 && next + 1 + n <= |text|
    ensures
      var rest, s := ReadSegments(text, next + 1 + n + 1), text[next + 1..next + 1 + n];
      if rest.None? then ReadSegments(text, p).None?
      else ReadSegments(text, p).Some? && found + ReadSegments(text, p).value == (found + [s]) + rest.value
  {
    var rest, s := ReadSegments(text, next + 1 + n + 1), text[next + 1..next + 1 + n];
    assert ReadSegments(text, p) == if rest.None? then None else Some([s] + rest.value);
    hide ReadSegments, ReadNumber;
  }

  // ---- The reader ----

  class SafePathReader {
    var typ: ServerType
    var prefix: Option<string>
    var segments: seq<string>
    var empty: bool

    constructor (typ: ServerType)
      ensures this.typ == typ && Path() == ServerPath(typ, None)
    {
      this.typ, prefix, segments, empty := typ, None, [], true;
    }

    ghost function Path(): ServerPath
      reads this
    {
      ServerPath(typ, if empty then None else Some(PathData(prefix, segments)))
    }

    /** No character behind the terminator is looked at. */
    static method ScanNumber(text: string, p: nat, limit: nat, nulEnds: bool) returns (r: Read<nat>)
      requires p <= |text|
      ensures r == ReadNumber(text, p, limit, nulEnds)
    {
      var q: nat, n: nat := p, 0;
      while true
        invariant p <= q <= |text| && ReadNumber(text, p, limit, nulEnds) == ReadDigit(text, q, n, limit, nulEnds)
        decreases |text| - q
      {
        if !IsDigit(At(text, q)) {
          return Fail;
        }
        n := n * 10 + DigitValue(At(text, q));
        if n > limit {
          return Fail;
        }
        q := q + 1;
        if At(text, q) == ' ' || (nulEnds && At(text, q) == NUL) {
          return Done(n, q);
        }
      }
    }

    method ScanSegments(text: string, start: nat) returns (ok: bool)
      modifies this`segments
      ensures ok <==> ReadSegments(text, start).Some?
      ensures ok ==> segments == old(segments) + ReadSegments(text, start).value
    {
      var p := start;
      ghost var before, found := segments, [];
      while p < |text|
        invariant segments == before + found
        invariant ReadSegments(text, start).Some? <==> ReadSegments(text, p).Some?
        invariant ReadSegments(text, start).Some? ==> ReadSegments(text, start).value == found + ReadSegments(text, p).value
        decreases if p <= |text| then |text| - p else 0
      {
        var r := ScanNumber(text, p, MAXLENGTH, false);
        if r.Fail? || r.value == 0 {
          return false;
        }
        var q := r.next + 1;
        if q + r.value > |text| {
          return false;
        }
        ghost var s := text[q..q + r.value];
        SegmentFound(text, p, r.value, r.next, found);
        hide ReadSegments, ReadNumber;
        assert before + found + [s] == before + (found + [s]);
        segments := segments + [text[q..q + r.value]];
        found := found + [s];
        p := q + r.value + 1;
      }
      return true;
    }

    /** `DoSetSafePath`: on failure the object is left in a state that the caller then clears. */
    method DoSetSafePath(text: string) returns (ok: bool)
      modifies this
      ensures ok <==> ReadPath(text, old(typ)).data.Some?
      ensures typ == ReadPath(text, old(typ)).typ
      ensures ok ==> ReadPath(text, old(typ)).data == Some(PathData(prefix, segments)) && !empty
    {
      prefix, segments, empty := None, [], false;
      var kind := ScanNumber(text, 0, 10, false);
      if kind.Fail? {
        return false;
      }
      typ := TypeOfRank(kind.value);
      var p := kind.next + 1;
      hide ReadNumber, ReadSegments, TypeOfRank;
      var length := ScanNumber(text, p, MAXLENGTH, true);
      if length.Fail? {
        return false;
      }
      p := length.next;
      if At(text, p) == NUL {
        return length.value == 0;
      }
      p := p + 1;
      if p + length.value > |text| {
        return false;
      }
      if length.value > 0 {
        prefix := Some(text[p..p + length.value]);
        p := p + length.value + 1;
      }
      ok := ScanSegments(text, p);
      assert ok ==> [] + ReadSegments(text, p).value == ReadSegments(text, p).value;
    }

    method SetSafePath(text: string) returns (ok: bool)
      modifies this
      ensures Path() == ReadPath(text, old(typ)) && (ok <==> Path().data.Some?)
    {
      ok := DoSetSafePath(text);
      if !ok {
        empty := true;
      }
    }
  }
}
