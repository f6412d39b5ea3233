/**
 Command lines with quoted arguments (`QuoteCommand`, `UnquoteFirst` and `UnquoteCommand` in
 src/commonui/file_utils.cpp), and exactly which argument lists survive being quoted and taken apart again.
 */
module Quoting {
  import opened Options

  predicate IsBreak(c: char) {
    c == '\r' || c == '\n'
  }

  predicate IsBlank(c: char) {
    c == ' ' || c == '\t' || IsBreak(c)
  }

  // ---- Quoting ----

  predicate NeedsQuotes(arg: string) {
    arg == "" || exists i :: 0 <= i < |arg| && (arg[i] == ' ' || arg[i] == '\t' || arg[i] == '"' || arg[i] == '\'')
  }

  function DoubledChar(c: char): string {
    if c == '"' then "\"\"" else [c]
  }

  function Doubled(s: string): string {
    if s == "" then "" else DoubledChar(s[0]) + Doubled(s[1..])
  }

  function QuotedArg(arg: string): (r: string)
    ensures r != ""
  {
    if NeedsQuotes(arg) then "\"" + Doubled(arg) + "\"" else arg
  }

  function QuotedCommand(args: seq<string>): string
    decreases |args|, 0
  {
    if args == [] then "" else QuotedArg(args[0]) + QuotedRest(args[1..])
  }

  function QuotedRest(args: seq<string>): string
    decreases |args|, 1
  {
    if args == [] then "" else " " + QuotedCommand(args)
  }

  lemma DoubledUnfolds(c: char, s: string)
    ensures Doubled([c] + s) == DoubledChar(c) + Doubled(s) && Doubled("") == ""
  {
    assert ([c] + s)[1..] == s;
    hide Doubled;
  }

  lemma Regrouped(a: string, b: string, c: string)
    ensures a + (b + c) == a + b + c
  {
  }

  lemma {:induction false} DoubledAppend(a: string, b: string)
    ensures Doubled(a + b) == Doubled(a) + Doubled(b)
  {
    hide Doubled, DoubledChar;
    if a == "" {
      DoubledUnfolds(' ', b);
      assert a + b == b;
    } else {
      var c, rest := a[0], a[1..];
      DoubledAppend(rest, b);
      DoubledUnfolds(c, rest + b);
      DoubledUnfolds(c, rest);
      Regrouped([c], rest, b);
      assert [c] + rest == a;
      Regrouped(DoubledChar(c), Doubled(rest), Doubled(b));
    }
  }

  /** An argument that is empty or has blanks or quotes in it is put in quotes, with every double quote doubled; any other is left as it is. */
  lemma QuotedArgIs(a: string, b: string)
    ensures a == "" || (exists k :: 0 <= k < |a| && a[k] in {' ', '\t', '\'', '"'}) ==> QuotedArg(a) == "\"" + Doubled(a) + "\""
    ensures a != "" && (forall k :: 0 <= k < |a| ==> a[k] !in {' ', '\t', '\'', '"'}) ==> QuotedArg(a) == a
    ensures Doubled(a + "\"" + b) == Doubled(a) + "\"\"" + Doubled(b)
  {
    DoubledAppend(a, "\"");
    DoubledAppend(a + "\"", b);
    assert "\""[1..] == "";
    assert Doubled("\"") == "\"\"";
    hide Doubled;
  }

  lemma {:induction false} QuotedCommandAppend(args: seq<string>, arg: string)
    ensures QuotedCommand(args + [arg]) == QuotedCommand(args) + (if args == [] then "" else " ") + QuotedArg(arg)
    ensures QuotedCommand(args) == "" <==> args == []
  {
    if args == [] {
      assert args + [arg] == [arg] && QuotedRest([]) == "";
    } else {
      assert (args + [arg])[1..] == args[1..] + [arg];
      QuotedCommandAppend(args[1..], arg);
    }
  }

  /** A space goes in front of every argument but the first. */
  method QuoteCommand(args: seq<string>) returns (ret: string)
    ensures ret == QuotedCommand(args)
  {
    ret := "";
    var i := 0;
    assert args[..0] == [];
    while i < |args|
      invariant i <= |args| && ret == QuotedCommand(args[..i])
    {
      assert args[..i + 1] == args[..i] + [args[i]];
      QuotedCommandAppend(args[..i], args[i]);
      hide QuotedCommand, QuotedArg;
      if ret != "" {
        ret := ret + " ";
      }
      ret := ret + QuotedArg(args[i]);
      i := i + 1;
    }
    assert args[..i] == args;
  }

  // ---- Taking apart ----

  /** One argument, if there is one, and the text behind it. */
  datatype Scanned = Scanned(arg: Option<string>, rest: string)

  function Scan(s: string, quoted: bool, ret: Option<string>): (r: Scanned)
    ensures |r.rest| <= |s|
    decreases |s|
  {
    if s == "" then Scanned(if quoted then None else ret, "")
    else if IsBlank(s[0]) && !quoted then
      if ret.Some? then Scanned(ret, s) else Scan(s[1..], quoted, ret)
    else if s[0] != '"' then Scan(s[1..], quoted, Some(ret.GetOr("") + [s[0]]))
    else if !quoted then Scan(s[1..], true, Some(ret.GetOr("")))
    else if |s| > 1 && s[1] == '"' then Scan(s[2..], true, Some(ret.GetOr("") + "\""))
    else Scan(s[1..], false, Some(ret.GetOr("")))
  }

  function Trimmed(s: string): (r: string)
    ensures |r| <= |s|
  {
    if s != "" && IsBlank(s[0]) then Trimmed(s[1..]) else s
  }

  /** An argument that is found leaves less text behind. */
  lemma {:induction false} ScanConsumes(s: string)
    ensures Scan(s, false, None).arg.Some? ==> |Scan(s, false, None).rest| < |s|
    decreases |s|
  {
    if s != "" && IsBlank(s[0]) {
      ScanConsumes(s[1..]);
    }
  }

  datatype Taken = Taken(args: seq<string>, rest: string)

  function TakeAll(s: string): Taken
    decreases |s|
  {
    if s == "" then Taken([], "")
    else
      ScanConsumes(s);
      var first := Scan(s, false, None);
      if first.arg.None? then Taken([], s)
      else
        var more := TakeAll(Trimmed(first.rest));
        Taken([first.arg.value] + more.args, more.rest)
  }

  function Unquoted(s: string): seq<string> {
    var all := TakeAll(s);
    if all.rest != "" || (all.args != [] && all.args[0] == "") then [] else all.args
  }

  /** The loop of `UnquoteFirst`, which changes its argument only if it finds something. */
  method UnquoteFirst(command: string) returns (ret: Option<string>, command': string)
    ensures
      var r := Scan(command, false, None);
      && ret == r.arg
      && command' == if r.arg.Some? then Trimmed(r.rest) else command
  {
    ret := None;
    var quoted, i := false, 0;
    assert command[0..] == command;
    while i < |command|
      invariant i <= |command| && (quoted ==> ret.Some?)
      invariant Scan(command, false, None) == Scan(command[i..], quoted, ret)
    {
      var c := command[i];
      assert command[i..][0] == c && command[i..][1..] == command[i + 1..];
      if IsBlank(c) && !quoted {
        if ret.Some? {
          break;
        }
      } else {
        if ret.None? {
          ret := Some("");
        }
        if c == '"' {
          if !quoted {
            quoted := true;
          } else if i + 1 != |command| && command[i + 1] == '"' {
            assert command[i..][1] == '"' && command[i..][2..] == command[i + 2..];
            ret := Some(ret.value + "\"");
            i := i + 1;
          } else {
            assert i + 1 < |command| ==> command[i..][1] == command[i + 1];
            quoted := false;
          }
        } else {
          ret := Some(ret.value + [c]);
        }
      }
      i := i + 1;
    }
    ghost var rest := command[i..];
    assert Scan(command, false, None) == Scanned(if quoted then None else ret, rest);
    hide Scan;
    if quoted {
      ret := None;
    }
    command' := command;
    if ret.Some? {
      while i < |command| && IsBlank(command[i])
        invariant i <= |command| && Trimmed(rest) == Trimmed(command[i..])
      {
        assert command[i..][1..] == command[i + 1..];
        i := i + 1;
      }
      command' := command[i..];
    }
  }

  method UnquoteCommand(text: string) returns (ret: seq<string>)
    ensures ret == Unquoted(text)
  {
    ret := [];
    var command := text;
    while command != ""
      invariant TakeAll(text) == Taken(ret + TakeAll(command).args, TakeAll(command).rest)
      decreases |command|
    {
      ScanConsumes(command);
      ghost var first := Scan(command, false, None);
      ghost var more := TakeAll(Trimmed(first.rest));
      assert TakeAll(command) == if first.arg.None? then Taken([], command) else Taken([first.arg.value] + more.args, more.rest);
      hide TakeAll, Scan, Trimmed;
      var part, rest := UnquoteFirst(command);
      if part.None? {
        assert ret + [] == ret;
        break;
      }
      assert ret + ([part.value] + more.args) == ret + [part.value] + more.args;
      ret := ret + [part.value];
      command := rest;
    }
    assert command == "" ==> ret + [] == ret;
    if command != "" {
      ret := [];
    }
    if ret != [] && ret[0] == "" {
      ret := [];
    }
  }

  // ---- Round trip ----

  /** What follows an argument in a quoted command. */
  predicate IsRest(s: string) {
    s == "" || s[0] == ' '
  }

  lemma ScanEnds(rest: string, arg: string)
    requires IsRest(rest)
    ensures Scan(rest, false, Some(arg)) == Scanned(Some(arg), rest)
  {
  }

  lemma ScanQuotedChar(c: char, tail: string, ret: string)
    ensures Scan(DoubledChar(c) + tail, true, Some(ret)) == Scan(tail, true, Some(ret + [c]))
  {
    var s := DoubledChar(c) + tail;
    assert if c == '"' then s[0] == '"' && s[1] == '"' && s[2..] == tail else s[0] == c && s[1..] == tail;
  }

  lemma ScanQuoteEnds(rest: string, ret: string)
    requires IsRest(rest)
    ensures Scan("\"" + rest, true, Some(ret)) == Scanned(Some(ret), rest)
  {
    var s := "\"" + rest;
    assert s[0] == '"' && s[1..] == rest && (|s| > 1 ==> s[1] == rest[0] == ' ');
    ScanEnds(rest, ret);
  }

  /** Inside quotes everything is taken literally, up to the closing quote. */
  lemma {:induction false} ScanQuoted(arg: string, rest: string, ret: string)
    requires IsRest(rest)
    ensures Scan(Doubled(arg) + "\"" + rest, true, Some(ret)) == Scanned(Some(ret + arg), rest)
    decreases |arg|
  {
    hide Scan, Doubled, DoubledChar, IsRest;
    if arg == "" {
      DoubledUnfolds(' ', "");
      assert "" + "\"" + rest == "\"" + rest && ret + arg == ret;
      ScanQuoteEnds(rest, ret);
    } else {
      var c, more := arg[0], arg[1..];
      var tail := Doubled(more) + "\"" + rest;
      DoubledUnfolds(c, more);
      assert [c] + more == arg;
      Regrouped(DoubledChar(c), Doubled(more), "\"");
      Regrouped(DoubledChar(c), Doubled(more) + "\"", rest);
      Regrouped(ret, [c], more);
      ScanQuotedChar(c, tail, ret);
      ScanQuoted(more, rest, ret + [c]);
    }
  }

  /** Characters that are neither blank nor quotes. */
  predicate IsPlain(s: string) {
    forall i :: 0 <= i < |s| ==> !IsBlank(s[i]) && s[i] != '"'
  }

  /** Outside quotes plain characters are collected until the next blank. */
  lemma {:induction false} ScanPlain(arg: string, rest: string, ret: Option<string>)
    requires IsPlain(arg) && (rest == "" || IsBlank(rest[0])) && (arg != "" || ret.Some?)
    ensures Scan(arg + rest, false, ret) == Scanned(Some(ret.GetOr("") + arg), rest)
    decreases |arg|
  {
    if arg == "" {
      assert arg + rest == rest && ret.value + arg == ret.value;
    } else {
      var c, more := arg[0], arg[1..];
      assert (arg + rest)[0] == c && (arg + rest)[1..] == more + rest;
      assert IsPlain(more);
      assert ret.GetOr("") + arg == ret.GetOr("") + [c] + more;
      hide IsPlain;
      ScanPlain(more, rest, Some(ret.GetOr("") + [c]));
    }
  }

  /** Arguments that are taken as they are: quoted ones, and ones without line breaks. */
  predicate IsGood(arg: string) {
    arg == "" || (exists i :: 0 <= i < |arg| && arg[i] in {' ', '\t', '"', '\''}) || forall i :: 0 <= i < |arg| ==> arg[i] !in {'\r', '\n'}
  }

  predicate AllGood(args: seq<string>) {
    forall k :: 0 <= k < |args| ==> IsGood(args[k])
  }

  lemma OpenQuote(s: string)
    ensures Scan("\"" + s, false, None) == Scan(s, true, Some(""))
  {
    assert ("\"" + s)[0] == '"' && ("\"" + s)[1..] == s;
  }

  lemma ScanQuotedArg(arg: string, rest: string)
    requires IsRest(rest)
    ensures Scan("\"" + Doubled(arg) + "\"" + rest, false, None) == Scanned(Some(arg), rest)
  {
    hide *;
    assert "\"" + Doubled(arg) + "\"" + rest == "\"" + (Doubled(arg) + "\"" + rest);
    OpenQuote(Doubled(arg) + "\"" + rest);
    ScanQuoted(arg, rest, "");
    assert "" + arg == arg;
  }

  lemma ScanGood(arg: string, rest: string)
    requires IsGood(arg) && IsRest(rest)
    ensures Scan(QuotedArg(arg) + rest, false, None) == Scanned(Some(arg), rest)
  {
    if NeedsQuotes(arg) {
      assert QuotedArg(arg) == "\"" + Doubled(arg) + "\"";
      hide *;
      ScanQuotedArg(arg, rest);
    } else {
      assert arg != "" && IsPlain(arg) && QuotedArg(arg) == arg;
      assert rest == "" || IsBlank(rest[0]);
      hide *;
      ScanPlain(arg, rest, None);
      assert "" + arg == arg;
    }
  }

  /** Blanks in front of an argument do not matter for what is taken. */
  lemma {:induction false} TakeTrimmed(s: string)
    ensures TakeAll(Trimmed(s)).args == TakeAll(s).args
    ensures TakeAll(s).args != [] ==> TakeAll(Trimmed(s)) == TakeAll(s)
    decreases |s|
  {
    if s != "" && IsBlank(s[0]) {
      TakeBlank(s);
      TakeTrimmed(s[1..]);
      hide TakeAll;
    }
  }

  lemma TakeBlank(s: string)
    requires s != "" && IsBlank(s[0])
    ensures TakeAll(s).args == TakeAll(s[1..]).args
    ensures TakeAll(s).args != [] ==> TakeAll(s) == TakeAll(s[1..])
  {
    assert Scan(s, false, None) == Scan(s[1..], false, None);
    hide Scan, Trimmed;
  }

  lemma TakeNext(s: string, arg: string, rest: string)
    requires s != "" && Scan(s, false, None) == Scanned(Some(arg), rest)
    ensures TakeAll(s).args == [arg] + TakeAll(rest).args
  {
    TakeTrimmed(rest);
    hide Scan, Trimmed;
  }

  /** Without bad arguments everything is taken, and nothing else. */
  lemma {:induction false} TakesGood(args: seq<string>)
    requires AllGood(args)
    ensures TakeAll(QuotedCommand(args)) == Taken(args, "")
    decreases |args|
  {
    if args != [] {
      var arg, more := args[0], args[1..];
      var rest := QuotedRest(more);
      ScanGood(arg, rest);
      var s := QuotedArg(arg) + rest;
      assert args == [arg] + more;
      TakesGood(more);
      TrimmedRest(more);
      assert s != "" && TakeAll(s) == Taken([arg] + TakeAll(Trimmed(rest)).args, TakeAll(Trimmed(rest)).rest);
    }
  }

  lemma StartsPlainly(arg: string)
    requires IsGood(arg)
    ensures !IsBlank(QuotedArg(arg)[0])
  {
    hide Doubled;
  }

  /** Behind an argument there is one space, and then the next argument, which does not begin with a blank. */
  lemma TrimmedRest(args: seq<string>)
    requires AllGood(args)
    ensures Trimmed(QuotedRest(args)) == QuotedCommand(args)
  {
    if args != [] {
      var arg := QuotedArg(args[0]);
      var s := arg + QuotedRest(args[1..]);
      StartsPlainly(args[0]);
      assert QuotedRest(args) == " " + s;
      hide QuotedArg, IsGood, QuotedRest;
      assert s[0] == arg[0];
      assert (" " + s)[0] == ' ' && (" " + s)[1..] == s;
      assert Trimmed(" " + s) == Trimmed(s) == s;
    }
  }

  function FirstBreak(s: string): (r: nat)
    ensures r <= |s| && (r < |s| ==> IsBreak(s[r])) && forall k :: 0 <= k < r ==> !IsBreak(s[k])
  {
    if s == "" || IsBreak(s[0]) then 0 else 1 + FirstBreak(s[1..])
  }

  lemma GoodAppend(arg: string, args: seq<string>)
    requires IsGood(arg) && AllGood(args)
    ensures AllGood([arg] + args)
  {
  }

  /** An argument that was not quoted falls apart at its line breaks, into good arguments. */
  lemma {:induction false} PlainFallsApart(p: string, rest: string)
    requires IsRest(rest) && (forall i :: 0 <= i < |p| ==> p[i] != ' ' && p[i] != '\t' && p[i] != '"')
    requires AllGood(TakeAll(rest).args)
    ensures AllGood(TakeAll(p + rest).args)
    decreases |p|
  {
    var n := FirstBreak(p);
    if p == "" {
      assert p + rest == rest;
    } else if n == 0 {
      assert (p + rest)[0] == p[0] && (p + rest)[1..] == p[1..] + rest;
      hide TakeAll;
      TakeBlank(p + rest);
      PlainFallsApart(p[1..], rest);
    } else {
      var w, p2 := p[..n], p[n..];
      assert p + rest == w + (p2 + rest);
      assert IsPlain(w) && IsGood(w) && "" + w == w;
      assert p2 + rest == "" || IsBlank((p2 + rest)[0]);
      hide TakeAll, IsPlain, IsGood, Scan;
      ScanPlain(w, p2 + rest, None);
      TakeNext(p + rest, w, p2 + rest);
      PlainFallsApart(p2, rest);
      GoodAppend(w, TakeAll(p2 + rest).args);
    }
  }

  lemma {:induction false} TakenIsGood(args: seq<string>)
    ensures AllGood(TakeAll(QuotedCommand(args)).args)
    decreases |args|
  {
    if args != [] {
      var arg, more := args[0], args[1..];
      var rest := QuotedRest(more);
      TakenIsGood(more);
      assert IsRest(rest);
      assert QuotedCommand(args) == QuotedArg(arg) + rest;
      assert TakeAll("").args == [];
      assert AllGood(TakeAll(rest).args) by {
        if more != [] {
          assert (" " + QuotedCommand(more))[1..] == QuotedCommand(more);
          hide TakeAll, QuotedCommand;
          TakeBlank(rest);
        }
      }
      if IsGood(arg) {
        hide Scan, TakeAll, IsGood;
        ScanGood(arg, rest);
        assert QuotedArg(arg) + rest != "";
        TakeNext(QuotedArg(arg) + rest, arg, rest);
        GoodAppend(arg, TakeAll(rest).args);
      } else {
        hide TakeAll;
        PlainFallsApart(arg, rest);
      }
    }
  }

  /** Quoting and taking apart gives the same arguments exactly if the first is not empty and all are good. */
  lemma QuoteRoundTrip(args: seq<string>)
    ensures Unquoted(QuotedCommand(args)) == args <==> (args != [] ==> args[0] != "") && AllGood(args)
  {
    if AllGood(args) {
      TakesGood(args);
    }
    TakenIsGood(args);
    hide TakeAll, QuotedCommand, IsGood;
    if args != [] && Unquoted(QuotedCommand(args)) == args {
      assert TakeAll(QuotedCommand(args)).args == args;
    }
  }

  /** In particular every list without line breaks whose first argument is not empty. */
  lemma OrdinaryArgsSurvive(args: seq<string>)
    requires args != [] ==> args[0] != ""
    requires forall arg :: arg in args ==> forall i :: 0 <= i < |arg| ==> !IsBreak(arg[i])
    ensures Unquoted(QuotedCommand(args)) == args
  {
    forall k | 0 <= k < |args| ensures IsGood(args[k]) {
      assert args[k] in args;
    }
    QuoteRoundTrip(args);
  }
}
