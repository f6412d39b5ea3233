/**
 The stack of operations of a control socket (`Push`, `ResetOperation`, `DoClose`, `ParseSubcommandResult`,
 `SendNextCommand` in src/engine/controlsocket.cpp).  What an operation's own `Send` and `SubcommandResult`
 do is an answer from outside: a code, and operations pushed on the way.
 */
module ControlSocketStack {
  import opened Options
  import opened ReplyCodes

  /**
   `topLevel`: when it ends, the operation below gets no result but just goes on.  `reset` is its own `Reset`,
   which may change the code it ends with.
   */
  datatype Op = Op(topLevel: bool, reset: Code -> Code)

  datatype Answer = Answer(code: Code, pushed: seq<Op>)

  /** Asking the operation at this height to go on, or telling it how the one above it has ended. */
  datatype Asked = GoOn(height: nat) | ResultOf(height: nat, code: Code)

  /** The stack left, what the engine was told, what operations were asked, and the answers not used. */
  datatype Outcome = Outcome(stack: seq<Op>, reports: seq<Code>, asked: seq<Asked>, answers: seq<Answer>)

  function Asking(a: Asked, r: Outcome): Outcome {
    r.(asked := [a] + r.asked)
  }

  /** The only results that an operation passes on to the one below it. */
  predicate IsPlainResult(code: Code) {
    code == OK || code == ERROR || code == CRITICALERROR || code == ERROR_NOTFOUND
  }

  /** The last element is the top of the stack. */
  function ResetOperation(stack: seq<Op>, code: Code, answers: seq<Answer>): (r: Outcome)
    ensures |r.answers| <= |answers|
    decreases |answers|, 1, |stack|
  {
    if |stack| == 0 then Outcome([], [code], [], answers)
    else if |stack| == 1 then Outcome([], [stack[0].reset(code)], [], answers)
    else
      var op, rest := stack[|stack| - 1], stack[..|stack| - 1];
      var code' := op.reset(code);
      if !IsPlainResult(code') then ResetOperation(rest, code', answers)
      else if op.topLevel then SendNextCommand(rest, answers)
      else ParseSubcommandResult(rest, code', answers)
  }

  function ParseSubcommandResult(stack: seq<Op>, prevResult: Code, answers: seq<Answer>): (r: Outcome)
    requires |stack| > 0
    ensures |r.answers| <= |answers|
    decreases |answers|, 0, |stack|
  {
    var asked := ResultOf(|stack|, prevResult);
    if answers == [] then Outcome(stack, [], [asked], [])
    else
      var a, stack' := answers[0], stack + answers[0].pushed;
      if a.code == WOULDBLOCK then Outcome(stack', [], [asked], answers[1..])
      else if a.code == CONTINUE then Asking(asked, SendNextCommand(stack', answers[1..]))
      else Asking(asked, ResetOperation(stack', a.code, answers[1..]))
  }

  function SendNextCommand(stack: seq<Op>, answers: seq<Answer>): (r: Outcome)
    ensures |r.answers| <= |answers|
    decreases |answers|, if |stack| == 0 then 2 else 0, 0
  {
    var asked := GoOn(|stack|);
    if |stack| == 0 then ResetOperation([], ERROR, answers)
    else if answers == [] then Outcome(stack, [], [asked], [])
    else
      var a, stack' := answers[0], stack + answers[0].pushed;
      if a.code == CONTINUE then Asking(asked, SendNextCommand(stack', answers[1..]))
      else if a.code == OK then Asking(asked, ResetOperation(stack', OK, answers[1..]))
      else if a.code & DISCONNECTED != 0 then Asking(asked, DoClose(stack', a.code, answers[1..]))
      else if a.code & ERROR != 0 then Asking(asked, ResetOperation(stack', a.code, answers[1..]))
      else if a.code == WOULDBLOCK then Outcome(stack', [], [asked], answers[1..])
      else Asking(asked, ResetOperation(stack', INTERNALERROR, answers[1..]))
  }

  function DoClose(stack: seq<Op>, code: Code, answers: seq<Answer>): (r: Outcome)
    ensures |r.answers| <= |answers|
    decreases |answers|, 2, 0
  {
    ResetOperation(stack, ERROR | DISCONNECTED | code, answers)
  }

  /** The engine hears from its socket exactly when the last operation is gone, and then exactly once. */
  lemma {:induction false} ReportedOnceWhenDone(stack: seq<Op>, code: Code, answers: seq<Answer>)
    ensures var r := ResetOperation(stack, code, answers); |r.reports| == if |r.stack| == 0 then 1 else 0
    decreases |answers|, 1, |stack|
  {
    if |stack| > 1 {
      var rest := stack[..|stack| - 1];
      var code' := stack[|stack| - 1].reset(code);
      if !IsPlainResult(code') {
        ReportedOnceWhenDone(rest, code', answers);
      } else if stack[|stack| - 1].topLevel {
        SendReportsOnce(rest, answers);
      } else if answers != [] {
        var a, stack' := answers[0], rest + answers[0].pushed;
        if a.code == CONTINUE {
          SendReportsOnce(stack', answers[1..]);
        } else if a.code != WOULDBLOCK {
          ReportedOnceWhenDone(stack', a.code, answers[1..]);
        }
      }
    }
  }

  lemma {:induction false} SendReportsOnce(stack: seq<Op>, answers: seq<Answer>)
    requires |stack| > 0
    ensures var r := SendNextCommand(stack, answers); |r.reports| == if |r.stack| == 0 then 1 else 0
    decreases |answers|, 0, |stack|
  {
    hide ResetOperation, IsPlainResult;
    if answers != [] {
      var a, stack', rest := answers[0], stack + answers[0].pushed, answers[1..];
      SendUnfolds(stack, answers);
      hide SendNextCommand, DoClose, Send;
      if a.code == CONTINUE {
        SendReportsOnce(stack', rest);
      } else {
        var next := Send(a.code);
        if next.Some? {
          ReportedOnceWhenDone(stack', next.value, rest);
        }
      }
    }
  }

  /** The code `SendNextCommand` resets with, if it does not wait. */
  function Send(code: Code): Option<Code> {
    if code == OK then Some(OK)
    else if code & DISCONNECTED != 0 then Some(ERROR | DISCONNECTED | code)
    else if code & ERROR != 0 then Some(code)
    else if code == WOULDBLOCK then None
    else Some(INTERNALERROR)
  }

  lemma SendUnfolds(stack: seq<Op>, answers: seq<Answer>)
    requires |stack| > 0 && |answers| > 0
    ensures
      var a, stack' := answers[0], stack + answers[0].pushed;
      SendNextCommand(stack, answers) ==
        if a.code == CONTINUE then Asking(GoOn(|stack|), SendNextCommand(stack', answers[1..]))
        else if Send(a.code) == None then Outcome(stack', [], [GoOn(|stack|)], answers[1..])
        else Asking(GoOn(|stack|), ResetOperation(stack', Send(a.code).value, answers[1..]))
  {
    hide ResetOperation;
  }

  // ---- Closing ----

  /** The code after the resets of all operations, from the top of the stack down. */
  function ResetCode(stack: seq<Op>, code: Code): Code {
    if |stack| == 0 then code else ResetCode(stack[..|stack| - 1], stack[|stack| - 1].reset(code))
  }

  /** No operation on the way down turns the code into a result for the one below it. */
  predicate NeverPlain(stack: seq<Op>, code: Code) {
    |stack| <= 1 ||
    (!IsPlainResult(stack[|stack| - 1].reset(code)) && NeverPlain(stack[..|stack| - 1], stack[|stack| - 1].reset(code)))
  }

  /** A reset goes all the way down, whatever there is to ask, exactly if no operation makes a plain result of the code. */
  lemma {:induction false} ResetUnwindsEverything(stack: seq<Op>, code: Code, answers: seq<Answer>)
    ensures NeverPlain(stack, code) ==> ResetOperation(stack, code, answers) == Outcome([], [ResetCode(stack, code)], [], answers)
    ensures !NeverPlain(stack, code) ==> |ResetOperation(stack, code, []).stack| > 0
    decreases |stack|
  {
    if |stack| > 1 {
      ResetUnwindsEverything(stack[..|stack| - 1], stack[|stack| - 1].reset(code), answers);
    } else if |stack| == 1 {
      assert ResetCode(stack[..0], stack[0].reset(code)) == stack[0].reset(code);
    }
  }

  /**
   If one does, the operation below the first such one is told the result, or is asked to go on if that one was on the
   top level; before that nobody is asked.
   */
  lemma {:induction false} ResultIsTold(stack: seq<Op>, code: Code, answers: seq<Answer>) returns (d: nat)
    requires !NeverPlain(stack, code)
    ensures 0 < d < |stack| && ResetCode(stack[d..], code) in {0x0, 0x2, 0x6, 0x10002}
    ensures forall e :: d < e < |stack| ==> ResetCode(stack[e..], code) !in {0x0, 0x2, 0x6, 0x10002}
    ensures
      var r := ResetOperation(stack, code, answers);
      r.asked != [] && r.asked[0] == if stack[d].topLevel then GoOn(d) else ResultOf(d, ResetCode(stack[d..], code))
    decreases |stack|
  {
    var n := |stack| - 1;
    var code' := stack[n].reset(code);
    ResetCodeOfTop(stack, code);
    if IsPlainResult(code') {
      d := n;
      AskedAtOnce(stack[..n], code', answers);
    } else {
      d := ResultIsTold(stack[..n], code', answers);
      forall e | d <= e < n ensures ResetCode(stack[e..], code) == ResetCode(stack[..n][e..], code') {
        assert stack[e..][..|stack[e..]| - 1] == stack[..n][e..] && stack[e..][|stack[e..]| - 1] == stack[n];
      }
    }
  }

  lemma ResetCodeOfTop(stack: seq<Op>, code: Code)
    requires |stack| > 0
    ensures ResetCode(stack[|stack| - 1..], code) == stack[|stack| - 1].reset(code)
  {
    var top := stack[|stack| - 1..];
    assert top == [stack[|stack| - 1]] && top[..0] == [];
    assert ResetCode(top[..0], top[0].reset(code)) == top[0].reset(code);
  }

  lemma AskedAtOnce(stack: seq<Op>, code: Code, answers: seq<Answer>)
    requires |stack| > 0
    ensures var r := ParseSubcommandResult(stack, code, answers); r.asked != [] && r.asked[0] == ResultOf(|stack|, code)
    ensures var r := SendNextCommand(stack, answers); r.asked != [] && r.asked[0] == GoOn(|stack|)
  {
    hide ResetOperation;
  }

  /** An operation that was told a result waits, goes on, or ends with its answer. */
  lemma AnswerToResult(stack: seq<Op>, code: Code, answers: seq<Answer>)
    requires |stack| > 0 && |answers| > 0
    ensures
      var a, stack', r := answers[0], stack + answers[0].pushed, ParseSubcommandResult(stack, code, answers);
      if a.code == 0x1 then r == Outcome(stack', [], [ResultOf(|stack|, code)], answers[1..])
      else
        var next := if a.code == 0x8000 then SendNextCommand(stack', answers[1..]) else ResetOperation(stack', a.code, answers[1..]);
        r == next.(asked := [ResultOf(|stack|, code)] + next.asked)
  {
    hide ResetOperation, SendNextCommand;
  }

  /** An operation that was asked to go on may also lose the connection; an answer without meaning is an internal error. */
  lemma AnswerToSend(stack: seq<Op>, answers: seq<Answer>)
    requires |stack| > 0 && |answers| > 0
    ensures
      var a, stack', r := answers[0], stack + answers[0].pushed, SendNextCommand(stack, answers);
      var ended := if a.code & 0x40 != 0 then a.code | 0x42 else if a.code & 0x2 != 0 || a.code == 0x0 then a.code else 0x82;
      if a.code == 0x1 then r == Outcome(stack', [], [GoOn(|stack|)], answers[1..])
      else
        var next := if a.code == 0x8000 then SendNextCommand(stack', answers[1..]) else ResetOperation(stack', ended, answers[1..]);
        r == next.(asked := [GoOn(|stack|)] + next.asked)
  {
    SendUnfolds(stack, answers);
    SendIs(answers[0].code);
    hide ResetOperation, SendNextCommand, Send;
  }

  lemma SendIs(code: Code)
    ensures Send(code) ==
      if code == 0x1 then None
      else Some(if code & 0x40 != 0 then code | 0x42 else if code & 0x2 != 0 || code == 0x0 then code else 0x82)
  {
    assert ERROR | DISCONNECTED | code == code | 0x42;
  }

  /** Only plain results are ever told. */
  ghost predicate OnlyPlainTold(asked: seq<Asked>) {
    forall k :: 0 <= k < |asked| && asked[k].ResultOf? ==> asked[k].code in {0x0, 0x2, 0x6, 0x10002}
  }

  lemma OneMoreAsked(a: Asked, asked: seq<Asked>)
    requires OnlyPlainTold(asked) && (a.ResultOf? ==> a.code in {0x0, 0x2, 0x6, 0x10002})
    ensures OnlyPlainTold([a] + asked)
  {
  }

  lemma {:induction false} ResetTellsPlainly(stack: seq<Op>, code: Code, answers: seq<Answer>)
    ensures OnlyPlainTold(ResetOperation(stack, code, answers).asked)
    decreases |answers|, 1, |stack|
  {
    if |stack| > 1 {
      var rest := stack[..|stack| - 1];
      var code' := stack[|stack| - 1].reset(code);
      if !IsPlainResult(code') {
        ResetTellsPlainly(rest, code', answers);
      } else if stack[|stack| - 1].topLevel {
        SendTellsPlainly(rest, answers);
      } else if answers != [] {
        var a, stack' := answers[0], rest + answers[0].pushed;
        AnswerToResult(rest, code', answers);
        if a.code == CONTINUE {
          SendTellsPlainly(stack', answers[1..]);
          OneMoreAsked(ResultOf(|rest|, code'), SendNextCommand(stack', answers[1..]).asked);
        } else if a.code != WOULDBLOCK {
          ResetTellsPlainly(stack', a.code, answers[1..]);
          OneMoreAsked(ResultOf(|rest|, code'), ResetOperation(stack', a.code, answers[1..]).asked);
        }
      }
    }
  }

  lemma {:induction false} SendTellsPlainly(stack: seq<Op>, answers: seq<Answer>)
    requires |stack| > 0
    ensures OnlyPlainTold(SendNextCommand(stack, answers).asked)
    decreases |answers|, 0, |stack|
  {
    hide ResetOperation, IsPlainResult;
    if answers != [] {
      var a, stack', rest := answers[0], stack + answers[0].pushed, answers[1..];
      SendUnfolds(stack, answers);
      hide SendNextCommand, DoClose, Send;
      if a.code == CONTINUE {
        SendTellsPlainly(stack', rest);
        OneMoreAsked(GoOn(|stack|), SendNextCommand(stack', rest).asked);
      } else {
        var next := Send(a.code);
        if next.Some? {
          ResetTellsPlainly(stack', next.value, rest);
          OneMoreAsked(GoOn(|stack|), ResetOperation(stack', next.value, rest).asked);
        }
      }
    }
  }

  predicate Disconnected(code: Code) {
    code & DISCONNECTED != 0
  }

  ghost predicate StaysDisconnected(op: Op) {
    forall code :: Disconnected(code) ==> Disconnected(op.reset(code))
  }

  /**
   As long as no operation takes the bit for a lost connection back, the whole stack goes, nobody is asked, and
   the engine gets one code, with that bit.
   */
  lemma CloseUnwindsEverything(stack: seq<Op>, code: Code, answers: seq<Answer>)
    requires forall k :: 0 <= k < |stack| ==> StaysDisconnected(stack[k])
    ensures
      var r := DoClose(stack, code, answers);
      && r == Outcome([], [ResetCode(stack, ERROR | DISCONNECTED | code)], [], answers)
      && Disconnected(r.reports[0])
  {
    var c := ERROR | DISCONNECTED | code;
    assert c & DISCONNECTED == DISCONNECTED;
    hide IsPlainResult, Disconnected;
    assert Disconnected(c) by {
      assert c & DISCONNECTED == DISCONNECTED;
    }
    DisconnectedIsNeverPlain(stack, c);
    ResetUnwindsEverything(stack, c, answers);
  }

  lemma {:induction false} DisconnectedIsNeverPlain(stack: seq<Op>, code: Code)
    requires Disconnected(code) && forall k :: 0 <= k < |stack| ==> StaysDisconnected(stack[k])
    ensures NeverPlain(stack, code) && Disconnected(ResetCode(stack, code))
    decreases |stack|
  {
    hide Disconnected, IsPlainResult;
    if |stack| > 0 {
      var op := stack[|stack| - 1];
      assert StaysDisconnected(op);
      PlainIsConnected(op.reset(code));
      DisconnectedIsNeverPlain(stack[..|stack| - 1], op.reset(code));
    }
  }

  lemma PlainIsConnected(code: Code)
    ensures Disconnected(code) ==> !IsPlainResult(code)
  {
  }

  /** The one reset of the source that changes the code: a connection that failed for good. */
  function CriticalReset(code: Code): Code {
    code | CRITICALERROR
  }

  lemma ResetsStayDisconnected(topLevel: bool)
    ensures StaysDisconnected(Op(topLevel, code => code)) && StaysDisconnected(Op(topLevel, CriticalReset))
  {
    forall code | Disconnected(code) ensures Disconnected(CriticalReset(code)) {
      assert (code | CRITICALERROR) & DISCONNECTED == code & DISCONNECTED;
    }
  }
}
