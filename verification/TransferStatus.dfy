/**
 The transfer status shared by transferring threads and the interface (`CTransferStatusManager`,
 src/engine/engineprivate.cpp).  Bytes are added to an atomic counter without the lock; only a thread that
 finds the counter at zero goes on to take the lock.  Under the lock an operation accesses the counter once, so it
 is one atomic step, as is adding; threads interleave freely.
 */
module TransferStatus {
  import opened Options

  datatype Status = Status(startOffset: int, currentOffset: int)

  /**
   `saw`: threads that found the counter at zero and have yet to take the lock.  `unsent`: status notifications
   made under the lock and not yet delivered.  `polling`: the interface was notified and still asks.
   `sum`: bytes added since the last `Init`.
   */
  datatype State = State(
    status: Option<Status>,
    counter: int,
    sendState: int,
    saw: nat,
    unsent: nat,
    polling: bool,
    sum: int)

  const START := State(None, 0, 0, 0, 0, false, 0)

  datatype Step =
    | FetchAdd(bytes: int)
    | TakeLock
    | Deliver
    | Get(byInterface: bool)
    | Init(startOffset: int)
    | Reset

  predicate Enabled(s: State, step: Step) {
    match step
    case TakeLock => s.saw > 0
    case Deliver => s.unsent > 0
    case _ => true
  }

  /** Moves what was counted into the status. */
  function Collected(s: State): State {
    if s.status == None then s
    else s.(status := Some(s.status.value.(currentOffset := s.status.value.currentOffset + s.counter)), counter := 0)
  }

  /** The answer of `Get`: only an update since the last answer counts as a change. */
  predicate Changed(s: State) {
    s.status.Some? && s.sendState == 2
  }

  function Next(s: State, step: Step): State {
    match step
    case FetchAdd(bytes) =>
      s.(counter := s.counter + bytes, sum := s.sum + bytes, saw := if s.counter == 0 then s.saw + 1 else s.saw)
    case TakeLock =>
      var s' := if s.saw > 0 then s.(saw := s.saw - 1) else s;
      if s.status == None then s'
      else if s.sendState == 0 then Collected(s').(sendState := 2, unsent := s.unsent + 1)
      else s'.(sendState := 2)
    case Deliver =>
      s.(unsent := if s.unsent > 0 then s.unsent - 1 else 0, polling := true)
    case Get(byInterface) =>
      Collected(s).(sendState := if Changed(s) then 1 else 0,
                    polling := if byInterface && !Changed(s) then false else s.polling)
    case Init(startOffset) =>
      var start := if startOffset < 0 then 0 else startOffset;
      s.(status := Some(Status(start, start)), counter := 0, sum := 0)
    case Reset =>
      s.(status := None, sendState := 0)
  }

  /** Every byte since the last `Init` is in the reported offset or still in the counter. */
  predicate NoByteLost(s: State) {
    s.status.Some? ==> s.status.value.currentOffset + s.counter == s.status.value.startOffset + s.sum
  }

  /** Bytes waiting in the counter are announced, or a thread is on its way to announce them. */
  predicate NoSignalLost(s: State) {
    s.status.Some? && s.counter != 0 ==> s.sendState == 2 || s.saw > 0
  }

  /** An announced change reaches the interface: it is asking, or a notification is on its way. */
  predicate NobodySleeps(s: State) {
    s.sendState != 0 ==> s.polling || s.unsent > 0
  }

  predicate Inv(s: State) {
    NoByteLost(s) && NoSignalLost(s) && NobodySleeps(s)
  }

  lemma StepKeepsInv(s: State, step: Step)
    requires Inv(s) && Enabled(s, step)
    ensures Inv(Next(s, step))
  {
  }

  ghost predicate Runs(s: State, steps: seq<Step>, s': State)
    decreases |steps|
  {
    if steps == [] then s == s' else Enabled(s, steps[0]) && Runs(Next(s, steps[0]), steps[1..], s')
  }

  lemma {:induction false} RunsKeepInv(s: State, steps: seq<Step>, s': State)
    requires Inv(s) && Runs(s, steps, s')
    ensures Inv(s')
    decreases |steps|
  {
    if steps != [] {
      StepKeepsInv(s, steps[0]);
      RunsKeepInv(Next(s, steps[0]), steps[1..], s');
    }
  }

  /** The next `Get` reports every byte counted so far, under every interleaving. */
  lemma GetReportsEverything(steps: seq<Step>, s: State)
    requires Runs(START, steps, s) && s.status.Some?
    ensures Next(s, Get(true)).status.value.currentOffset == s.status.value.startOffset + s.sum
  {
    RunsKeepInv(START, steps, s);
  }

  /** If the interface has stopped asking and no notification is under way, all bytes are reported once threads are through. */
  lemma SleepingMeansUpToDate(steps: seq<Step>, s: State)
    requires Runs(START, steps, s) && s.status.Some?
    requires !s.polling && s.unsent == 0 && s.saw == 0
    ensures s.status.value.currentOffset == s.status.value.startOffset + s.sum
  {
    RunsKeepInv(START, steps, s);
  }

  // ---- What the run alone tells ----

  /** Whether a transfer has begun since the last `Reset`, and where. */
  function Begun(steps: seq<Step>): Option<int> {
    if steps == [] then None
    else
      var before, last := steps[..|steps| - 1], steps[|steps| - 1];
      match last
      case Init(startOffset) => Some(startOffset)
      case Reset => None
      case _ => Begun(before)
  }

  /** The bytes added since the last `Init`. */
  function BytesAdded(steps: seq<Step>): int {
    if steps == [] then 0
    else
      var before, last := steps[..|steps| - 1], steps[|steps| - 1];
      match last
      case Init(_) => 0
      case FetchAdd(bytes) => BytesAdded(before) + bytes
      case _ => BytesAdded(before)
  }

  /** A thread has announced bytes of a transfer, and nobody has asked since. */
  predicate Announced(steps: seq<Step>) {
    steps != [] &&
    var before, last := steps[..|steps| - 1], steps[|steps| - 1];
    match last
    case TakeLock => Announced(before) || Begun(before).Some?
    case Get(_) => false
    case Reset => false
    case _ => Announced(before)
  }

  predicate ToldBy(s: State, steps: seq<Step>) {
    && s.sum == BytesAdded(steps)
    && (s.status.Some? <==> Begun(steps).Some?)
    && (s.status.Some? ==> s.status.value.startOffset == if Begun(steps).value < 0 then 0 else Begun(steps).value)
    && (s.sendState == 2 <==> Announced(steps))
    && (s.status.None? ==> s.sendState == 0)
  }

  lemma StepIsTold(s: State, steps: seq<Step>, step: Step)
    requires ToldBy(s, steps) && Enabled(s, step)
    ensures ToldBy(Next(s, step), steps + [step])
  {
    assert (steps + [step])[..|steps + [step]| - 1] == steps;
  }

  lemma {:induction false} RunIsToldFrom(done: seq<Step>, s: State, steps: seq<Step>, s': State)
    requires ToldBy(s, done) && Runs(s, steps, s')
    ensures ToldBy(s', done + steps)
    decreases |steps|
  {
    if steps == [] {
      assert done + steps == done;
    } else {
      StepIsTold(s, done, steps[0]);
      assert done + [steps[0]] + steps[1..] == done + steps;
      hide ToldBy, Next, Enabled;
      RunIsToldFrom(done + [steps[0]], Next(s, steps[0]), steps[1..], s');
    }
  }

  /**
   A query reports the bytes added since the transfer began, counted from where it began, and a change exactly if bytes
   were announced since the last query.
   */
  lemma GetTells(steps: seq<Step>, s: State, byInterface: bool)
    requires Runs(START, steps, s)
    ensures
      var s' := Next(s, Get(byInterface));
      && (s'.status.Some? <==> Begun(steps).Some?)
      && (s'.status.Some? ==>
            s'.status.value.currentOffset == (if Begun(steps).value < 0 then 0 else Begun(steps).value) + BytesAdded(steps))
    ensures Changed(s) <==> Announced(steps)
    ensures forall step: Step :: !step.TakeLock? && !step.Deliver? ==> Enabled(s, step)
  {
    RunIsToldFrom([], START, steps, s);
    assert [] + steps == steps;
    RunsKeepInv(START, steps, s);
  }

  /** The threads under way take the lock one after the other, and their notifications are delivered. */
  function Settling(s: State): seq<Step>
    decreases 2 * s.saw + s.unsent
  {
    if s.saw > 0 then [TakeLock] + Settling(Next(s, TakeLock))
    else if s.unsent > 0 then [Deliver] + Settling(Next(s, Deliver))
    else []
  }

  lemma {:induction false} Settles(s: State) returns (s': State)
    ensures Runs(s, Settling(s), s') && s'.saw == 0 && s'.unsent == 0
    decreases 2 * s.saw + s.unsent
  {
    if s.saw > 0 || s.unsent > 0 {
      var step := if s.saw > 0 then TakeLock else Deliver;
      s' := Settles(Next(s, step));
      assert Settling(s)[0] == step && Settling(s)[1..] == Settling(Next(s, step));
      hide Next, Settling;
    } else {
      s' := s;
    }
  }

  /** No thread can be kept from finishing, and then the interface asks or knows all. */
  lemma EverythingIsReported(steps: seq<Step>, s: State) returns (more: seq<Step>, s': State)
    requires Runs(START, steps, s) && s.status.Some?
    ensures Runs(s, more, s') && s'.saw == 0 && s'.unsent == 0
    ensures forall step :: step in more ==> step.TakeLock? || step.Deliver?
    ensures s'.status.Some? && (s'.polling || s'.status.value.currentOffset == s'.status.value.startOffset + s.sum)
  {
    more := Settling(s);
    s' := Settles(s);
    SettlingIs(s, s');
    RunsKeepInv(START, steps, s);
    RunsKeepInv(s, more, s');
    hide Settling, Runs;
  }

  lemma {:induction false} SettlingIs(s: State, s': State)
    requires Runs(s, Settling(s), s')
    ensures forall step :: step in Settling(s) ==> step.TakeLock? || step.Deliver?
    ensures s'.sum == s.sum && (s'.status.Some? <==> s.status.Some?)
    decreases 2 * s.saw + s.unsent
  {
    if s.saw > 0 || s.unsent > 0 {
      var step := if s.saw > 0 then TakeLock else Deliver;
      assert Settling(s)[0] == step && Settling(s)[1..] == Settling(Next(s, step));
      SettlingIs(Next(s, step), s');
    }
  }

  /** The manager's fields, changed one atomic step at a time. */
  class TransferStatusManager {
    var status: Option<Status>
    var currentOffset: int
    var sendState: int
    ghost var saw: nat
    ghost var unsent: nat
    ghost var polling: bool
    ghost var sum: int

    ghost function Value(): State
      reads this
    {
      State(status, currentOffset, sendState, saw, unsent, polling, sum)
    }

    /** `Update`, up to the lock.  The result tells whether the thread goes on to take it. */
    method AddBytes(bytes: int) returns (sawZero: bool)
      modifies this
      ensures Value() == Next(old(Value()), FetchAdd(bytes)) && (sawZero <==> saw > old(saw))
    {
      var oldOffset := currentOffset;
      currentOffset, sum := currentOffset + bytes, sum + bytes;
      sawZero := oldOffset == 0;
      if sawZero {
        saw := saw + 1;
      }
    }

    /** `Update`, under the lock.  The result is the notification to deliver afterwards. */
    method Announce() returns (notification: Option<Status>)
      requires saw > 0
      modifies this
      ensures Value() == Next(old(Value()), TakeLock)
      ensures notification == if unsent > old(unsent) then status else None
    {
      notification, saw := None, saw - 1;
      if status.None? {
        return;
      }
      if sendState == 0 {
        status := Some(status.value.(currentOffset := status.value.currentOffset + currentOffset));
        currentOffset := 0;
        notification, unsent := status, unsent + 1;
      }
      sendState := 2;
    }

    method GetStatus(ghost byInterface: bool) returns (result: Option<Status>, changed: bool)
      modifies this
      ensures Value() == Next(old(Value()), Get(byInterface)) && result == status
      ensures changed <==> Changed(old(Value()))
    {
      polling := if byInterface && !Changed(Value()) then false else polling;
      if status.None? {
        changed, sendState := false, 0;
      } else {
        status := Some(status.value.(currentOffset := status.value.currentOffset + currentOffset));
        currentOffset := 0;
        if sendState == 2 {
          changed, sendState := true, 1;
        } else {
          changed, sendState := false, 0;
        }
      }
      return status, changed;
    }

    method InitTransfer(startOffset: int)
      modifies this
      ensures Value() == Next(old(Value()), Init(startOffset))
    {
      var start := if startOffset < 0 then 0 else startOffset;
      status, currentOffset, sum := Some(Status(start, start)), 0, 0;
    }

    method ResetStatus()
      modifies this
      ensures Value() == Next(old(Value()), Reset)
    {
      status, sendState := None, 0;
    }
  }
}
