/**
 The activity counters behind the interface's activity lights (src/engine/activity_logger.cpp).  Amounts are
 added to two 64-bit atomics without the lock; the consumer empties both under the lock and is told again only
 after it found nothing.  Every access to one of the atomics is a step of its own; threads interleave freely.
 */
module ActivityLogger {
  /** 64-bit counters wrap around. */
  const MODULUS := 0x1_0000_0000_0000_0000

  type Word = x: int | 0 <= x < MODULUS

  function Add(a: Word, b: Word): Word {
    if a + b < MODULUS then a + b else a + b - MODULUS
  }

  datatype Pair = Pair(sent: Word, received: Word) {
    function At(second: bool): Word {
      if second then received else sent
    }

    function With(second: bool, x: Word): Pair {
      if second then Pair(sent, x) else Pair(x, received)
    }
  }

  const ZERO := Pair(0, 0)

  /**
   The lock is held between the two exchanges of the consumer, `Taken` with what the first one gave, and between
   the two stores of a new notifier, `Cleared`.
   */
  datatype Lock = Free | Taken(second: bool, amount: Word) | Cleared

  /**
   `saw`: recorders that found their counter at zero and have yet to take the lock.  `recorded` and `extracted`
   are the totals of each counter since a new notifier last cleared it.
   */
  datatype State = State(
    amounts: Pair,
    waiting: bool,
    hasNotifier: bool,
    saw: nat,
    notified: nat,
    lock: Lock,
    recorded: Pair,
    extracted: Pair)

  const START := State(ZERO, false, false, 0, 0, Free, ZERO, ZERO)

  datatype Step =
    | FetchAdd(second: bool, amount: Word)
    | TakeLock
    | ExtractFirst(second: bool)
    | ExtractOther
    | SetNotifier(present: bool)
    | ClearOther

  predicate Enabled(s: State, step: Step) {
    match step
    case FetchAdd(_, _) => true
    case TakeLock => s.lock.Free? && s.saw > 0
    case ExtractFirst(_) => s.lock.Free?
    case ExtractOther => s.lock.Taken?
    case SetNotifier(_) => s.lock.Free?
    case ClearOther => s.lock.Cleared?
  }

  function Next(s: State, step: Step): State {
    match step
    case FetchAdd(second, amount) =>
      s.(amounts := s.amounts.With(second, Add(s.amounts.At(second), amount)),
         recorded := s.recorded.With(second, Add(s.recorded.At(second), amount)),
         saw := if s.amounts.At(second) == 0 then s.saw + 1 else s.saw)
    case TakeLock =>
      s.(saw := if s.saw > 0 then s.saw - 1 else 0,
         waiting := false,
         notified := if s.waiting && s.hasNotifier then s.notified + 1 else s.notified)
    case ExtractFirst(second) =>
      s.(amounts := s.amounts.With(second, 0),
         extracted := s.extracted.With(second, Add(s.extracted.At(second), s.amounts.At(second))),
         lock := Taken(second, s.amounts.At(second)))
    case ExtractOther =>
      if !s.lock.Taken? then s
      else
        var other := !s.lock.second;
        s.(amounts := s.amounts.With(other, 0),
           extracted := s.extracted.With(other, Add(s.extracted.At(other), s.amounts.At(other))),
           waiting := s.waiting || (s.lock.amount == 0 && s.amounts.At(other) == 0),
           lock := Free)
    case SetNotifier(present) =>
      if present then Clear(s, false).(hasNotifier := true, lock := Cleared) else s.(hasNotifier := false)
    case ClearOther => Clear(s, true).(waiting := true, lock := Free)
  }

  /** One of the stores of a new notifier. */
  function Clear(s: State, second: bool): State {
    s.(amounts := s.amounts.With(second, 0), recorded := s.recorded.With(second, 0), extracted := s.extracted.With(second, 0))
  }

  /** What was recorded is what was extracted and what is still counted, up to wrap-around. */
  predicate Conserved(s: State) {
    forall second: bool :: Add(s.extracted.At(second), s.amounts.At(second)) == s.recorded.At(second)
  }

  /** The consumer never waits on an amount unless a recorder is on its way to wake it. */
  predicate NeverStuck(s: State) {
    && (s.waiting && s.amounts != ZERO ==> s.saw > 0)
    && (s.lock.Taken? && s.amounts.At(s.lock.second) != 0 ==> s.saw > 0)
    && (s.lock.Cleared? && s.amounts.At(false) != 0 ==> s.saw > 0)
  }

  predicate Inv(s: State) {
    Conserved(s) && NeverStuck(s)
  }

  lemma AddAssociates(a: Word, b: Word, c: Word)
    ensures Add(Add(a, b), c) == Add(a, Add(b, c))
    ensures Add(a, 0) == a && Add(0, a) == a
  {
  }

  lemma StepConserves(s: State, step: Step)
    requires Conserved(s)
    ensures Conserved(Next(s, step))
  {
    var s' := Next(s, step);
    forall second: bool
      ensures Add(s'.extracted.At(second), s'.amounts.At(second)) == s'.recorded.At(second)
    {
      AddAssociates(s.extracted.At(second), s.amounts.At(second), if step.FetchAdd? then step.amount else 0);
      AddAssociates(s'.extracted.At(second), 0, 0);
      hide Add;
    }
  }

  lemma StepIsNeverStuck(s: State, step: Step)
    requires NeverStuck(s) && Enabled(s, step)
    ensures NeverStuck(Next(s, step))
  {
    hide Add;
  }

  ghost predicate Runs(s: State, steps: seq<Step>, s': State)
    decreases |steps|
  {
    if steps == [] then s == s' else Enabled(s, steps[0]) && Runs(Next(s, steps[0]), steps[1..], s')
  }

  lemma {:induction false} RunsKeepInv(s: State, steps: seq<Step>, s': State)
    requires Inv(s) && Runs(s, steps, s')
    ensures Inv(s')
    decreases |steps|
  {
    hide Inv, Next;
    if steps != [] {
      assert Inv(Next(s, steps[0])) by {
        InvStep(s, steps[0]);
      }
      RunsKeepInv(Next(s, steps[0]), steps[1..], s');
    }
  }

  lemma InvStep(s: State, step: Step)
    requires Inv(s) && Enabled(s, step)
    ensures Inv(Next(s, step))
  {
    StepConserves(s, step);
    StepIsNeverStuck(s, step);
  }

  /** Once every recorder is through, a waiting consumer has got everything there was. */
  lemma WaitingMeansNothingLeft(steps: seq<Step>, s: State)
    requires Runs(START, steps, s) && s.waiting && s.saw == 0
    ensures s.amounts == ZERO && s.extracted == s.recorded
  {
    RunsKeepInv(START, steps, s);
    assert Add(s.extracted.At(false), 0) == s.recorded.At(false) && Add(s.extracted.At(true), 0) == s.recorded.At(true);
  }

  // ---- What the run alone tells ----

  /** What was recorded for a counter since a new notifier last cleared it. */
  function RecordedSince(steps: seq<Step>, second: bool): int {
    if steps == [] then 0
    else
      var before, last := steps[..|steps| - 1], steps[|steps| - 1];
      match last
      case FetchAdd(which, amount) => RecordedSince(before, second) + if which == second then amount else 0
      case SetNotifier(true) => if second then RecordedSince(before, second) else 0
      case ClearOther => if second then 0 else RecordedSince(before, second)
      case _ => RecordedSince(before, second)
  }

  function NotifierSet(steps: seq<Step>): bool {
    steps != [] &&
    var before, last := steps[..|steps| - 1], steps[|steps| - 1];
    if last.SetNotifier? then last.present else NotifierSet(before)
  }

  ghost predicate ToldBy(s: State, steps: seq<Step>) {
    && (forall second: bool :: s.recorded.At(second) == RecordedSince(steps, second) % MODULUS)
    && s.hasNotifier == NotifierSet(steps)
  }

  lemma WrapsAround(n: int, amount: Word)
    ensures Add(n % MODULUS, amount) == (n + amount) % MODULUS
  {
    var q, r := n / MODULUS, n % MODULUS;
    assert n == q * MODULUS + r;
  }

  lemma StepIsTold(s: State, steps: seq<Step>, step: Step)
    requires ToldBy(s, steps) && Enabled(s, step)
    ensures ToldBy(Next(s, step), steps + [step])
  {
    assert (steps + [step])[..|steps + [step]| - 1] == steps;
    if step.FetchAdd? {
      WrapsAround(RecordedSince(steps, step.second), step.amount);
    }
    hide Add;
    var s' := Next(s, step);
    forall second: bool ensures s'.recorded.At(second) == RecordedSince(steps + [step], second) % MODULUS {
      assert s.recorded.At(second) == RecordedSince(steps, second) % MODULUS;
    }
  }

  lemma {:induction false} RunIsToldFrom(done: seq<Step>, s: State, steps: seq<Step>, s': State)
    requires ToldBy(s, done) && Runs(s, steps, s')
    ensures ToldBy(s', done + steps)
    decreases |steps|
  {
    if steps == [] {
      assert done + steps == done;
    } else {
      StepIsTold(s, done, steps[0]);
      assert done + [steps[0]] + steps[1..] == done + steps;
      hide ToldBy, Next, Enabled;
      RunIsToldFrom(done + [steps[0]], Next(s, steps[0]), steps[1..], s');
    }
  }

  /** What was extracted and what is still counted is what the recorders recorded, up to wrap-around. */
  lemma NothingIsLost(steps: seq<Step>, s: State, second: bool)
    requires Runs(START, steps, s)
    ensures Add(s.extracted.At(second), s.amounts.At(second)) == RecordedSince(steps, second) % MODULUS
    ensures s.hasNotifier == NotifierSet(steps)
  {
    RunsKeepInv(START, steps, s);
    RunIsToldFrom([], START, steps, s);
    assert [] + steps == steps;
    hide Add, RecordedSince;
  }

  /** The notifier is called exactly when a consumer that waits stops waiting. */
  lemma NotifiedWhenWoken(s: State, step: Step)
    requires Enabled(s, step)
    ensures Next(s, step).notified == s.notified + if s.waiting && !Next(s, step).waiting && s.hasNotifier then 1 else 0
  {
    hide Add;
  }

  /** The first amount after the consumer found nothing, or set a notifier, wakes it once; another amount does not. */
  lemma NoticedOnce(s: State, second: bool, a: Word, other: bool, b: Word)
    requires s.lock.Free? && s.amounts == ZERO && s.hasNotifier && a != 0
    ensures
      var s1 := Next(Next(s, ExtractFirst(second)), ExtractOther);
      var s2 := Next(Next(s1, FetchAdd(other, a)), TakeLock);
      var s3 := Next(s2, FetchAdd(other, b));
      && s1.waiting && s1.lock.Free?
      && !s2.waiting && s2.notified == s.notified + 1 && s2.saw == s.saw
      && s3.saw == s.saw && s3.notified == s2.notified
    ensures
      var s1 := Next(Next(s, SetNotifier(true)), ClearOther);
      s1.waiting && s1.hasNotifier && s1.amounts == ZERO && s1.lock.Free?
  {
    hide Add;
    AddAssociates(a, 0, 0);
  }

  /** Nobody is kept from going on: recorders always can, and whoever holds the lock gives it back in the next step. */
  lemma NobodyIsLockedOut(steps: seq<Step>, s: State, second: bool, amount: Word, present: bool)
    requires Runs(START, steps, s)
    ensures Enabled(s, FetchAdd(second, amount))
    ensures s.lock.Free? ==> Enabled(s, ExtractFirst(second)) && Enabled(s, SetNotifier(present)) && (Enabled(s, TakeLock) <==> s.saw > 0)
    ensures s.lock.Taken? ==> Enabled(s, ExtractOther) && Next(s, ExtractOther).lock.Free?
    ensures s.lock.Cleared? ==> Enabled(s, ClearOther) && Next(s, ClearOther).lock.Free?
    ensures s.lock.Free? && s.waiting && s.amounts != ZERO ==> Enabled(s, TakeLock) && !Next(s, TakeLock).waiting
  {
    RunsKeepInv(START, steps, s);
    hide Add;
  }

  /** The logger's fields, changed one atomic step at a time. */
  class Logger {
    var amounts: Pair
    var waiting: bool
    var hasNotifier: bool
    var notified: nat
    ghost var saw: nat
    ghost var lock: Lock
    ghost var recorded: Pair
    ghost var extracted: Pair

    ghost function Value(): State
      reads this
    {
      State(amounts, waiting, hasNotifier, saw, notified, lock, recorded, extracted)
    }

    /** `record`, up to the lock. */
    method Record(second: bool, amount: Word) returns (sawZero: bool)
      modifies this
      ensures Value() == Next(old(Value()), FetchAdd(second, amount)) && (sawZero <==> saw > old(saw))
    {
      var before := amounts.At(second);
      amounts := amounts.With(second, Add(before, amount));
      recorded := recorded.With(second, Add(recorded.At(second), amount));
      sawZero := before == 0;
      if sawZero {
        saw := saw + 1;
      }
    }

    /** `record`, under the lock. */
    method Wake()
      requires Enabled(Value(), TakeLock)
      modifies this
      ensures Value() == Next(old(Value()), TakeLock)
    {
      saw := saw - 1;
      if waiting {
        waiting := false;
        if hasNotifier {
          notified := notified + 1;
        }
      }
    }

    /** The first exchange of `extract_amounts`. */
    method TakeFirst(second: bool) returns (amount: Word)
      requires Enabled(Value(), ExtractFirst(second))
      modifies this
      ensures Value() == Next(old(Value()), ExtractFirst(second)) && amount == old(amounts).At(second)
    {
      amount := amounts.At(second);
      amounts := amounts.With(second, 0);
      extracted, lock := extracted.With(second, Add(extracted.At(second), amount)), Taken(second, amount);
    }

    /** The second exchange, and the decision to wait. */
    method TakeOther(second: bool, first: Word) returns (amount: Word)
      requires lock == Taken(second, first)
      modifies this
      ensures Value() == Next(old(Value()), ExtractOther) && amount == old(amounts).At(!second)
    {
      amount := amounts.At(!second);
      amounts := amounts.With(!second, 0);
      extracted, lock := extracted.With(!second, Add(extracted.At(!second), amount)), Free;
      if first == 0 && amount == 0 {
        waiting := true;
      }
    }

    /** `set_notifier`, with the store to the first counter if there is a notifier. */
    method SetNotifierTo(present: bool)
      requires Enabled(Value(), SetNotifier(present))
      modifies this
      ensures Value() == Next(old(Value()), SetNotifier(present))
    {
      hasNotifier := present;
      if present {
        amounts := amounts.With(false, 0);
        recorded, extracted, lock := recorded.With(false, 0), extracted.With(false, 0), Cleared;
      }
    }

    /** The store to the second counter, before the lock is given back. */
    method ClearSecond()
      requires Enabled(Value(), ClearOther)
      modifies this
      ensures Value() == Next(old(Value()), ClearOther)
    {
      amounts := amounts.With(true, 0);
      waiting := true;
      recorded, extracted, lock := recorded.With(true, 0), extracted.With(true, 0), Free;
    }
  }
}
