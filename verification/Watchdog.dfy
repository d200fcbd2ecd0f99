/** The engine watchdog (app/stockfish.py): the caller of evaluate_fen and the daemon
    thread running _evaluate_engine share `holder` and `output`; the caller joins with a
    deadline and, if the thread is still alive, closes the engine and gives up.
    The machine starts once the deadline is stored and the thread started. */
module Watchdog {
  import opened Schema

  const MIN_WAIT: Time := 10_000      // 0.01 s
  const GRACE: Time := 250_000        // 0.25 s

  datatype Score = Centipawns(cp: int) | MateIn(whiteWins: bool, moves: nat)

  datatype Error = EngineTimeout | EngineCrashed | MissingScore | InvalidEngineConfig

  datatype Outcome = Value(score: Score) | Raised(error: Error)

  // What can go wrong in the thread: an EngineError, a TimeoutError, any other Exception,
  // or a BaseException, which no handler catches.
  datatype Exn = Engine(error: Error) | TimedOut | OtherException | BaseException

  // The attempt thread, by what it does next.
  datatype ThreadPc = Opening | Storing | Configuring | CheckingDeadline | Searching | Closing | Ending | Ended

  datatype MainPc =
    | Starting
    | Joining(until: Time)
    | Checking
    | AwaitingQuit(until: Time)
    | NextProcess(left: nat)
    | AwaitingProcess(left: nat, until: Time)
    | Done(outcome: Outcome)

  datatype State = State(
    clock: Time,
    since: Time,               // when the caller reached its current point
    main: MainPc,
    thread: ThreadPc,
    engineOpened: bool,
    holderEngine: bool,
    closedByThread: bool,
    closedByMain: bool,
    value: Option<Score>,
    error: Option<Error>,
    escaped: bool)             // a BaseException left the thread

  datatype Step =
    | Tick(delta: nat)
    | OpenEngine | StoreEngine | Configure | CheckDeadline | FindScore(score: Score) | Raise(exn: Exn)
    | CloseInThread | EndThread
    | Join | Wake | CheckAlive
    | QuitDone | QuitTimedOut
    | NoProcess | Terminate | ProcessGone | ProcessTimedOut

  function Max(a: Time, b: Time): Time {
    if a >= b then a else b
  }

  function Start(): State {
    State(0, 0, Starting, Opening, false, false, false, false, None, None, false)
  }

  predicate Active(t: ThreadPc) {
    t.Opening? || t.Storing? || t.Configuring? || t.CheckingDeadline? || t.Searching?
  }

  // The caller leaves each point within `overrun` of the instant it could.
  function Due(s: State, overrun: Time): Time {
    overrun + match s.main
      case Joining(until) => until
      case AwaitingQuit(until) => until
      case AwaitingProcess(_, until) => until
      case _ => s.since
  }

  // Steps of the calling thread.
  predicate CallerStep(step: Step) {
    || step.Join? || step.Wake? || step.CheckAlive? || step.QuitDone? || step.QuitTimedOut?
    || step.NoProcess? || step.Terminate? || step.ProcessGone? || step.ProcessTimedOut?
  }

  predicate ThreadEnabled(s: State, step: Step) {
    match step
    case OpenEngine => s.thread.Opening?
    case StoreEngine => s.thread.Storing?
    case Configure => s.thread.Configuring?
    case CheckDeadline => s.thread.CheckingDeadline?
    case FindScore(_) => s.thread.Searching?
    case Raise(_) => Active(s.thread) && !s.thread.Storing? && !s.thread.CheckingDeadline?
    case CloseInThread => s.thread.Closing?
    case EndThread => s.thread.Ending?
    case _ => false
  }

  predicate CallerEnabled(s: State, step: Step) {
    match step
    case Join => s.main.Starting?
    case Wake => s.main.Joining? && (s.thread.Ended? || s.clock >= s.main.until)
    case CheckAlive => s.main.Checking?
    case QuitDone => s.main.AwaitingQuit?
    case QuitTimedOut => s.main.AwaitingQuit? && s.clock >= s.main.until
    case NoProcess => s.main.NextProcess?
    case Terminate => s.main.NextProcess?
    case ProcessGone => s.main.AwaitingProcess?
    case ProcessTimedOut => s.main.AwaitingProcess? && s.clock >= s.main.until
    case _ => false
  }

  predicate Enabled(hard: Time, overrun: Time, s: State, step: Step) {
    if step.Tick? then s.main.Done? || s.clock + step.delta <= Due(s, overrun)
    else if CallerStep(step) then CallerEnabled(s, step)
    else ThreadEnabled(s, step)
  }

  function Goto(s: State, main: MainPc): State {
    s.(main := main, since := s.clock)
  }

  function Caught(s: State, exn: Exn): State {
    var closing := s.(thread := Closing);
    match exn
    case Engine(error) => closing.(error := Some(error))
    case TimedOut => closing.(error := Some(EngineTimeout))
    case OtherException => closing.(error := Some(EngineCrashed))
    case BaseException => closing.(escaped := true)
  }

  function Published(s: State): Outcome {
    if s.error.Some? then Raised(s.error.value)
    else if s.value.Some? then Value(s.value.value)
    else Raised(MissingScore)
  }

  // Transports still to look at once the caller is done with the current one.
  function TransportsAfter(main: MainPc): nat {
    match main
    case NextProcess(left) => if left > 0 then left - 1 else 0
    case AwaitingProcess(left, _) => left
    case _ => 0
  }

  function ThreadDo(hard: Time, s: State, step: Step): State {
    match step
    case OpenEngine => s.(thread := Storing, engineOpened := true)
    case StoreEngine => s.(thread := Configuring, holderEngine := true)
    case Configure => s.(thread := CheckingDeadline)
    case CheckDeadline => if hard - s.clock <= 0 then Caught(s, Engine(EngineTimeout)) else s.(thread := Searching)
    case FindScore(score) => s.(thread := Closing, value := Some(score))
    case Raise(exn) => Caught(s, exn)
    case CloseInThread => s.(thread := Ending, closedByThread := s.engineOpened)
    case _ => s.(thread := Ended)
  }

  function CallerDo(hard: Time, s: State, step: Step): State {
    match step
    case Join => Goto(s, Joining(s.clock + Max(MIN_WAIT, hard - s.clock)))
    case Wake => Goto(s, Checking)
    case CheckAlive =>
      if s.thread.Ended? then Goto(s, Done(Published(s)))
      else if !s.holderEngine then Goto(s, Done(Raised(EngineTimeout)))
      else Goto(s.(closedByMain := true), AwaitingQuit(s.clock + GRACE))
    case QuitDone => Goto(s, Done(Raised(EngineTimeout)))
    case QuitTimedOut => Goto(s, NextProcess(2))
    case Terminate => Goto(s, AwaitingProcess(TransportsAfter(s.main), s.clock + GRACE))
    case _ =>
      if TransportsAfter(s.main) > 0 then Goto(s, NextProcess(TransportsAfter(s.main)))
      else Goto(s, Done(Raised(EngineTimeout)))
  }

  function Do(hard: Time, s: State, step: Step): State {
    if step.Tick? then s.(clock := s.clock + step.delta)
    else if CallerStep(step) then CallerDo(hard, s, step)
    else ThreadDo(hard, s, step)
  }

  ghost predicate StepAt(hard: Time, overrun: Time, ss: seq<State>, steps: seq<Step>, k: nat)
    requires |ss| == |steps| + 1 && k < |steps|
  {
    Enabled(hard, overrun, ss[k], steps[k]) && ss[k + 1] == Do(hard, ss[k], steps[k])
  }

  ghost predicate IsRun(hard: Time, overrun: Time, ss: seq<State>, steps: seq<Step>) {
    && |ss| == |steps| + 1
    && ss[0] == Start()
    && forall k: nat | k < |steps| :: StepAt(hard, overrun, ss, steps, k)
  }

  // ---------- What the threads leave in the shared dictionaries ----------

  predicate OutputInv(s: State) {
    && (Active(s.thread) ==> s.value.None? && s.error.None? && !s.escaped && !s.closedByThread)
    && (!Active(s.thread) ==>
          && !(s.value.Some? && s.error.Some?)
          && ((s.value.None? && s.error.None?) <==> s.escaped))
    && (s.holderEngine ==> s.engineOpened)
    && (s.thread.Opening? ==> !s.engineOpened)
    && (s.thread.Configuring? || s.thread.CheckingDeadline? || s.thread.Searching? ==> s.holderEngine)
    && (s.thread.Storing? ==> s.engineOpened && !s.holderEngine)
    && (s.engineOpened && !s.thread.Storing? ==> s.holderEngine)
    && (s.thread.Ending? || s.thread.Ended? ==> (s.closedByThread <==> s.engineOpened))
    && (s.value.Some? ==> s.engineOpened)
    && (s.closedByMain ==> s.holderEngine)
  }

  lemma OutputStep(hard: Time, overrun: Time, s: State, step: Step)
    requires OutputInv(s) && Enabled(hard, overrun, s, step)
    ensures OutputInv(Do(hard, s, step))
  {
  }

  lemma {:induction false} OutputHolds(hard: Time, overrun: Time, ss: seq<State>, steps: seq<Step>, k: nat)
    requires IsRun(hard, overrun, ss, steps) && k < |ss|
    ensures OutputInv(ss[k])
  {
    if k > 0 {
      OutputHolds(hard, overrun, ss, steps, k - 1);
      assert StepAt(hard, overrun, ss, steps, k - 1);
      OutputStep(hard, overrun, ss[k - 1], steps[k - 1]);
    }
  }

  /** Once the attempt thread has ended, `output` holds exactly one of value and error,
      unless a BaseException escaped it, in which case it holds neither; that is what the
      caller is given; and every engine it opened has been passed to _close_engine. */
  lemma ThreadLeavesOneAnswer(hard: Time, overrun: Time, ss: seq<State>, steps: seq<Step>, k: nat)
    requires IsRun(hard, overrun, ss, steps) && k < |ss| && ss[k].thread.Ended?
    ensures ss[k].escaped ==> ss[k].value.None? && ss[k].error.None?
    ensures !ss[k].escaped ==> (ss[k].value.Some? <==> ss[k].error.None?)
    ensures match Published(ss[k])
            case Value(score) => ss[k].value == Some(score)
            case Raised(error) => ss[k].error == Some(error) || (ss[k].escaped && error == MissingScore)
    ensures ss[k].engineOpened ==> ss[k].closedByThread
  {
    OutputHolds(hard, overrun, ss, steps, k);
  }

  // What a step of the thread settles for the attempt, if anything: the score it found, the
  // deadline it found passed, or the exception it raised.
  function Verdict(hard: Time, clock: Time, step: Step): Option<Outcome> {
    match step
    case FindScore(score) => Some(Value(score))
    case CheckDeadline => if clock >= hard then Some(Raised(EngineTimeout)) else None
    case Raise(Engine(error)) => Some(Raised(error))
    case Raise(TimedOut) => Some(Raised(EngineTimeout))
    case Raise(OtherException) => Some(Raised(EngineCrashed))
    case Raise(BaseException) => Some(Raised(MissingScore))
    case _ => None
  }

  lemma VerdictStep(hard: Time, overrun: Time, s: State, step: Step)
    requires OutputInv(s) && Enabled(hard, overrun, s, step)
    ensures var next, verdict := Do(hard, s, step), Verdict(hard, s.clock, step);
            if Active(s.thread) && verdict.Some? then !Active(next.thread) && Published(next) == verdict.value
            else verdict.None? && (Active(s.thread) <==> Active(next.thread)) && Published(next) == Published(s)
  {
    hide Due, CallerDo, CallerEnabled;
    if CallerStep(step) {
      CallerKeepsThread(hard, s, step);
    }
  }

  lemma RaisesInTheEngine(hard: Time, overrun: Time, s: State, step: Step)
    requires Enabled(hard, overrun, s, step)
    ensures step.Raise? ==> s.thread.Opening? || s.thread.Configuring? || s.thread.Searching?
  {
  }

  lemma CallerKeepsThread(hard: Time, s: State, step: Step)
    requires CallerStep(step) && CallerEnabled(s, step)
    ensures var next := CallerDo(hard, s, step);
            next.thread == s.thread && next.value == s.value && next.error == s.error
  {
    match step
    case CheckAlive => {}
    case QuitTimedOut => {}
    case Terminate => {}
    case _ => {}
  }

  ghost predicate DecidedAt(hard: Time, ss: seq<State>, steps: seq<Step>, i: nat, k: nat, outcome: Outcome)
    requires |ss| == |steps| + 1 && k < |ss|
  {
    && i < k && Verdict(hard, ss[i].clock, steps[i]) == Some(outcome)
    && (steps[i].Raise? ==> ss[i].thread.Opening? || ss[i].thread.Configuring? || ss[i].thread.Searching?)
    && forall j: nat | j < k && j != i :: Verdict(hard, ss[j].clock, steps[j]) == None
  }

  /** While the thread is at work nothing is decided; once it is past its work exactly one of
      its steps has decided, and that verdict is what it leaves for the caller. */
  lemma {:induction false} ThreadDecidesOnce(hard: Time, overrun: Time, ss: seq<State>, steps: seq<Step>, k: nat)
    requires IsRun(hard, overrun, ss, steps) && k < |ss|
    ensures Active(ss[k].thread) ==> forall j: nat | j < k :: Verdict(hard, ss[j].clock, steps[j]) == None
    ensures !Active(ss[k].thread) ==> exists i: nat :: DecidedAt(hard, ss, steps, i, k, Published(ss[k]))
  {
    hide Enabled, Do, Verdict, Published, OutputInv;
    if k > 0 {
      ThreadDecidesOnce(hard, overrun, ss, steps, k - 1);
      OutputHolds(hard, overrun, ss, steps, k - 1);
      assert StepAt(hard, overrun, ss, steps, k - 1);
      VerdictStep(hard, overrun, ss[k - 1], steps[k - 1]);
      RaisesInTheEngine(hard, overrun, ss[k - 1], steps[k - 1]);
      if !Active(ss[k - 1].thread) {
        var i: nat :| DecidedAt(hard, ss, steps, i, k - 1, Published(ss[k - 1]));
        assert DecidedAt(hard, ss, steps, i, k, Published(ss[k]));
      } else if !Active(ss[k].thread) {
        assert DecidedAt(hard, ss, steps, k - 1, k, Published(ss[k]));
      }
    }
  }

  /** Every answer has a cause, and a decided thread's verdict is the answer: whatever the
      caller ends with is EngineTimeout because the thread was alive when it looked, or the
      verdict of the one step at which the ended thread decided. */
  lemma OutcomeIsTheVerdict(hard: Time, overrun: Time, ss: seq<State>, steps: seq<Step>, k: nat, n: nat)
    requires IsRun(hard, overrun, ss, steps) && k < |steps| && k < n < |ss| && steps[k].CheckAlive? && ss[n].main.Done?
    ensures if ss[k].thread.Ended? then exists i: nat :: DecidedAt(hard, ss, steps, i, k, ss[n].main.outcome)
            else ss[n].main.outcome == Raised(EngineTimeout)
  {
    hide Enabled, Do, Verdict, Published;
    AnswerIsSettled(hard, overrun, ss, steps, k, n);
    ThreadDecidesOnce(hard, overrun, ss, steps, k);
  }

  predicate PastCheck(main: MainPc) {
    !main.Starting? && !main.Joining? && !main.Checking?
  }

  // Once the caller has looked at the thread, only the engine is left to wait for.
  lemma PastCheckStep(hard: Time, overrun: Time, s: State, step: Step)
    requires Enabled(hard, overrun, s, step)
    ensures var next := Do(hard, s, step);
            && (step.CheckAlive? ==> PastCheck(next.main))
            && (step.CheckAlive? && s.thread.Ended? ==> next.main == Done(Published(s)))
            && (step.CheckAlive? && !s.thread.Ended? ==>
                  && (next.main.Done? ==> next.main.outcome == Raised(EngineTimeout))
                  && (s.holderEngine ==> next.closedByMain))
            && (PastCheck(s.main) ==>
                  && PastCheck(next.main) && (s.main.Done? ==> next.main == s.main)
                  && (next.main.Done? && !s.main.Done? ==> next.main.outcome == Raised(EngineTimeout))
                  && (s.closedByMain ==> next.closedByMain))
            && (s.thread.Ended? ==> next.thread.Ended? && Published(next) == Published(s))
  {
    hide Due, ThreadDo, ThreadEnabled;
    if !step.Tick? && !CallerStep(step) {
      ThreadKeepsCaller(hard, s, step);
    }
  }

  /** The answer is settled when the caller looks at the thread: dead means what the thread
      published; alive means EngineTimeout, with any engine already in the holder passed to
      _close_engine, whatever the thread writes afterwards. */
  lemma {:induction false} AnswerIsSettled(hard: Time, overrun: Time, ss: seq<State>, steps: seq<Step>, k: nat, n: nat)
    requires IsRun(hard, overrun, ss, steps) && k < |steps| && k < n < |ss| && steps[k].CheckAlive?
    ensures ss[k].thread.Ended? ==>
              ss[n].thread.Ended? && ss[n].main == Done(Published(ss[k])) && Published(ss[n]) == Published(ss[k])
    ensures !ss[k].thread.Ended? ==>
              && (ss[n].main.Done? ==> ss[n].main.outcome == Raised(EngineTimeout)) && PastCheck(ss[n].main)
              && (ss[k].holderEngine ==> ss[n].closedByMain)
  {
    hide Enabled, Do, Published;
    assert StepAt(hard, overrun, ss, steps, n - 1);
    PastCheckStep(hard, overrun, ss[n - 1], steps[n - 1]);
    if k + 1 < n {
      AnswerIsSettled(hard, overrun, ss, steps, k, n - 1);
    }
  }

  /** A score is never invented: the caller returns one only if the engine reported it. */
  lemma ScoresComeFromTheEngine(hard: Time, overrun: Time, ss: seq<State>, steps: seq<Step>, k: nat, score: Score)
    requires IsRun(hard, overrun, ss, steps) && k < |ss| && ss[k].main == Done(Value(score))
    ensures exists j: nat :: j < k && steps[j] == FindScore(score)
  {
    ReturnedWasPublished(hard, overrun, ss, steps, k, score);
    PublishedWasFound(hard, overrun, ss, steps, k, score);
  }

  lemma ThreadKeepsCaller(hard: Time, s: State, step: Step)
    requires ThreadEnabled(s, step) && !CallerStep(step)
    ensures var next := ThreadDo(hard, s, step);
            && next.main == s.main && next.since == s.since && next.clock == s.clock && !s.thread.Ended?
            && (next.value == s.value || (step.FindScore? && next.value == Some(step.score)))
            && next.closedByMain == s.closedByMain
  {
    match step
    case CheckDeadline => {}
    case Raise(_) => {}
    case FindScore(_) => {}
    case _ => {}
  }

  // Where a score can come from in one step.
  lemma ScoreStep(hard: Time, overrun: Time, s: State, step: Step, score: Score)
    requires Enabled(hard, overrun, s, step)
    ensures var next := Do(hard, s, step);
            && (next.value == Some(score) && s.value != Some(score) ==> step == FindScore(score))
            && (next.main == Done(Value(score)) && !s.main.Done? ==> next.thread.Ended? && next.value == Some(score))
            && (s.main.Done? ==> next.main == s.main)
            && (s.thread.Ended? ==> next.thread.Ended? && next.value == s.value)
  {
    hide Due, ThreadDo, ThreadEnabled;
    if !step.Tick? && !CallerStep(step) {
      ThreadKeepsCaller(hard, s, step);
    }
  }

  lemma {:induction false} ReturnedWasPublished(hard: Time, overrun: Time, ss: seq<State>, steps: seq<Step>, k: nat,
                                                score: Score)
    requires IsRun(hard, overrun, ss, steps) && k < |ss| && ss[k].main == Done(Value(score))
    ensures ss[k].thread.Ended? && ss[k].value == Some(score)
  {
    hide Enabled, Do;
    assert k > 0;
    assert StepAt(hard, overrun, ss, steps, k - 1);
    ScoreStep(hard, overrun, ss[k - 1], steps[k - 1], score);
    if ss[k - 1].main.Done? {
      ReturnedWasPublished(hard, overrun, ss, steps, k - 1, score);
    }
  }

  lemma {:induction false} PublishedWasFound(hard: Time, overrun: Time, ss: seq<State>, steps: seq<Step>, k: nat,
                                             score: Score)
    requires IsRun(hard, overrun, ss, steps) && k < |ss| && ss[k].value == Some(score)
    ensures exists j: nat :: j < k && steps[j] == FindScore(score)
  {
    hide Enabled, Do;
    assert k > 0;
    assert StepAt(hard, overrun, ss, steps, k - 1);
    ScoreStep(hard, overrun, ss[k - 1], steps[k - 1], score);
    if ss[k - 1].value == Some(score) {
      PublishedWasFound(hard, overrun, ss, steps, k - 1, score);
    }
  }

  // ---------- The time bound ----------

  // The latest the caller can return: a late join, then the quit grace and two process
  // graces, each point left at most `overrun` late.
  function WorstElapsed(hard: Time, overrun: Time): Time {
    Max(hard, 10_000 + overrun) + 7 * overrun + 750_000
  }

  // The latest instant the caller can reach this point.
  function LatestEntry(hard: Time, overrun: Time, main: MainPc): Time {
    var joined := Max(hard, MIN_WAIT + overrun) + overrun;
    match main
    case Starting => 0
    case Joining(_) => overrun
    case Checking => joined
    case AwaitingQuit(_) => joined + overrun
    case NextProcess(left) => if left >= 2 then joined + 2 * overrun + GRACE else joined + 4 * overrun + 2 * GRACE
    case AwaitingProcess(left, _) =>
      if left >= 1 then joined + 3 * overrun + GRACE else joined + 5 * overrun + 2 * GRACE
    case Done(_) => joined + 6 * overrun + 3 * GRACE
  }

  predicate TimeInvOf(hard: Time, overrun: Time, main: MainPc, since: Time, clock: Time) {
    && since <= clock
    && since <= LatestEntry(hard, overrun, main)
    && match main
       case Joining(until) => until <= Max(hard, MIN_WAIT + overrun) && clock <= until + overrun
       case AwaitingQuit(until) => until == since + GRACE && clock <= until + overrun
       case AwaitingProcess(left, until) => left <= 1 && until == since + GRACE && clock <= until + overrun
       case NextProcess(left) => 1 <= left <= 2 && clock <= since + overrun
       case Done(_) => true
       case _ => clock <= since + overrun
  }

  // Where the caller can go from a point, at a given instant.
  predicate Follows(hard: Time, main: MainPc, next: MainPc, clock: Time) {
    match main
    case Starting => next == Joining(clock + Max(MIN_WAIT, hard - clock))
    case Joining(_) => next == Checking
    case Checking => next.Done? || next == AwaitingQuit(clock + GRACE)
    case AwaitingQuit(_) => next.Done? || next == NextProcess(2)
    case NextProcess(left) =>
      || next.Done?
      || (left > 0 && next == AwaitingProcess(left - 1, clock + GRACE))
      || (left > 1 && next == NextProcess(left - 1))
    case AwaitingProcess(left, _) => next.Done? || (left > 0 && next == NextProcess(left))
    case Done(_) => false
  }

  lemma FollowsInTime(hard: Time, overrun: Time, main: MainPc, since: Time, clock: Time, next: MainPc)
    requires overrun >= 0 && TimeInvOf(hard, overrun, main, since, clock) && Follows(hard, main, next, clock)
    ensures TimeInvOf(hard, overrun, next, clock, clock)
  {
  }

  lemma CallerFollows(hard: Time, overrun: Time, s: State, step: Step)
    requires Enabled(hard, overrun, s, step) && CallerStep(step) && (s.main.NextProcess? ==> s.main.left > 0)
    ensures var next := Do(hard, s, step);
            Follows(hard, s.main, next.main, s.clock) && next.since == next.clock == s.clock
  {
    hide ThreadDo, ThreadEnabled, Published, Due;
    match step
    case Join => {}
    case Wake => {}
    case CheckAlive => {}
    case QuitDone => {}
    case QuitTimedOut => {}
    case Terminate => {}
    case _ => {}
  }

  predicate TimeInv(hard: Time, overrun: Time, s: State) {
    TimeInvOf(hard, overrun, s.main, s.since, s.clock)
  }

  lemma TimeStep(hard: Time, overrun: Time, s: State, step: Step)
    requires overrun >= 0 && TimeInv(hard, overrun, s) && Enabled(hard, overrun, s, step)
    ensures TimeInv(hard, overrun, Do(hard, s, step))
  {
    hide LatestEntry, CallerDo, ThreadDo, CallerEnabled, ThreadEnabled;
    if CallerStep(step) {
      CallerFollows(hard, overrun, s, step);
      FollowsInTime(hard, overrun, s.main, s.since, s.clock, Do(hard, s, step).main);
    } else if !step.Tick? {
      ThreadKeepsCaller(hard, s, step);
    }
  }

  /** The caller is back by WorstElapsed after it stored the deadline. */
  lemma {:induction false} ReturnsInTime(hard: Time, overrun: Time, ss: seq<State>, steps: seq<Step>, k: nat)
    requires overrun >= 0 && IsRun(hard, overrun, ss, steps) && k < |ss|
    ensures TimeInv(hard, overrun, ss[k])
    ensures ss[k].main.Done? ==> ss[k].since <= WorstElapsed(hard, overrun)
    ensures ss[k].clock > WorstElapsed(hard, overrun) ==> ss[k].main.Done?
  {
    if k > 0 {
      ReturnsInTime(hard, overrun, ss, steps, k - 1);
      assert StepAt(hard, overrun, ss, steps, k - 1);
      TimeStep(hard, overrun, ss[k - 1], steps[k - 1]);
    }
  }

  predicate PatienceInv(hard: Time, s: State) {
    match s.main
    case Joining(until) => until >= hard && until - s.since >= 10_000
    case Checking => s.thread.Ended? || s.clock >= hard
    case AwaitingQuit(until) => until == s.since + 250_000
    case AwaitingProcess(_, until) => until == s.since + 250_000
    case _ => true
  }

  lemma PatienceStep(hard: Time, overrun: Time, s: State, step: Step)
    requires PatienceInv(hard, s) && Enabled(hard, overrun, s, step)
    ensures PatienceInv(hard, Do(hard, s, step))
    ensures (step.QuitTimedOut? || step.ProcessTimedOut?) ==> s.clock - s.since >= 250_000
  {
    hide Due, ThreadDo, ThreadEnabled, Published;
    if !step.Tick? && !CallerStep(step) {
      ThreadKeepsCaller(hard, s, step);
    }
  }

  /** Never sooner than promised: the caller gives up on a living thread only when the hard
      timeout has passed, and on the engine or a process only after the whole grace. */
  lemma {:induction false} NeverGivesUpEarly(hard: Time, overrun: Time, ss: seq<State>, steps: seq<Step>, k: nat)
    requires IsRun(hard, overrun, ss, steps) && k < |ss|
    ensures PatienceInv(hard, ss[k])
    ensures k < |steps| && steps[k].CheckAlive? && !ss[k].thread.Ended? ==> ss[k].clock >= hard
    ensures k < |steps| && (steps[k].QuitTimedOut? || steps[k].ProcessTimedOut?) ==>
              ss[k].clock - ss[k].since >= 250_000
  {
    hide Do, PatienceInv, Enabled;
    if k > 0 {
      NeverGivesUpEarly(hard, overrun, ss, steps, k - 1);
      assert StepAt(hard, overrun, ss, steps, k - 1);
      PatienceStep(hard, overrun, ss[k - 1], steps[k - 1]);
    } else {
      StartIsPatient(hard);
    }
    if k < |steps| {
      assert StepAt(hard, overrun, ss, steps, k);
      PatienceStep(hard, overrun, ss[k], steps[k]);
      PatientCheck(hard, overrun, ss[k], steps[k]);
    }
  }

  lemma StartIsPatient(hard: Time)
    ensures PatienceInv(hard, Start())
  {
  }

  lemma PatientCheck(hard: Time, overrun: Time, s: State, step: Step)
    requires PatienceInv(hard, s) && Enabled(hard, overrun, s, step)
    ensures step.CheckAlive? && !s.thread.Ended? ==> s.clock >= hard
  {
  }

  /** Sooner if less goes wrong: without waiting for the engine when the thread has ended,
      and after one grace when the engine quits in time. */
  lemma {:induction false} ReturnsSooner(hard: Time, overrun: Time, ss: seq<State>, steps: seq<Step>, k: nat)
    requires overrun >= 0 && IsRun(hard, overrun, ss, steps) && k < |ss|
    requires forall j: nat | j < k :: !steps[j].QuitTimedOut?
    ensures !ss[k].main.NextProcess? && !ss[k].main.AwaitingProcess?
    ensures ss[k].main.AwaitingQuit? ==> ss[k].closedByMain
    ensures ss[k].main.Done? && !ss[k].closedByMain ==> ss[k].since <= Max(hard, 10_000 + overrun) + 2 * overrun
    ensures ss[k].main.Done? ==> ss[k].since <= Max(hard, 10_000 + overrun) + 3 * overrun + 250_000
  {
    hide Enabled, Do;
    if k > 0 {
      ReturnsSooner(hard, overrun, ss, steps, k - 1);
      ReturnsInTime(hard, overrun, ss, steps, k - 1);
      assert StepAt(hard, overrun, ss, steps, k - 1);
      SoonerStep(hard, overrun, ss[k - 1], steps[k - 1]);
    }
  }

  lemma SoonerStep(hard: Time, overrun: Time, s: State, step: Step)
    requires overrun >= 0 && TimeInv(hard, overrun, s) && Enabled(hard, overrun, s, step)
    requires !s.main.NextProcess? && !s.main.AwaitingProcess? && !step.QuitTimedOut?
    requires s.main.AwaitingQuit? ==> s.closedByMain
    ensures var next := Do(hard, s, step);
            && !next.main.NextProcess? && !next.main.AwaitingProcess?
            && (s.closedByMain ==> next.closedByMain) && (next.main.AwaitingQuit? ==> next.closedByMain)
            && (s.main.Done? ==> next.main.Done? && next.since == s.since && next.closedByMain == s.closedByMain)
            && (!s.main.Done? && next.main.Done? ==>
                  next.since <= Max(hard, 10_000 + overrun)
                                + if next.closedByMain then 3 * overrun + 250_000 else 2 * overrun)
  {
    hide ThreadDo, ThreadEnabled, Published;
    if !step.Tick? && !CallerStep(step) {
      ThreadKeepsCaller(hard, s, step);
    }
  }

  /** An engine that ignores quit is not let off: both transports are looked at before the
      caller returns. */
  lemma {:induction false} BothTransportsAreTried(hard: Time, overrun: Time, ss: seq<State>, steps: seq<Step>,
                                                  i: nat, n: nat)
    requires IsRun(hard, overrun, ss, steps) && i < |steps| && i < n < |ss| && steps[i].QuitTimedOut?
    ensures match ss[n].main
            case NextProcess(left) => left == 2 || (left == 1 && Tried(ss, i, n, 2))
            case AwaitingProcess(left, _) => (left == 1 && Tried(ss, i, n, 2)) || (left == 0 && TriedBoth(ss, i, n))
            case Done(_) => TriedBoth(ss, i, n)
            case _ => false
  {
    hide Enabled, Do;
    assert StepAt(hard, overrun, ss, steps, n - 1);
    TransportStep(hard, overrun, ss[n - 1], steps[n - 1]);
    if i + 1 < n {
      BothTransportsAreTried(hard, overrun, ss, steps, i, n - 1);
      if ss[n - 1].main == NextProcess(2) {
        assert Tried(ss, i, n, 2);
      }
      if Tried(ss, i, n - 1, 2) {
        var a: nat :| i < a < n - 1 && ss[a].main == NextProcess(2);
        assert Tried(ss, i, n, 2);
        if ss[n - 1].main == NextProcess(1) {
          assert ss[a].main == NextProcess(2) && ss[n - 1].main == NextProcess(1);
          assert TriedBoth(ss, i, n);
        }
      }
      if TriedBoth(ss, i, n - 1) {
        var a: nat, b: nat :| i < a < b < n - 1 && ss[a].main == NextProcess(2) && ss[b].main == NextProcess(1);
        assert TriedBoth(ss, i, n);
      }
    }
  }

  ghost predicate Tried(ss: seq<State>, i: nat, n: nat, left: nat) {
    exists a: nat :: i < a < n < |ss| && ss[a].main == NextProcess(left)
  }

  ghost predicate TriedBoth(ss: seq<State>, i: nat, n: nat) {
    exists a: nat, b: nat :: i < a < b < n < |ss| && ss[a].main == NextProcess(2) && ss[b].main == NextProcess(1)
  }

  lemma TransportStep(hard: Time, overrun: Time, s: State, step: Step)
    requires Enabled(hard, overrun, s, step)
    ensures var next := Do(hard, s, step);
            && (step.QuitTimedOut? ==> next.main == NextProcess(2))
            && (s.main == NextProcess(2) ==>
                  || next.main == s.main || next.main == NextProcess(1)
                  || (next.main.AwaitingProcess? && next.main.left == 1))
            && (s.main == NextProcess(1) ==>
                  next.main == s.main || next.main.Done? || (next.main.AwaitingProcess? && next.main.left == 0))
            && (s.main.AwaitingProcess? && s.main.left == 1 ==> next.main == s.main || next.main == NextProcess(1))
            && (s.main.AwaitingProcess? && s.main.left == 0 ==> next.main == s.main || next.main.Done?)
            && (s.main.Done? ==> next.main == s.main)
  {
    hide ThreadDo, ThreadEnabled, Published, Due;
    if !step.Tick? && !CallerStep(step) {
      ThreadKeepsCaller(hard, s, step);
    }
  }

  // ---------- Runs that happen ----------

  lemma Extend(hard: Time, overrun: Time, ss: seq<State>, steps: seq<Step>, step: Step)
    returns (more: seq<State>, moreSteps: seq<Step>)
    requires IsRun(hard, overrun, ss, steps) && Enabled(hard, overrun, ss[|ss| - 1], step)
    ensures IsRun(hard, overrun, more, moreSteps) && more[|more| - 1] == Do(hard, ss[|ss| - 1], step)
    ensures moreSteps == steps + [step]
  {
    hide Enabled, Do;
    more, moreSteps := ss + [Do(hard, ss[|ss| - 1], step)], steps + [step];
    forall k: nat | k < |moreSteps|
      ensures StepAt(hard, overrun, more, moreSteps, k)
    {
      assert k < |steps| ==> StepAt(hard, overrun, ss, steps, k);
    }
  }

  lemma WaitThen(hard: Time, overrun: Time, ss: seq<State>, steps: seq<Step>, delta: nat, step: Step)
    returns (more: seq<State>, moreSteps: seq<Step>)
    requires IsRun(hard, overrun, ss, steps)
    requires var waited := Do(hard, ss[|ss| - 1], Tick(delta));
             Enabled(hard, overrun, ss[|ss| - 1], Tick(delta)) && Enabled(hard, overrun, waited, step)
    ensures IsRun(hard, overrun, more, moreSteps)
    ensures more[|more| - 1] == Do(hard, Do(hard, ss[|ss| - 1], Tick(delta)), step)
  {
    more, moreSteps := Extend(hard, overrun, ss, steps, Tick(delta));
    more, moreSteps := Extend(hard, overrun, more, moreSteps, step);
  }

  /** The bound is exact: an engine that hangs, ignores quit and survives terminate on both
      transports, with every wait as late as allowed, takes all of it. */
  lemma WorstCaseHappens(hard: Time, overrun: Time) returns (ss: seq<State>, steps: seq<Step>)
    requires overrun >= 0
    ensures IsRun(hard, overrun, ss, steps)
    ensures var last := ss[|ss| - 1];
            last.main == Done(Raised(EngineTimeout)) && last.since == last.clock == WorstElapsed(hard, overrun)
  {
    var joined := Max(hard, MIN_WAIT + overrun) + overrun;
    ss, steps := HangsUntilChecked(hard, overrun);
    ss, steps := WaitThen(hard, overrun, ss, steps, overrun, CheckAlive);
    assert Caller(ss[|ss| - 1], AwaitingQuit(joined + overrun + GRACE), joined + overrun);
    ss, steps := WaitThen(hard, overrun, ss, steps, GRACE + overrun, QuitTimedOut);
    assert Caller(ss[|ss| - 1], NextProcess(2), joined + 2 * overrun + GRACE);
    ss, steps := SurvivesTerminate(hard, overrun, ss, steps, 2, joined + 2 * overrun + GRACE);
    ss, steps := SurvivesTerminate(hard, overrun, ss, steps, 1, joined + 4 * overrun + 2 * GRACE);
  }

  lemma SurvivesTerminate(hard: Time, overrun: Time, ss: seq<State>, steps: seq<Step>, left: nat, at: Time)
    returns (more: seq<State>, moreSteps: seq<Step>)
    requires overrun >= 0 && IsRun(hard, overrun, ss, steps) && left > 0 && Caller(ss[|ss| - 1], NextProcess(left), at)
    ensures IsRun(hard, overrun, more, moreSteps)
    ensures Caller(more[|more| - 1], if left > 1 then NextProcess(left - 1) else Done(Raised(EngineTimeout)),
                   at + 2 * overrun + GRACE)
  {
    more, moreSteps := WaitThen(hard, overrun, ss, steps, overrun, Terminate);
    more, moreSteps := WaitThen(hard, overrun, more, moreSteps, GRACE + overrun, ProcessTimedOut);
  }

  /** The case in which `output` holds nothing: a BaseException leaves the thread, and the
      caller, finding it ended, reports a missing score. */
  lemma EscapedExceptionReadsAsMissingScore(hard: Time, overrun: Time) returns (ss: seq<State>, steps: seq<Step>)
    requires overrun >= 0
    ensures IsRun(hard, overrun, ss, steps) && Raise(BaseException) in steps
    ensures var last := ss[|ss| - 1];
            last.main == Done(Raised(MissingScore)) && last.thread.Ended? && last.value.None? && last.error.None?
  {
    ss, steps := [Start()], [];
    ss, steps := Extend(hard, overrun, ss, steps, OpenEngine);
    ss, steps := Extend(hard, overrun, ss, steps, StoreEngine);
    ss, steps := Extend(hard, overrun, ss, steps, Raise(BaseException));
    ss, steps := Extend(hard, overrun, ss, steps, CloseInThread);
    ss, steps := Extend(hard, overrun, ss, steps, EndThread);
    ss, steps := Extend(hard, overrun, ss, steps, Join);
    ss, steps := Extend(hard, overrun, ss, steps, Wake);
    ss, steps := Extend(hard, overrun, ss, steps, CheckAlive);
  }

  // The thread has got to `stage` at instant `at`, with the caller joining since the start.
  lemma ReachesStage(hard: Time, overrun: Time, stage: ThreadPc, at: Time) returns (ss: seq<State>, steps: seq<Step>)
    requires overrun >= 0 && 0 <= at <= Max(10_000, hard)
    requires stage.Opening? || stage.Configuring? || stage.CheckingDeadline? || (stage.Searching? && at < hard)
    ensures IsRun(hard, overrun, ss, steps)
    ensures var last := ss[|ss| - 1];
            last.clock == at && last.main.Joining? && last.thread == stage && OutputInv(last)
  {
    ss, steps := Extend(hard, overrun, [Start()], [], Join);
    if !stage.Opening? {
      ss, steps := Extend(hard, overrun, ss, steps, OpenEngine);
      ss, steps := Extend(hard, overrun, ss, steps, StoreEngine);
      if !stage.Configuring? {
        ss, steps := Extend(hard, overrun, ss, steps, Configure);
      }
    }
    ss, steps := Extend(hard, overrun, ss, steps, Tick(at));
    if stage.Searching? {
      ss, steps := Extend(hard, overrun, ss, steps, CheckDeadline);
    }
    OutputHolds(hard, overrun, ss, steps, |ss| - 1);
  }

  /** Every verdict can be given and is delivered at once: a score or an exception in the
      search at any instant before the deadline, an exception while the engine is opened or
      configured, or a deadline found passed, whichever instant the caller still waits at. */
  lemma EveryVerdictIsDelivered(hard: Time, overrun: Time, stage: ThreadPc, at: Time, step: Step)
    returns (ss: seq<State>, steps: seq<Step>)
    requires overrun >= 0 && 0 <= at <= Max(10_000, hard)
    requires match step
             case FindScore(_) => stage.Searching? && at < hard
             case CheckDeadline => stage.CheckingDeadline? && at >= hard
             case Raise(_) => stage.Opening? || stage.Configuring? || (stage.Searching? && at < hard)
             case _ => false
    ensures IsRun(hard, overrun, ss, steps) && step in steps && Verdict(hard, at, step).Some?
    ensures Caller(ss[|ss| - 1], Done(Verdict(hard, at, step).value), at)
  {
    ss, steps := ReachesStage(hard, overrun, stage, at);
    VerdictStep(hard, overrun, ss[|ss| - 1], step);
    ss, steps := Extend(hard, overrun, ss, steps, step);
    var upTo := |steps|;
    ss, steps := DeliversVerdict(hard, overrun, ss, steps, Verdict(hard, at, step).value, at);
    assert steps[upTo - 1] == step;
  }

  lemma DeliversVerdict(hard: Time, overrun: Time, ss: seq<State>, steps: seq<Step>, outcome: Outcome, at: Time)
    returns (more: seq<State>, moreSteps: seq<Step>)
    requires IsRun(hard, overrun, ss, steps)
    requires var s := ss[|ss| - 1];
             s.thread.Closing? && s.main.Joining? && s.clock == at && Published(s) == outcome
    ensures IsRun(hard, overrun, more, moreSteps) && steps <= moreSteps
    ensures Caller(more[|more| - 1], Done(outcome), at)
  {
    more, moreSteps := Extend(hard, overrun, ss, steps, CloseInThread);
    more, moreSteps := Extend(hard, overrun, more, moreSteps, EndThread);
    more, moreSteps := Extend(hard, overrun, more, moreSteps, Wake);
    more, moreSteps := Extend(hard, overrun, more, moreSteps, CheckAlive);
  }

  // How a transport is dealt with: it has no process, its process goes when terminated, or
  // it outlives the grace.
  datatype Transport = Absent | Goes | Stays

  function Cost(t: Transport): Time {
    if t.Stays? then 250_000 else 0
  }

  lemma TriesTransport(hard: Time, overrun: Time, ss: seq<State>, steps: seq<Step>, left: nat, at: Time, t: Transport)
    returns (more: seq<State>, moreSteps: seq<Step>)
    requires overrun >= 0 && IsRun(hard, overrun, ss, steps) && left > 0 && Caller(ss[|ss| - 1], NextProcess(left), at)
    ensures IsRun(hard, overrun, more, moreSteps)
    ensures Caller(more[|more| - 1], if left > 1 then NextProcess(left - 1) else Done(Raised(EngineTimeout)),
                   at + Cost(t))
  {
    if t.Absent? {
      more, moreSteps := Extend(hard, overrun, ss, steps, NoProcess);
    } else {
      more, moreSteps := Extend(hard, overrun, ss, steps, Terminate);
      if t.Goes? {
        more, moreSteps := Extend(hard, overrun, more, moreSteps, ProcessGone);
      } else {
        more, moreSteps := WaitThen(hard, overrun, more, moreSteps, GRACE, ProcessTimedOut);
      }
    }
  }

  /** Closing takes exactly what it has to wait for: nothing if the engine quits, otherwise
      one grace and one more for each transport whose process stays. */
  lemma EveryClosingHappens(hard: Time, quits: bool, first: Transport, second: Transport)
    returns (ss: seq<State>, steps: seq<Step>)
    ensures IsRun(hard, 0, ss, steps)
    ensures Caller(ss[|ss| - 1], Done(Raised(EngineTimeout)),
                   Max(hard, 10_000) + if quits then 0 else 250_000 + Cost(first) + Cost(second))
  {
    ss, steps := HangsUntilChecked(hard, 0);
    ss, steps := Extend(hard, 0, ss, steps, CheckAlive);
    if quits {
      ss, steps := Extend(hard, 0, ss, steps, QuitDone);
    } else {
      ss, steps := WaitThen(hard, 0, ss, steps, GRACE, QuitTimedOut);
      ss, steps := TriesTransport(hard, 0, ss, steps, 2, Max(hard, 10_000) + 250_000, first);
      ss, steps := TriesTransport(hard, 0, ss, steps, 1, Max(hard, 10_000) + 250_000 + Cost(first), second);
    }
  }

  // The caller has just reached this point.
  predicate Caller(s: State, main: MainPc, at: Time) {
    s.main == main && s.since == s.clock == at
  }

  lemma HangsUntilChecked(hard: Time, overrun: Time) returns (ss: seq<State>, steps: seq<Step>)
    requires overrun >= 0
    ensures IsRun(hard, overrun, ss, steps)
    ensures var last := ss[|ss| - 1];
            Caller(last, Checking, Max(hard, MIN_WAIT + overrun) + overrun) && last.holderEngine && !last.thread.Ended?
  {
    ss, steps := [Start()], [];
    ss, steps := Extend(hard, overrun, ss, steps, OpenEngine);
    ss, steps := Extend(hard, overrun, ss, steps, StoreEngine);
    ss, steps := WaitThen(hard, overrun, ss, steps, overrun, Join);
    var wait := Max(MIN_WAIT, hard - overrun);
    assert Caller(ss[|ss| - 1], Joining(overrun + wait), overrun);
    ss, steps := WaitThen(hard, overrun, ss, steps, wait + overrun, Wake);
  }
}
