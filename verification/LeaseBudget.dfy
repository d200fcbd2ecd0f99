/** End to end: whether an attempt's persist call can come too late. The watchdog uses the
    hard timeout stored with the row, the claim the lease of the worker that made it; both
    clocks are taken to run at the same rate. */
module LeaseBudget {
  import opened Schema
  import opened Tasks
  import Watchdog
  import Worker
  import A = AtomicQueue
  import L = LockedQueue
  import LockedRuns

  // Whatever the engine does, and with database delays of up to `delays` in all, the
  // attempt is over before the lease.
  ghost predicate AlwaysInTime(hard: Time, overrun: Time, delays: Time, lease: Time) {
    forall ss: seq<Watchdog.State>, steps, k: nat, delay | Attempted(hard, overrun, delays, ss, steps, k, delay) ::
      delay + ss[k].since < lease
  }

  // The evaluation has returned in state k, the database having taken `delay` in all.
  ghost predicate Attempted(hard: Time, overrun: Time, delays: Time, ss: seq<Watchdog.State>, steps: seq<Watchdog.Step>,
                            k: nat, delay: Time) {
    Watchdog.IsRun(hard, overrun, ss, steps) && k < |ss| && ss[k].main.Done? && 0 <= delay <= delays
  }

  /** The exact budget: the hard timeout (at least 0.01 s), three graces of 0.25 s, the
      waits' overruns and the database delays must fit strictly inside the lease. */
  lemma BudgetIsExact(hard: Time, overrun: Time, delays: Time, lease: Time)
    requires overrun >= 0 && delays >= 0
    ensures AlwaysInTime(hard, overrun, delays, lease) <==> Watchdog.WorstElapsed(hard, overrun) + delays < lease
  {
    if Watchdog.WorstElapsed(hard, overrun) + delays < lease {
      forall ss: seq<Watchdog.State>, steps, k: nat, delay | Attempted(hard, overrun, delays, ss, steps, k, delay)
        ensures delay + ss[k].since < lease
      {
        Watchdog.ReturnsInTime(hard, overrun, ss, steps, k);
      }
    } else {
      var ss, steps := Watchdog.WorstCaseHappens(hard, overrun);
      assert Attempted(hard, overrun, delays, ss, steps, |ss| - 1, delays);
      assert !(delays + ss[|ss| - 1].since < lease);
    }
  }

  /** Within the budget, the persist call of an attempt finds its row as it was claimed,
      neither locked nor expired, so it is not stale. */
  lemma AttemptIsNeverStale(limit: int, dbs: seq<L.Db>, ls: seq<L.Label>, i: nat, k: nat, s: L.Session, id: Id,
                            intent: A.Intent, ss: seq<Watchdog.State>, steps: seq<Watchdog.Step>, end: nat,
                            overrun: Time, delay: Time, delays: Time)
    requires limit <= MAX_ATTEMPTS && L.IsRun(limit, dbs, ls) && i < k < |dbs|
    requires L.PersistIntent(intent) && intent.id == id && LockedRuns.CommitsClaim(dbs, ls, i, s, id, intent.token)
    requires !LockedRuns.PresentedBy(ls, k, intent.token)
    // the evaluation ran under the row's own hard timeout ...
    requires id in dbs[i].table
    requires Watchdog.IsRun(dbs[i].table[id].evaluationConfig.hardTimeout, overrun, ss, steps)
    requires end < |ss| && ss[end].main.Done? && overrun >= 0
    // ... and the call's clock reading is that much, and the delays, after the claim's
    requires 0 <= delay <= delays && dbs[k].clock <= dbs[i].txns[s].now + delay + ss[end].since
    requires Watchdog.WorstElapsed(dbs[i].table[id].evaluationConfig.hardTimeout, overrun) + delays
             < dbs[i].txns[s].intent.lease
    ensures L.Chosen(dbs[k], intent) == {id} && !L.Waits(dbs[k], intent)
    ensures id in dbs[i + 1].table && dbs[k].table[id] == dbs[i + 1].table[id]
  {
    Watchdog.ReturnsInTime(dbs[i].table[id].evaluationConfig.hardTimeout, overrun, ss, steps, end);
    LockedRuns.HolderIsNeverStale(limit, dbs, ls, i, k, s, id, intent);
  }

  // What process_once makes of what evaluate_fen returned or raised.
  function EvaluationOf(o: Watchdog.Outcome): Worker.Evaluation {
    match o
    case Value(Centipawns(cp)) => Worker.Score(cp)
    case Value(MateIn(whiteWins, moves)) => Worker.Mate(if whiteWins then Worker.White else Worker.Black, moves)
    case Raised(EngineTimeout) => Worker.Raises("ENGINE_TIMEOUT")
    case Raised(EngineCrashed) => Worker.Raises("ENGINE_CRASH")
    case Raised(MissingScore) => Worker.Raises("ENGINE_SCORE_MISSING")
    case Raised(InvalidEngineConfig) => Worker.Raises("ENGINE_CONFIG_INVALID")
  }

  // The row shows what evaluate_fen returned, or is requeued or failed with its error code.
  predicate ShowsOutcome(r: Row, attempts: int, o: Watchdog.Outcome) {
    match o
    case Value(Centipawns(cp)) => r.status == Completed && r.evaluationCp == Some(cp) && r.mateWinner.None?
    case Value(MateIn(whiteWins, moves)) =>
      && r.status == Completed && r.evaluationCp.None?
      && r.mateWinner == Some(if whiteWins then "white" else "black") && r.mateMoves == Some(moves)
    case Raised(e) =>
      if attempts < 2 then r.status == Queued
      else
        && r.status == Failed
        && r.errorCode == Some(match e
                               case EngineTimeout => "ENGINE_TIMEOUT"
                               case EngineCrashed => "ENGINE_CRASH"
                               case MissingScore => "ENGINE_SCORE_MISSING"
                               case InvalidEngineConfig => "ENGINE_CONFIG_INVALID")
  }

  /** The same on the worker's side: within the row's budget and its own lease, a poll whose
      persist call reaches the database leaves the row showing, column by column, the outcome
      of the watchdog's run. */
  lemma PunctualPollPublishes(t: Table, calls: seq<Worker.Call>, w: Worker.Setup, env: Worker.Env,
                              ss: seq<Watchdog.State>, steps: seq<Watchdog.Step>, end: nat,
                              overrun: Time, delay: Time, delays: Time)
    requires |calls| == 3 && Worker.IsAttempt(calls, w, env) && Worker.Genuine(t, calls)
    requires env.persist != Worker.LostBefore
    // the evaluation ran under the claimed row's hard timeout ...
    requires Watchdog.IsRun(calls[1].claimed.value.evaluationConfig.hardTimeout, overrun, ss, steps)
    requires end < |ss| && ss[end].main.Done? && overrun >= 0 && env.evaluation == EvaluationOf(ss[end].main.outcome)
    // ... and the persist call's clock reading is that much, and the delays, after the claim's
    requires 0 <= delay <= delays && env.persistAt <= env.claimAt + delay + ss[end].since
    requires Watchdog.WorstElapsed(calls[1].claimed.value.evaluationConfig.hardTimeout, overrun) + delays
             < w.config.lease
    ensures var row := calls[1].claimed.value;
            && Worker.ReplayAll(t, calls) == Worker.ReplayAll(t, calls[..2])[row.id := Worker.Published(row, w, env)]
            && Worker.ShowsEvaluation(row, Worker.Published(row, w, env), w, env)
            && ShowsOutcome(Worker.Published(row, w, env), row.attempts, ss[end].main.outcome)
  {
    Watchdog.ReturnsInTime(calls[1].claimed.value.evaluationConfig.hardTimeout, overrun, ss, steps, end);
    Worker.HealthyAttemptPublishes(t, calls, w, env);
  }

  // ---------- What the startup check secures ----------

  // Every row whose stored hard timeout is at most `largest` is in time.
  ghost predicate SecuresUpTo(largest: Time, delays: Time, lease: Time) {
    forall hard: Time | 0 < hard <= largest :: AlwaysInTime(hard, 0, delays, lease)
  }

  /** An attempt runs under the hard timeout stored with its row, the lease is the worker's:
      accepted settings secure the rows with timeouts up to `largest` exactly when the lease
      exceeds that timeout, or 0.01 s if it is smaller, by more than the three graces and the
      database delays. They never secure every row. */
  lemma StartupNeedsSlack(c: Worker.WorkerConfig, engineUsable: bool, largest: Time, delays: Time)
    requires Worker.ValidStartup(c, engineUsable) && largest > 0 && delays >= 0
    ensures SecuresUpTo(largest, delays, c.lease)
            <==> c.lease - Watchdog.Max(largest, Watchdog.MIN_WAIT) > 3 * Watchdog.GRACE + delays
    ensures exists hard: Time :: hard > 0 && !AlwaysInTime(hard, 0, delays, c.lease)
  {
    SecuresExactly(largest, delays, c.lease);
    BudgetIsExact(c.lease, 0, delays, c.lease);
  }

  /** A started worker's own timeout fits its lease up to the closing: on rows stored with that
      timeout every attempt with punctual waits is over less than the closing time, or 0.01 s
      more, past the lease. */
  lemma StartedWorkerOverrunsByClosing(c: Worker.WorkerConfig, engineUsable: bool, ss: seq<Watchdog.State>,
                                       steps: seq<Watchdog.Step>, k: nat)
    requires Worker.ValidStartup(c, engineUsable) && Watchdog.IsRun(c.hardTimeout, 0, ss, steps)
    requires k < |ss| && ss[k].main.Done?
    ensures ss[k].since - c.lease < 750_000 + if c.hardTimeout < 10_000 then 10_000 else 0
  {
    Watchdog.ReturnsInTime(c.hardTimeout, 0, ss, steps, k);
  }

  lemma SecuresExactly(largest: Time, delays: Time, lease: Time)
    requires largest > 0 && delays >= 0
    ensures SecuresUpTo(largest, delays, lease)
            <==> lease - Watchdog.Max(largest, Watchdog.MIN_WAIT) > 3 * Watchdog.GRACE + delays
  {
    hide AlwaysInTime;
    forall hard: Time | 0 < hard <= largest
      ensures AlwaysInTime(hard, 0, delays, lease)
              <==> Watchdog.Max(hard, Watchdog.MIN_WAIT) + 3 * Watchdog.GRACE + delays < lease
    {
      BudgetIsExact(hard, 0, delays, lease);
    }
  }

  /** Settings that start up and can miss the lease even on rows stored with the worker's own
      hard timeout and with a database that takes no time. */
  lemma StartupDoesNotSuffice() returns (c: Worker.WorkerConfig)
    ensures Worker.ValidStartup(c, true) && !AlwaysInTime(c.hardTimeout, 0, 0, c.lease)
  {
    c := Worker.WorkerConfig(1_000_000, 29_500_000, 1, 64, 20, 500_000, 30_000_000, 2);
    BudgetIsExact(c.hardTimeout, 0, 0, c.lease);
  }

  /** The shipped defaults, 10 s and 30 s, leave 19.25 s for the database. */
  lemma DefaultsLeaveSlack(delays: Time)
    requires delays >= 0
    ensures AlwaysInTime(10_000_000, 0, delays, 30_000_000) <==> delays < 19_250_000
  {
    BudgetIsExact(10_000_000, 0, delays, 30_000_000);
  }
}
