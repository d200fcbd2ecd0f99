/** The worker loop (app/worker.py): recover, claim, evaluate and persist at most one task
    per poll, with a flag that stops claiming after a persistence failure. */
module Worker {
  import opened Schema
  import opened Tasks
  import A = AtomicQueue
  import AttemptLimit
  import Fencing
  import L = LockedQueue
  import LockedProgress
  import LockedRuns

  // ---------- Startup ----------

  datatype WorkerConfig = WorkerConfig(
    searchTime: Time, hardTimeout: Time, threads: int, hashMb: int, skill: int,
    pollInterval: Time, lease: Time, maxAttempts: int)

  predicate ValidStartup(c: WorkerConfig, engineUsable: bool) {
    && !(c.searchTime <= 0 || c.hardTimeout <= 0 || c.searchTime > c.hardTimeout)
    && !(c.hardTimeout >= c.lease)
    && c.threads == 1
    && !(c.hashMb < 1 || !(0 <= c.skill <= 20))
    && !(c.pollInterval <= 0 || c.maxAttempts != 2)
    && engineUsable
  }

  // The engine adapter's own check of the settings stored with a row.
  predicate EngineAccepts(c: WorkerConfig) {
    !(c.searchTime <= 0 || c.hardTimeout <= 0 || c.searchTime > c.hardTimeout
      || c.threads < 1 || c.hashMb < 1 || !(0 <= c.skill <= 20))
  }

  // What a worker polls with: its settings, and the engine version it stores with results.
  datatype Setup = Setup(config: WorkerConfig, engineVersion: Option<string>)

  // ---------- One poll ----------

  // A database call can raise before it took effect, or after its commit.
  datatype Fault = Fine | LostBefore | LostAfter

  datatype Side = White | Black

  datatype Evaluation = Score(cp: int) | Mate(winner: Side, moves: nat) | Raises(code: string) | Unusable

  datatype Env = Env(
    probe: Fault, recover: Fault, claim: Fault, persist: Fault,
    probeAt: Time, recoverAt: Time, claimAt: Time, persistAt: Time,
    locked: set<Id>, token: Token, evaluation: Evaluation)

  // A database call as logged: what was asked, whether it took effect, whether it raised.
  // `claimed` is the row the database claimed, even when the caller never learns of it.
  datatype Call =
    | RecoverCall(maxAttempts: int, locked: set<Id>, now: Time, fault: Fault, raised: bool)
    | ClaimCall(lease: Time, token: Token, locked: set<Id>, now: Time, claimed: Option<Row>, fault: Fault, raised: bool)
    | CompleteCall(id: Id, token: Token, result: Result, now: Time, fault: Fault, raised: bool)
    | FailCall(retry: bool, id: Id, token: Token, code: string, message: string, now: Time, fault: Fault, raised: bool)
  {
    predicate Persist() {
      CompleteCall? || FailCall?
    }

    predicate Recovered() {
      RecoverCall? && !raised
    }

    // The claim handed `row` to the worker.
    predicate Handed(row: Row) {
      ClaimCall? && !raised && claimed == Some(row)
    }
  }

  datatype Polled = Idle | Worked | PollRaised

  function SideName(s: Side): string {
    if s.White? then WHITE else BLACK
  }

  const SAFE_ERROR_MESSAGES: map<string, string> := map[
    "ENGINE_TIMEOUT" := "The position could not be evaluated within the allowed time.",
    "ENGINE_CRASH" := "The chess engine was unavailable while evaluating the position.",
    "ENGINE_SCORE_MISSING" := "The chess engine returned no usable evaluation.",
    "ENGINE_CONFIG_INVALID" := "The chess engine configuration is invalid."]
  const ENGINE_ERROR := "ENGINE_ERROR"
  const ENGINE_ERROR_MESSAGE := "The position could not be evaluated."

  function SafeMessage(code: string): string {
    if code in SAFE_ERROR_MESSAGES then SAFE_ERROR_MESSAGES[code] else ENGINE_ERROR_MESSAGE
  }

  function ResultOf(e: Evaluation, engineVersion: Option<string>): Result
    requires e.Score? || e.Mate?
  {
    match e
    case Score(cp) => Result(Some(cp), None, None, engineVersion)
    case Mate(winner, moves) => Result(None, Some(SideName(winner)), Some(moves), engineVersion)
  }

  function TokenOf(row: Row): Token {
    if row.leaseToken.Some? then row.leaseToken.value else 0
  }

  // The worker asks for a retry below two attempts, for a final failure otherwise. A
  // missing or zero count reads as one.
  predicate Retries(row: Row) {
    (if row.attempts == 0 then 1 else row.attempts) < 2
  }

  // A usable evaluation is persisted as a result, anything else as a failure.
  predicate PersistsFor(c: Call, row: Row, w: Setup, env: Env) {
    && c.Persist() && c.id == row.id && c.token == TokenOf(row) && c.now == env.persistAt && c.fault == env.persist
    && match env.evaluation
       case Raises(code) => c.FailCall? && c.code == code && c.message == SafeMessage(code) && c.retry == Retries(row)
       case Unusable =>
         c.FailCall? && c.code == ENGINE_ERROR && c.message == ENGINE_ERROR_MESSAGE && c.retry == Retries(row)
       case _ => c.CompleteCall? && c.result == ResultOf(env.evaluation, w.engineVersion)
  }

  // ---------- What calls do to the table ----------

  function Replay(t: Table, c: Call): Table {
    if c.fault.LostBefore? then t
    else match c
      case RecoverCall(maxAttempts, locked, now, _, _) =>
        if maxAttempts < 1 then t else RecoveredTable(t, locked, DefaultPolicy(maxAttempts), now)
      case ClaimCall(_, _, _, _, claimed, _, _) => if claimed.Some? then t[claimed.value.id := claimed.value] else t
      case CompleteCall(id, token, result, now, _, _) =>
        if ValidResult(result) && Guarded(t, id, token, now) then t[id := Completing(t[id], result, now)] else t
      case FailCall(_, id, token, code, message, now, _, _) =>
        if code != "" && message != "" && Guarded(t, id, token, now)
        then t[id := FailedOrRetried(t[id], code, message, MAX_ATTEMPTS, now)] else t
  }

  function ReplayAll(t: Table, calls: seq<Call>): Table {
    if calls == [] then t else Replay(ReplayAll(t, calls[..|calls| - 1]), calls[|calls| - 1])
  }

  // The logged answer is the one a table `t` gives: a call raises exactly when a fault
  // struck, the operation refused its arguments or a CHECK rejected the write, and a claim
  // that took effect took the oldest queued row.
  predicate Answers(t: Table, c: Call) {
    match c
    case RecoverCall(maxAttempts, _, _, fault, raised) => raised <==> fault != Fine || maxAttempts < 1
    case ClaimCall(_, _, _, _, _, _, _) => AnswersClaim(t, c)
    case CompleteCall(_, _, result, _, fault, raised) => raised <==> fault != Fine || !ValidResult(result)
    case FailCall(_, _, _, code, message, _, fault, raised) => raised <==> fault != Fine || code == "" || message == ""
  }

  predicate AnswersClaim(t: Table, c: Call)
    requires c.ClaimCall?
  {
    if c.fault.LostBefore? then c.claimed.None? && c.raised
    else
      && (c.raised <==> c.fault.LostAfter? || c.lease <= 0 || OldestExhausted(t, c.locked))
      && (c.claimed.None? <==> c.lease <= 0 || NoneClaimable(t, c.locked) || OldestExhausted(t, c.locked))
      && (c.claimed.Some? ==>
            && IsOldest(t, c.locked, c.claimed.value.id)
            && c.claimed.value == Claimed(t[c.claimed.value.id], c.token, c.lease, c.now))
  }

  ghost predicate GenuineAt(t: Table, calls: seq<Call>, k: nat)
    requires k < |calls|
  {
    Answers(ReplayAll(t, calls[..k]), calls[k])
  }

  ghost predicate Genuine(t: Table, calls: seq<Call>) {
    forall k: nat {:trigger GenuineAt(t, calls, k)} | k < |calls| :: GenuineAt(t, calls, k)
  }

  lemma ReplayOne(t: Table, calls: seq<Call>, c: Call)
    ensures ReplayAll(t, calls + [c]) == Replay(ReplayAll(t, calls), c)
    ensures Genuine(t, calls) && Answers(ReplayAll(t, calls), c) ==> Genuine(t, calls + [c])
  {
    var more := calls + [c];
    assert more[..|calls|] == calls;
    forall k: nat | k < |calls| && Genuine(t, calls)
      ensures GenuineAt(t, more, k)
    {
      assert GenuineAt(t, calls, k);
      assert more[..k] == calls[..k];
    }
  }

  lemma Reassociate(a: seq<Call>, b: seq<Call>, c: seq<Call>)
    ensures a + b + c == a + (b + c)
  {
  }

  // ---------- The calls of one poll ----------

  // Unlocked rows whose lease has lapsed are queued again, or failed for the client to see
  // when their attempts are used up; nothing else changes.
  predicate LapsedGivenBack(before: Table, after: Table, locked: set<Id>, maxAttempts: int, now: Time) {
    && after.Keys == before.Keys
    && forall id | id in before ::
         var r, r' := before[id], after[id];
         if id in locked || r.status != Running || r.leaseExpiresAt.None? || r.leaseExpiresAt.value > now then r' == r
         else if r.attempts < maxAttempts then
           r'.status == Queued && r'.attempts == r.attempts && r'.leaseToken.None? && r'.errorCode.None?
         else
           && r'.status == Failed && r'.finishedAt == Some(now) && r'.leaseToken.None?
           && r'.errorCode == Some("LEASE_EXPIRED")
           && r'.errorMessage == Some("The worker lease expired before evaluation finished.")
  }

  lemma RecoveryGivesBack(t: Table, locked: set<Id>, maxAttempts: int, now: Time)
    ensures LapsedGivenBack(t, RecoveredTable(t, locked, DefaultPolicy(maxAttempts), now), locked, maxAttempts, now)
  {
  }

  predicate AsksRecovery(c: Call, w: Setup, env: Env, now: Time, fault: Fault) {
    && c.RecoverCall? && c.maxAttempts == w.config.maxAttempts
    && c.locked == env.locked && c.now == now && c.fault == fault
  }

  predicate AsksClaim(c: Call, w: Setup, env: Env) {
    && c.ClaimCall? && c.lease == w.config.lease && c.token == env.token
    && c.locked == env.locked && c.now == env.claimAt && c.fault == env.claim
  }

  // Recover, then claim unless recovery raised ...
  predicate BeforePersist(calls: seq<Call>, w: Setup, env: Env) {
    && 1 <= |calls| <= 2
    && AsksRecovery(calls[0], w, env, env.recoverAt, env.recover) && (calls[0].raised <==> |calls| == 1)
    && (|calls| == 2 ==> AsksClaim(calls[1], w, env))
  }

  // ... then persist what the claim handed over.
  ghost predicate IsAttempt(calls: seq<Call>, w: Setup, env: Env) {
    if |calls| == 3 then
      && BeforePersist(calls[..2], w, env) && calls[1].claimed.Some? && calls[1].Handed(calls[1].claimed.value)
      && PersistsFor(calls[2], calls[1].claimed.value, w, env)
    else
      BeforePersist(calls, w, env) && (|calls| == 2 ==> calls[1].raised || calls[1].claimed.None?)
  }

  // A blocked worker first probes the database, and goes no further if that raises.
  ghost predicate IsPoll(blocked: bool, calls: seq<Call>, w: Setup, env: Env) {
    if !blocked then IsAttempt(calls, w, env)
    else
      && calls != [] && AsksRecovery(calls[0], w, env, env.probeAt, env.probe)
      && if calls[0].raised then |calls| == 1 else IsAttempt(calls[1..], w, env)
  }

  predicate PersistRaised(calls: seq<Call>) {
    calls != [] && calls[|calls| - 1].Persist() && calls[|calls| - 1].raised
  }

  // A persist call that raised sets the flag; a probe that raised leaves it set.
  predicate BlockedNext(blocked: bool, calls: seq<Call>) {
    PersistRaised(calls) || (blocked && |calls| == 1)
  }

  function PollResult(calls: seq<Call>): Polled
    requires calls != []
  {
    if calls[|calls| - 1].raised then PollRaised
    else if calls[|calls| - 1].Persist() then Worked
    else Idle
  }

  /** What the answer and the flag mean: a poll raises when some call of it did, has worked
      when it persisted something, and is idle when it claimed nothing; the flag is set when a
      persist call raised, or was set and the probe raised. */
  lemma PollAnswers(blocked: bool, calls: seq<Call>, w: Setup, env: Env)
    requires IsPoll(blocked, calls, w, env)
    ensures calls != []
    ensures PollResult(calls) == PollRaised <==> exists c :: c in calls && c.raised
    ensures PollResult(calls) == Worked <==>
            (exists c :: c in calls && c.Persist()) && forall c | c in calls :: !c.raised
    ensures PollResult(calls) == Idle <==>
            (forall c | c in calls :: !c.raised) && exists c :: c in calls && c.ClaimCall? && c.claimed.None?
    ensures BlockedNext(blocked, calls) <==>
            (exists c :: c in calls && c.Persist() && c.raised) || (blocked && calls[0].raised)
  {
    var attempt := if blocked && !calls[0].raised then calls[1..] else calls;
    assert forall c | c in calls :: c in attempt || c == calls[0];
    assert calls[|calls| - 1] in calls;
    if |attempt| == 3 {
      assert attempt[..2][0] == attempt[0] && attempt[..2][1] == attempt[1];
      assert forall c | c in attempt :: c == attempt[0] || c == attempt[1] || c == attempt[2];
      assert attempt[2] in calls && attempt[1] in calls;
    } else {
      assert forall c | c in attempt :: c == attempt[0] || c == attempt[|attempt| - 1];
    }
  }

  lemma PersistedAttempt(calls: seq<Call>, p: Call, w: Setup, env: Env)
    requires BeforePersist(calls, w, env) && |calls| == 2 && !calls[1].raised && calls[1].claimed.Some?
    requires PersistsFor(p, calls[1].claimed.value, w, env)
    ensures IsAttempt(calls + [p], w, env)
    ensures PersistRaised(calls + [p]) == p.raised
    ensures PollResult(calls + [p]) == if p.raised then PollRaised else Worked
  {
  }

  lemma ProbedAttempt(probe: Call, calls: seq<Call>, w: Setup, env: Env)
    requires AsksRecovery(probe, w, env, env.probeAt, env.probe) && probe.Recovered() && IsAttempt(calls, w, env)
    ensures IsPoll(true, [probe] + calls, w, env)
    ensures BlockedNext(true, [probe] + calls) == PersistRaised(calls)
    ensures PollResult([probe] + calls) == PollResult(calls)
  {
  }

  // ---------- Successive polls ----------

  ghost predicate PollAt(flags: seq<bool>, polls: seq<seq<Call>>, envs: seq<Env>, w: Setup, n: nat)
    requires |flags| == |polls| + 1 && n < |polls| <= |envs|
  {
    IsPoll(flags[n], polls[n], w, envs[n]) && flags[n + 1] == BlockedNext(flags[n], polls[n])
  }

  // Successive polls of one worker, with the flag before each.
  ghost predicate IsWork(flags: seq<bool>, polls: seq<seq<Call>>, envs: seq<Env>, w: Setup) {
    && |flags| == |polls| + 1 && |polls| <= |envs|
    && forall n: nat | n < |polls| :: PollAt(flags, polls, envs, w, n)
  }

  function Flatten(polls: seq<seq<Call>>): seq<Call> {
    if polls == [] then [] else Flatten(polls[..|polls| - 1]) + polls[|polls| - 1]
  }

  lemma WorkGrows(flags: seq<bool>, polls: seq<seq<Call>>, envs: seq<Env>, w: Setup, made: seq<Call>)
    requires IsWork(flags, polls, envs, w) && |polls| < |envs| && IsPoll(flags[|polls|], made, w, envs[|polls|])
    ensures IsWork(flags + [BlockedNext(flags[|polls|], made)], polls + [made], envs, w)
    ensures Flatten(polls + [made]) == Flatten(polls) + made
  {
    hide IsPoll, BlockedNext;
    var flags', polls' := flags + [BlockedNext(flags[|polls|], made)], polls + [made];
    assert polls'[..|polls|] == polls;
    forall n: nat | n < |polls'|
      ensures PollAt(flags', polls', envs, w, n)
    {
      assert n < |polls| ==> PollAt(flags, polls, envs, w, n);
    }
  }

  lemma EarlierWork(flags: seq<bool>, polls: seq<seq<Call>>, envs: seq<Env>, w: Setup, n: nat)
    requires IsWork(flags, polls, envs, w) && n <= |polls|
    ensures IsWork(flags[..n + 1], polls[..n], envs, w)
  {
    hide IsPoll, BlockedNext;
    var flags', polls' := flags[..n + 1], polls[..n];
    forall m: nat | m < |polls'|
      ensures PollAt(flags', polls', envs, w, m)
    {
      assert PollAt(flags, polls, envs, w, m);
    }
  }

  // ---------- What startup guarantees ----------

  // Queued rows have an attempt left, as in every reachable state.
  predicate Ready(t: Table) {
    forall id | id in t && t[id].status.Queued? :: t[id].attempts < MAX_ATTEMPTS
  }

  // The arguments a worker of this setup passes.
  predicate Configured(c: Call, w: Setup) {
    match c
    case RecoverCall(maxAttempts, _, _, _, _) => maxAttempts == w.config.maxAttempts
    case ClaimCall(lease, _, _, _, _, _, _) => lease == w.config.lease
    case CompleteCall(_, _, result, _, _, _) => ValidResult(result)
    case FailCall(_, _, _, _, message, _, _, _) => message != ""
  }

  // Only a fault makes the call raise: no ValueError, no CHECK violation. An evaluator
  // whose exception carries an empty code is the one exception.
  predicate Served(c: Call) {
    c.raised <==> c.fault != Fine || (c.FailCall? && c.code == "")
  }

  // The call as an intent of the queue.
  function IntentOf(c: Call): A.Intent {
    match c
    case RecoverCall(maxAttempts, _, _, _, _) => A.Recover(DefaultPolicy(maxAttempts))
    case ClaimCall(lease, token, _, _, _, _, _) => A.Claim(token, lease)
    case CompleteCall(id, token, result, _, _, _) => A.Complete(id, token, result)
    case FailCall(_, id, token, code, message, _, _, _) => A.FailOrRetry(id, token, code, message)
  }

  /** With settings that start up, a call is neither refused its arguments nor rejected by a
      CHECK, is one the queue's runs are made of, and keeps queued rows claimable. */
  lemma StartupIsSafe(w: Setup, engineUsable: bool, t: Table, c: Call)
    requires ValidStartup(w.config, engineUsable) && Configured(c, w) && Ready(t) && Answers(t, c)
    ensures Served(c) && Ready(Replay(t, c))
    ensures (c.FailCall? ==> c.code != "") ==> A.Accepted(w.config.maxAttempts, IntentOf(c))
    ensures AttemptLimit.SafeLimit(w.config.maxAttempts)
  {
    AttemptLimit.SafeExactlyUpToTwo(w.config.maxAttempts);
    if c.ClaimCall? {
      assert !OldestExhausted(t, c.locked);
    }
  }

  lemma {:induction false} NothingRefused(w: Setup, engineUsable: bool, t: Table, calls: seq<Call>, j: nat, k: nat)
    requires ValidStartup(w.config, engineUsable) && Genuine(t, calls)
    requires j <= k <= |calls| && Ready(ReplayAll(t, calls[..j]))
    requires forall m | j <= m < |calls| :: Configured(calls[m], w)
    ensures Ready(ReplayAll(t, calls[..k])) && forall m | j <= m < k :: Served(calls[m])
  {
    hide Ready, Served, Replay, Configured, Answers;
    if j < k {
      NothingRefused(w, engineUsable, t, calls, j, k - 1);
      assert GenuineAt(t, calls, k - 1);
      StartupIsSafe(w, engineUsable, ReplayAll(t, calls[..k - 1]), calls[k - 1]);
      assert calls[..k] == calls[..k - 1] + [calls[k - 1]];
      ReplayOne(t, calls[..k - 1], calls[k - 1]);
    }
  }

  // fail_or_retry would answer an empty message with ValueError.
  lemma MessagesAreNotEmpty()
    ensures ENGINE_ERROR_MESSAGE != "" && forall code :: SafeMessage(code) != ""
  {
  }

  lemma PollIsConfigured(blocked: bool, calls: seq<Call>, w: Setup, env: Env)
    requires IsPoll(blocked, calls, w, env)
    ensures forall c | c in calls :: Configured(c, w)
  {
    MessagesAreNotEmpty();
  }

  lemma {:induction false} WorkIsConfigured(flags: seq<bool>, polls: seq<seq<Call>>, envs: seq<Env>, w: Setup)
    requires IsWork(flags, polls, envs, w)
    ensures forall c | c in Flatten(polls) :: Configured(c, w)
  {
    hide IsPoll, BlockedNext, Configured;
    if polls != [] {
      var n := |polls| - 1;
      assert PollAt(flags, polls, envs, w, n);
      EarlierWork(flags, polls, envs, w, n);
      WorkIsConfigured(flags[..n + 1], polls[..n], envs, w);
      PollIsConfigured(flags[n], polls[n], w, envs[n]);
    }
  }

  // ---------- The worker object ----------

  class Worker {
    const table: TaskTable
    const config: WorkerConfig
    const engineVersion: Option<string>
    var dbBlocked: bool
    ghost const start: Table
    ghost var calls: seq<Call>

    // The table is what the logged calls made of the one the worker started with.
    ghost predicate Valid()
      reads this`calls, table, table.rows.Values
    {
      table.Valid() && table.contents == ReplayAll(start, calls) && Genuine(start, calls)
    }

    constructor (table: TaskTable, config: WorkerConfig, engineVersion: Option<string>)
      requires table.Valid()
      ensures Valid() && !dbBlocked && calls == []
      ensures this.table == table && this.config == config && this.engineVersion == engineVersion
    {
      this.table, this.config, this.engineVersion := table, config, engineVersion;
      dbBlocked, calls, start := false, [], table.contents;
    }

    function Settings(): Setup {
      Setup(config, engineVersion)
    }

    ghost method Log(c: Call)
      requires table.Valid() && table.contents == Replay(ReplayAll(start, calls), c)
      requires Genuine(start, calls) && Answers(ReplayAll(start, calls), c)
      modifies this`calls
      ensures Valid() && calls == old(calls) + [c]
    {
      hide SatisfiesChecks, Replay, Answers;
      ReplayOne(start, calls, c);
      calls := calls + [c];
    }

    method Recover(locked: set<Id>, now: Time, fault: Fault) returns (raised: bool)
      requires Valid()
      modifies this`calls, table`contents, table.rows.Values
      ensures Valid()
      ensures calls == old(calls) + [RecoverCall(config.maxAttempts, locked, now, fault, raised)]
      ensures raised <==> fault != Fine || config.maxAttempts < 1
      ensures !raised ==> LapsedGivenBack(old(table.contents), table.contents, locked, config.maxAttempts, now)
    {
      hide SatisfiesChecks, RecoveredTable, LapsedGivenBack, ReplayAll, Genuine;
      RecoveryGivesBack(table.contents, locked, config.maxAttempts, now);
      raised := fault != Fine || config.maxAttempts < 1;
      if !fault.LostBefore? {
        var recovered := table.RecoverExpired(DefaultPolicy(config.maxAttempts), now, locked);
      }
      Log(RecoverCall(config.maxAttempts, locked, now, fault, raised));
    }

    method Claim(env: Env) returns (claimed: Option<Row>, raised: bool, ghost c: Call)
      requires Valid()
      modifies this`calls, table`contents, table.rows.Values
      ensures Valid() && calls == old(calls) + [c]
      ensures AsksClaim(c, Settings(), env) && c.raised == raised && AnswersClaim(old(table.contents), c)
      ensures claimed == if raised then None else c.claimed
    {
      hide SatisfiesChecks, Claimed, IsOldest, NoneClaimable, OldestExhausted, ReplayAll, Genuine;
      claimed, raised := None, true;
      if !env.claim.LostBefore? {
        var outcome := table.ClaimOne(config.lease, env.token, env.claimAt, env.locked);
        claimed := if outcome.Ok? then outcome.value else None;
        raised := env.claim != Fine || !outcome.Ok?;
      }
      c := ClaimCall(config.lease, env.token, env.locked, env.claimAt, claimed, env.claim, raised);
      Log(c);
      claimed := if raised then None else claimed;
    }

    method PersistSuccess(row: Row, result: Result, now: Time, fault: Fault) returns (raised: bool)
      requires Valid()
      modifies this`calls, table`contents, table.rows.Values
      ensures Valid()
      ensures calls == old(calls) + [CompleteCall(row.id, TokenOf(row), result, now, fault, raised)]
      ensures raised <==> fault != Fine || !ValidResult(result)
    {
      hide SatisfiesChecks, Completing, ValidResult, Guarded, ReplayAll, Genuine;
      raised := fault != Fine || !ValidResult(result);
      if !fault.LostBefore? {
        var done := table.CompleteTask(row.id, TokenOf(row), result, now);
      }
      Log(CompleteCall(row.id, TokenOf(row), result, now, fault, raised));
    }

    method PersistFailure(row: Row, code: string, message: string, now: Time, fault: Fault) returns (raised: bool)
      requires Valid()
      modifies this`calls, table`contents, table.rows.Values
      ensures Valid()
      ensures calls == old(calls) + [FailCall(Retries(row), row.id, TokenOf(row), code, message, now, fault, raised)]
      ensures raised <==> fault != Fine || code == "" || message == ""
    {
      hide SatisfiesChecks, FailedOrRetried, Guarded, ReplayAll, Genuine;
      raised := fault != Fine || code == "" || message == "";
      if !fault.LostBefore? {
        // retry_task and fail_task both name fail_or_retry with its default limit
        var outcome := table.FailOrRetry(row.id, TokenOf(row), code, message, MAX_ATTEMPTS, now);
      }
      Log(FailCall(Retries(row), row.id, TokenOf(row), code, message, now, fault, raised));
    }

    method Persist(row: Row, env: Env) returns (raised: bool, ghost c: Call)
      requires Valid()
      modifies this`calls, table`contents, table.rows.Values
      ensures Valid()
      ensures calls == old(calls) + [c] && c.raised == raised && PersistsFor(c, row, Settings(), env)
    {
      hide Valid;
      match env.evaluation
      case Raises(code) =>
        raised := PersistFailure(row, code, SafeMessage(code), env.persistAt, env.persist);
        c := calls[|calls| - 1];
      case Unusable =>
        raised := PersistFailure(row, ENGINE_ERROR, ENGINE_ERROR_MESSAGE, env.persistAt, env.persist);
        c := calls[|calls| - 1];
      case _ =>
        raised := PersistSuccess(row, ResultOf(env.evaluation, engineVersion), env.persistAt, env.persist);
        c := calls[|calls| - 1];
    }

    method RecoverAndClaim(env: Env) returns (claimed: Option<Row>, raised: bool, ghost made: seq<Call>)
      requires Valid()
      modifies this`calls, table`contents, table.rows.Values
      ensures Valid() && calls == old(calls) + made
      ensures BeforePersist(made, Settings(), env) && raised == made[|made| - 1].raised
      ensures claimed == if raised then None else made[1].claimed
    {
      hide Valid;
      raised := Recover(env.locked, env.recoverAt, env.recover);
      ghost var r := calls[|calls| - 1];
      if raised {
        return None, true, [r];
      }
      ghost var c;
      claimed, raised, c := Claim(env);
      Reassociate(old(calls), [r], [c]);
      made := [r] + [c];
    }

    method Attempt(env: Env) returns (polled: Polled, ghost made: seq<Call>)
      requires Valid()
      modifies this, table`contents, table.rows.Values
      ensures Valid() && calls == old(calls) + made && IsAttempt(made, Settings(), env)
      ensures dbBlocked == (old(dbBlocked) || PersistRaised(made)) && polled == PollResult(made)
    {
      hide Valid;
      var claimed, raised;
      claimed, raised, made := RecoverAndClaim(env);
      if raised || claimed.None? {
        return if raised then PollRaised else Idle, made;
      }
      ghost var p;
      raised, p := Persist(claimed.value, env);
      Reassociate(old(calls), made, [p]);
      PersistedAttempt(made, p, Settings(), env);
      made := made + [p];
      if raised {
        dbBlocked := true;
      }
      polled := if raised then PollRaised else Worked;
    }

    method ProcessOnce(env: Env) returns (polled: Polled, ghost made: seq<Call>)
      requires Valid()
      modifies this, table`contents, table.rows.Values
      ensures Valid() && calls == old(calls) + made && IsPoll(old(dbBlocked), made, Settings(), env)
      ensures dbBlocked == BlockedNext(old(dbBlocked), made) && polled == PollResult(made)
      ensures polled.PollRaised? <==> exists c :: c in made && c.raised
      ensures polled.Worked? <==> (exists c :: c in made && c.Persist()) && forall c | c in made :: !c.raised
      ensures polled.Idle? <==>
              (forall c | c in made :: !c.raised) && exists c :: c in made && c.ClaimCall? && c.claimed.None?
      ensures dbBlocked <==> (exists c :: c in made && c.Persist() && c.raised) || (old(dbBlocked) && made[0].raised)
    {
      hide Valid, PollResult, BlockedNext;
      polled, made := Poll(env);
      PollAnswers(old(dbBlocked), made, Settings(), env);
    }

    method Poll(env: Env) returns (polled: Polled, ghost made: seq<Call>)
      requires Valid()
      modifies this, table`contents, table.rows.Values
      ensures Valid() && calls == old(calls) + made && IsPoll(old(dbBlocked), made, Settings(), env)
      ensures dbBlocked == BlockedNext(old(dbBlocked), made) && polled == PollResult(made)
    {
      hide Valid;
      if !dbBlocked {
        polled, made := Attempt(env);
        return;
      }
      var raised := Recover(env.locked, env.probeAt, env.probe);
      ghost var probe := calls[|calls| - 1];
      if raised {
        return PollRaised, [probe];
      }
      dbBlocked := false;
      polled, made := Attempt(env);
      Reassociate(old(calls), [probe], made);
      ProbedAttempt(probe, made, Settings(), env);
      made := [probe] + made;
    }

    // The polling loop until it is stopped; `envs` are the polls it gets to make.
    method RunForever(engineUsable: bool, envs: seq<Env>)
      returns (started: bool, ghost flags: seq<bool>, ghost polls: seq<seq<Call>>)
      requires Valid()
      modifies this, table`contents, table.rows.Values
      ensures Valid()
      ensures started <==>
              && 0 < config.searchTime <= config.hardTimeout < config.lease
              && config.threads == 1 && config.hashMb >= 1 && 0 <= config.skill <= 20
              && config.pollInterval > 0 && config.maxAttempts == 2 && engineUsable
      ensures started <==>
              && EngineAccepts(config) && config.threads == 1 && config.hardTimeout < config.lease
              && config.pollInterval > 0 && config.maxAttempts == 2 && engineUsable
      ensures !started ==> calls == old(calls) && table.contents == old(table.contents)
      ensures started ==>
              && |polls| == |envs| && IsWork(flags, polls, envs, Settings()) && flags[0] == old(dbBlocked)
              && calls == old(calls) + Flatten(polls)
      ensures started && Ready(old(table.contents)) ==>
              Ready(table.contents) && forall k | |old(calls)| <= k < |calls| :: Served(calls[k])
    {
      hide Valid, Ready, Served;
      Replayed();
      started, flags, polls := ValidStartup(config, engineUsable), [dbBlocked], [];
      if !started {
        return;
      }
      for n := 0 to |envs|
        invariant Valid()
        invariant |polls| == n && IsWork(flags, polls, envs, Settings()) && flags[0] == old(dbBlocked)
        invariant dbBlocked == flags[n] && calls == old(calls) + Flatten(polls)
      {
        var polled;
        ghost var made;
        polled, made := ProcessOnce(envs[n]);
        WorkGrows(flags, polls, envs, Settings(), made);
        Reassociate(old(calls), Flatten(polls), made);
        flags, polls := flags + [dbBlocked], polls + [made];
      }
      if Ready(old(table.contents)) {
        WorkIsConfigured(flags, polls, envs, Settings());
        LogIsServed(engineUsable, old(calls), Flatten(polls));
      }
    }

    lemma Replayed()
      requires Valid()
      ensures table.contents == ReplayAll(start, calls)
    {
    }

    // The log since `before` was made by a worker with accepted settings.
    lemma LogIsServed(engineUsable: bool, before: seq<Call>, since: seq<Call>)
      requires Valid() && calls == before + since && Ready(ReplayAll(start, before))
      requires ValidStartup(config, engineUsable) && forall c | c in since :: Configured(c, Settings())
      ensures Ready(table.contents) && forall k | |before| <= k < |calls| :: Served(calls[k])
    {
      hide ReplayAll, Replay, Ready, Served, Configured, Answers;
      assert calls[..|before|] == before && calls[..|calls|] == calls;
      forall k | |before| <= k < |calls|
        ensures Configured(calls[k], Settings())
      {
        assert calls[k] == since[k - |before|];
      }
      NothingRefused(Settings(), engineUsable, start, calls, |before|, |calls|);
    }
  }

  // ---------- Gating ----------

  // A claim directly follows a successful recovery; a persist call directly follows the
  // claim whose row it names, and is itself followed by a recovery.
  predicate GatedAt(trace: seq<Call>, k: nat)
    requires k < |trace|
  {
    && (trace[k].ClaimCall? ==> k >= 1 && trace[k - 1].Recovered())
    && (trace[k].Persist() ==>
          && k >= 1 && trace[k - 1].ClaimCall? && !trace[k - 1].raised && trace[k - 1].claimed.Some?
          && trace[k].id == trace[k - 1].claimed.value.id && trace[k].token == TokenOf(trace[k - 1].claimed.value)
          && (k + 1 < |trace| ==> trace[k + 1].RecoverCall?))
  }

  // A persist call raised at j; -1 stands for before the trace.
  predicate FailedAt(trace: seq<Call>, since: bool, j: int) {
    (j == -1 && since) || (0 <= j < |trace| && trace[j].Persist() && trace[j].raised)
  }

  predicate RecoveredBetween(trace: seq<Call>, j: int, k: int) {
    exists m: nat | j < m < k :: m < |trace| && trace[m].Recovered()
  }

  ghost predicate Gated(trace: seq<Call>, since: bool, blocked: bool) {
    && (forall k: nat | k < |trace| :: GatedAt(trace, k))
    && (forall j, k: nat | j < k < |trace| && FailedAt(trace, since, j) && trace[k].ClaimCall? ::
          RecoveredBetween(trace, j, k - 1))
    && (!blocked ==> forall j | FailedAt(trace, since, j) :: RecoveredBetween(trace, j, |trace|))
  }

  lemma ChunkShape(blocked: bool, chunk: seq<Call>, w: Setup, env: Env)
    requires IsPoll(blocked, chunk, w, env)
    ensures chunk != [] && chunk[0].RecoverCall?
    ensures forall k: nat | k < |chunk| :: GatedAt(chunk, k) && (chunk[k].Persist() ==> k == |chunk| - 1)
    ensures forall k: nat | k < |chunk| && chunk[k].ClaimCall? ::
              blocked ==> RecoveredBetween(chunk, 0, k) && chunk[0].Recovered() && k == 2
    ensures blocked && !BlockedNext(blocked, chunk) ==> chunk[0].Recovered()
  {
  }

  lemma PollKeepsGated(trace: seq<Call>, since: bool, blocked: bool, chunk: seq<Call>, w: Setup, env: Env)
    requires Gated(trace, since, blocked) && IsPoll(blocked, chunk, w, env)
    ensures Gated(trace + chunk, since, BlockedNext(blocked, chunk))
  {
    ChunkShape(blocked, chunk, w, env);
    var more, n := trace + chunk, |trace|;
    forall k: nat | k < |more|
      ensures GatedAt(more, k)
    {
      if k < n {
        assert GatedAt(trace, k);
      } else {
        assert GatedAt(chunk, k - n);
      }
    }
    forall j, k: nat | j < k < |more| && FailedAt(more, since, j) && more[k].ClaimCall?
      ensures RecoveredBetween(more, j, k - 1)
    {
      ClaimAfterFailure(trace, since, blocked, chunk, w, env, j, k);
    }
    if !BlockedNext(blocked, chunk) {
      forall j | FailedAt(more, since, j)
        ensures RecoveredBetween(more, j, |more|)
      {
        if j >= n {
          assert false;
        } else if blocked {
          assert more[n].Recovered();
        } else {
          assert FailedAt(trace, since, j);
          var m: nat :| j < m < n && trace[m].Recovered();
          assert more[m].Recovered();
        }
      }
    }
  }

  lemma ClaimAfterFailure(trace: seq<Call>, since: bool, blocked: bool, chunk: seq<Call>, w: Setup, env: Env,
                          j: int, k: nat)
    requires Gated(trace, since, blocked) && IsPoll(blocked, chunk, w, env)
    requires j < k < |trace + chunk| && FailedAt(trace + chunk, since, j) && (trace + chunk)[k].ClaimCall?
    ensures RecoveredBetween(trace + chunk, j, k - 1)
  {
    ChunkShape(blocked, chunk, w, env);
    var more, n := trace + chunk, |trace|;
    if k < n {
      assert FailedAt(trace, since, j);
      assert RecoveredBetween(trace, j, k - 1);
      var m: nat :| j < m < k - 1 && trace[m].Recovered();
      assert more[m].Recovered();
    } else if blocked {
      assert chunk[k - n].ClaimCall? && more[n].Recovered();
    } else {
      assert FailedAt(trace, since, j);
      var m: nat :| j < m < n && trace[m].Recovered();
      assert more[m].Recovered() && m < k - 1;
    }
  }

  /** Whatever the database does: every claim directly follows a successful recovery; a
      persist call directly follows the claim that handed out its row and is followed by a
      recovery, so no attempt is ever persisted twice and a failed result write never turns
      into a retry or failure write; and after a persist call raised, in these polls or
      before them, two recoveries succeed before the next claim. */
  lemma {:induction false} WorkIsGated(flags: seq<bool>, polls: seq<seq<Call>>, envs: seq<Env>, w: Setup)
    requires IsWork(flags, polls, envs, w)
    ensures Gated(Flatten(polls), flags[0], flags[|polls|])
  {
    if polls != [] {
      var n := |polls| - 1;
      assert PollAt(flags, polls, envs, w, n);
      EarlierWork(flags, polls, envs, w, n);
      WorkIsGated(flags[..n + 1], polls[..n], envs, w);
      PollKeepsGated(Flatten(polls[..n]), flags[0], flags[n], polls[n], w, envs[n]);
    }
  }

  // ---------- Calls as transactions ----------

  // Nobody holds up the call, and it sees the locks that are there.
  predicate RunsOn(db: L.Db, c: Call) {
    && c.now == db.clock
    && if c.Persist() then !L.Waits(db, IntentOf(c)) else c.locked == L.Locked(db)
  }

  lemma ClaimWritesChosen(db: L.Db, c: Call)
    requires L.CommittedInv(db) && Ready(db.table) && c.ClaimCall? && c.locked == L.Locked(db) && c.now == db.clock
    requires AnswersClaim(db.table, c) && !c.fault.LostBefore? && c.lease > 0
    ensures Replay(db.table, c) == A.Written(db.table, IntentOf(c), L.Chosen(db, IntentOf(c)), db.clock)
  {
    hide SatisfiesChecks, Claimed, A.ReadAfter;
    var chosen := L.Chosen(db, IntentOf(c));
    assert !OldestExhausted(db.table, c.locked);
    L.ChosenSelected(db, IntentOf(c));
    if c.claimed.Some? {
      assert c.claimed.value.id in chosen;
      A.SingletonElements(chosen, c.claimed.value.id, c.claimed.value.id);
    } else {
      assert chosen == {};
    }
  }

  lemma CallWritesChosen(limit: int, db: L.Db, c: Call)
    requires L.CommittedInv(db) && Ready(db.table) && RunsOn(db, c) && Answers(db.table, c)
    requires !c.fault.LostBefore? && A.Accepted(limit, IntentOf(c))
    ensures Replay(db.table, c) == A.Written(db.table, IntentOf(c), L.Chosen(db, IntentOf(c)), db.clock)
  {
    hide SatisfiesChecks, Claimed, Recovered, FailedOrRetried, Completing, A.ReadAfter;
    if c.ClaimCall? {
      ClaimWritesChosen(db, c);
    }
  }

  lemma ReachableIsReady(limit: int, dbs: seq<L.Db>, ls: seq<L.Label>, k: nat)
    requires limit <= MAX_ATTEMPTS && L.IsRun(limit, dbs, ls) && k < |dbs|
    ensures Ready(dbs[k].table)
  {
    forall id | id in dbs[k].table && dbs[k].table[id].status.Queued?
      ensures dbs[k].table[id].attempts < MAX_ATTEMPTS
    {
      LockedRuns.RowsValid(limit, dbs, ls, k, id);
    }
  }

  /** A worker's call is a transaction of the locked queue: at any point of any run at which
      the call reaches the database, the run can go on, by the steps of one session, to the
      table the call is logged to have made. */
  lemma CallIsTransaction(limit: int, dbs: seq<L.Db>, ls: seq<L.Label>, s: L.Session, c: Call)
    returns (dbs': seq<L.Db>, ls': seq<L.Label>)
    requires limit <= MAX_ATTEMPTS && L.IsRun(limit, dbs, ls) && s !in dbs[|ls|].txns
    requires RunsOn(dbs[|ls|], c) && Answers(dbs[|ls|].table, c) && !c.fault.LostBefore?
    requires A.Accepted(limit, IntentOf(c)) && (c.ClaimCall? ==> c.token !in dbs[|ls|].generated)
    ensures LockedProgress.Continues(limit, dbs, ls, dbs', ls')
    ensures forall k | |ls| <= k < |ls'| :: !ls'[k].Tick? && ls'[k].s == s
    ensures dbs'[|ls'|].table == Replay(dbs[|ls|].table, c) && dbs'[|ls'|].txns == dbs[|ls|].txns
  {
    hide L.Chosen, A.Effect, A.Selects, A.Accepted, A.Written, Replay, Answers, Ready;
    var db, i := dbs[|ls|], IntentOf(c);
    L.InvHolds(limit, dbs, ls, |ls|);
    ReachableIsReady(limit, dbs, ls, |ls|);
    CallWritesChosen(limit, db, c);
    dbs', ls' := dbs, ls;
    if L.Chosen(db, i) == {} {
      NothingWritten(db.table, i, db.clock);
    } else {
      LockedRuns.AloneWritesChosen(db, s, i, true);
      dbs', ls' := LockedProgress.RunTxn(limit, dbs, ls, s, i);
    }
  }

  lemma NothingWritten(t: Table, i: A.Intent, now: Time)
    ensures A.Written(t, i, {}, now) == t
  {
  }

  // ---------- What an attempt achieves ----------

  function Failure(row: Row, code: string, message: string, now: Time): Row {
    if Retries(row) then Requeued(row) else Failing(row, code, message, now)
  }

  // The row as the poll leaves it, given what the evaluation came to.
  function Published(row: Row, w: Setup, env: Env): Row {
    match env.evaluation
    case Raises(code) => Failure(row, Prefix(code, 64), SafeMessage(code), env.persistAt)
    case Unusable => Failure(row, ENGINE_ERROR, ENGINE_ERROR_MESSAGE, env.persistAt)
    case _ => Completing(row, ResultOf(env.evaluation, w.engineVersion), env.persistAt)
  }

  // The column keeps the whole of each message.
  lemma ShortMessages()
    ensures |ENGINE_ERROR| <= 64 && |ENGINE_ERROR_MESSAGE| <= 1000 && forall code :: |SafeMessage(code)| <= 1000
  {
  }

  lemma PersistLands(t: Table, claim: Call, persist: Call, w: Setup, env: Env)
    requires AsksClaim(claim, w, env) && AnswersClaim(t, claim)
    requires claim.claimed.Some? && claim.Handed(claim.claimed.value)
    requires PersistsFor(persist, claim.claimed.value, w, env)
    requires env.persist != LostBefore && env.persistAt < env.claimAt + w.config.lease && env.evaluation != Raises("")
    ensures var row := claim.claimed.value;
            Replay(Replay(t, claim), persist) == Replay(t, claim)[row.id := Published(row, w, env)]
  {
    MessagesAreNotEmpty();
    ShortMessages();
    assert Guarded(Replay(t, claim), claim.claimed.value.id, TokenOf(claim.claimed.value), env.persistAt);
  }

  // The texts a client is shown for a code.
  predicate SaysToClient(code: string, message: string) {
    if code == "ENGINE_TIMEOUT" then message == "The position could not be evaluated within the allowed time."
    else if code == "ENGINE_CRASH" then message == "The chess engine was unavailable while evaluating the position."
    else if code == "ENGINE_SCORE_MISSING" then message == "The chess engine returned no usable evaluation."
    else if code == "ENGINE_CONFIG_INVALID" then message == "The chess engine configuration is invalid."
    else message == "The position could not be evaluated."
  }

  // The claimed row `row` as the evaluation leaves it, column by column.
  predicate ShowsEvaluation(row: Row, r: Row, w: Setup, env: Env) {
    && r.id == row.id && r.fen == row.fen && r.evaluationConfig == row.evaluationConfig
    && r.createdAt == row.createdAt && r.attempts == row.attempts && r.startedAt == row.startedAt
    && r.leaseToken.None? && r.leaseExpiresAt.None?
    && match env.evaluation
       case Score(cp) =>
         && r.status == Completed && r.finishedAt == Some(env.persistAt) && r.engineVersion == w.engineVersion
         && r.evaluationCp == Some(cp) && r.mateWinner.None? && r.mateMoves.None?
       case Mate(winner, moves) =>
         && r.status == Completed && r.finishedAt == Some(env.persistAt) && r.engineVersion == w.engineVersion
         && r.evaluationCp.None? && r.mateMoves == Some(moves)
         && r.mateWinner == Some(if winner.White? then "white" else "black")
       case _ =>
         && r.evaluationCp.None? && r.mateWinner.None? && r.mateMoves.None?
         && if row.attempts < 2 then r.status == Queued && r.errorCode.None?
            else
              && r.status == Failed && r.finishedAt == Some(env.persistAt)
              && r.errorCode.Some? && r.errorMessage.Some?
              && match env.evaluation
                 case Raises(code) =>
                   r.errorCode.value <= code && |r.errorCode.value| <= 64 && SaysToClient(code, r.errorMessage.value)
                   && (|code| <= 64 ==> r.errorCode.value == code)
                 case _ => r.errorCode.value == "ENGINE_ERROR" && SaysToClient("ENGINE_ERROR", r.errorMessage.value)
  }

  lemma PublishedShowsEvaluation(row: Row, w: Setup, env: Env)
    ensures ShowsEvaluation(row, Published(row, w, env), w, env)
  {
  }

  /** With the persist call reaching the database inside the lease, a poll that claims a row
      publishes it: completed with the result, requeued, or failed, and no other row
      differs from what recovery and claim left. */
  lemma HealthyAttemptPublishes(t: Table, calls: seq<Call>, w: Setup, env: Env)
    requires |calls| == 3 && IsAttempt(calls, w, env) && Genuine(t, calls)
    requires env.persist != LostBefore && env.persistAt < env.claimAt + w.config.lease && env.evaluation != Raises("")
    ensures var row := calls[1].claimed.value;
            && ReplayAll(t, calls) == ReplayAll(t, calls[..2])[row.id := Published(row, w, env)]
            && ShowsEvaluation(row, Published(row, w, env), w, env)
  {
    hide Replay, Published, ShowsEvaluation, AnswersClaim;
    PublishedShowsEvaluation(calls[1].claimed.value, w, env);
    assert GenuineAt(t, calls, 1);
    assert calls == calls[..2] + [calls[2]] && calls[..2] == calls[..1] + [calls[1]];
    ReplayOne(t, calls[..1], calls[1]);
    ReplayOne(t, calls[..2], calls[2]);
    PersistLands(ReplayAll(t, calls[..1]), calls[1], calls[2], w, env);
  }

  /** Whatever happened to the row since the claim, if the guard lets the worker's failure
      through, the database does what the worker asked for. */
  lemma RetryChoiceAgrees(limit: int, dbs: seq<L.Db>, ls: seq<L.Label>, i: nat, k: nat, s: L.Session, id: Id,
                          token: Token, code: string, message: string, now: Time)
    requires limit <= MAX_ATTEMPTS && L.IsRun(limit, dbs, ls) && i < k < |dbs|
    requires LockedRuns.CommitsClaim(dbs, ls, i, s, id, token)
    requires id in dbs[k].table && AttemptGuard(dbs[k].table[id], id, token, now)
    ensures id in dbs[i + 1].table
    ensures FailedOrRetried(dbs[k].table[id], code, message, MAX_ATTEMPTS, now).status
            == if Retries(dbs[i + 1].table[id]) then Queued else Failed
  {
    hide A.Effect, L.Chosen;
    L.Refinement(limit, dbs, ls);
    LockedRuns.AbsClaim(limit, dbs, ls, i, s, id, token);
    Fencing.GuardMeansSnapshot(limit, L.AbsStates(dbs), L.AbsOps(limit, dbs, ls), i, k, id, token, now);
    LockedRuns.RowsValid(limit, dbs, ls, k, id);
  }
}
