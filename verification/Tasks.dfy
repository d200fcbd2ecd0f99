/** The queue operations (app/tasks.py): what each does to one row, and the
    operations themselves as methods that assign row fields in place. */
module Tasks {
  import opened Schema

  const MAX_ATTEMPTS := 2
  const LEASE_EXPIRED := "LEASE_EXPIRED"
  const LEASE_EXPIRED_MESSAGE := "The worker lease expired before evaluation finished."

  type Table = map<Id, Row>

  datatype Result = Result(
    evaluationCp: Option<int>,
    mateWinner: Option<string>,
    mateMoves: Option<int>,
    engineVersion: Option<string>)

  datatype Outcome<+T> = Ok(value: T) | ValueError | IntegrityError

  datatype FailOutcome = WasRequeued | WasFailed | Stale

  // ---------- What the operations select ----------

  predicate AttemptGuard(r: Row, id: Id, token: Token, now: Time) {
    && r.id == id
    && r.status.Running?
    && r.leaseToken == Some(token)
    && r.leaseExpiresAt.Some?
    && r.leaseExpiresAt.value > now
  }

  predicate Guarded(t: Table, id: Id, token: Token, now: Time) {
    id in t && AttemptGuard(t[id], id, token, now)
  }

  predicate LeaseExpired(r: Row, now: Time) {
    && r.status.Running?
    && r.leaseExpiresAt.Some?
    && r.leaseExpiresAt.value <= now
  }

  // ORDER BY created_at, id
  predicate Older(a: Row, b: Row) {
    a.createdAt < b.createdAt || (a.createdAt == b.createdAt && a.id < b.id)
  }

  predicate Claimable(t: Table, locked: set<Id>, id: Id) {
    id in t && id !in locked && t[id].status.Queued?
  }

  predicate IsOldest(t: Table, locked: set<Id>, id: Id) {
    && Claimable(t, locked, id)
    && forall other | other in t :: Claimable(t, locked, other) && other != id ==> Older(t[id], t[other])
  }

  predicate OldestAmong(t: Table, candidates: set<Id>, id: Id) {
    id in t && forall other | other in candidates :: other in t && (other == id || Older(t[id], t[other]))
  }

  predicate NoneClaimable(t: Table, locked: set<Id>) {
    forall id | id in t :: !Claimable(t, locked, id)
  }

  // The oldest unlocked queued row has no attempt left.
  predicate OldestExhausted(t: Table, locked: set<Id>) {
    exists id | id in t :: IsOldest(t, locked, id) && t[id].attempts >= MAX_ATTEMPTS
  }

  function Expired(t: Table, locked: set<Id>, now: Time): set<Id> {
    set id | id in t && id !in locked && LeaseExpired(t[id], now)
  }

  predicate ValidResult(result: Result) {
    var ordinary := result.evaluationCp.Some?;
    var mate := result.mateWinner.Some? || result.mateMoves.Some?;
    && ordinary != mate
    && (mate ==>
          && (result.mateWinner == Some(WHITE) || result.mateWinner == Some(BLACK))
          && result.mateMoves.Some? && result.mateMoves.value >= 0)
  }

  // ---------- What the operations write ----------

  function NewRow(id: Id, fen: string, config: Config, now: Time): Row {
    Row(id, fen, Queued, None, None, None, 0, None, None, None, None, None, config, now, None, None)
  }

  function Unanswered(r: Row): Row {
    r.(evaluationCp := None, mateWinner := None, mateMoves := None, errorCode := None, errorMessage := None,
       engineVersion := None, finishedAt := None)
  }

  function Cleared(r: Row): Row {
    Unanswered(r).(leaseToken := None, leaseExpiresAt := None)
  }

  function Claimed(r: Row, token: Token, lease: Time, now: Time): Row {
    Cleared(r).(status := Running, attempts := r.attempts + 1, startedAt := Some(now),
                leaseToken := Some(token), leaseExpiresAt := Some(now + lease))
  }

  function Requeued(r: Row): Row {
    Cleared(r).(status := Queued)
  }

  function Failing(r: Row, code: string, message: string, now: Time): Row {
    Cleared(r).(status := Failed, errorCode := Some(code), errorMessage := Some(message), finishedAt := Some(now))
  }

  // recover_expired's keyword arguments.
  datatype RecoveryPolicy = RecoveryPolicy(maxAttempts: int, code: string, message: string)

  function DefaultPolicy(maxAttempts: int): RecoveryPolicy {
    RecoveryPolicy(maxAttempts, LEASE_EXPIRED, LEASE_EXPIRED_MESSAGE)
  }

  function Recovered(r: Row, policy: RecoveryPolicy, now: Time): Row {
    if r.attempts < policy.maxAttempts then Requeued(r) else Failing(r, policy.code, policy.message, now)
  }

  // s[:n]
  function Prefix(s: string, n: nat): (p: string)
    ensures p <= s && |p| <= n
    ensures p == s || |p| == n
  {
    if |s| <= n then s else s[..n]
  }

  function FailedOrRetried(r: Row, code: string, message: string, maxAttempts: int, now: Time): Row {
    if r.attempts < maxAttempts then Requeued(r) else Failing(r, Prefix(code, 64), Prefix(message, 1000), now)
  }

  function Completing(r: Row, result: Result, now: Time): Row {
    r.(status := Completed, evaluationCp := result.evaluationCp, mateWinner := result.mateWinner,
       mateMoves := result.mateMoves, engineVersion := result.engineVersion, errorCode := None,
       errorMessage := None, leaseToken := None, leaseExpiresAt := None, finishedAt := Some(now))
  }

  function PartlyRecovered(t: Table, ids: set<Id>, policy: RecoveryPolicy, now: Time): Table {
    map id | id in t :: if id in ids then Recovered(t[id], policy, now) else t[id]
  }

  function RecoveredTable(t: Table, locked: set<Id>, policy: RecoveryPolicy, now: Time): Table {
    PartlyRecovered(t, Expired(t, locked, now), policy, now)
  }

  // ---------- Facts about the CHECK predicates ----------

  lemma ClaimedChecks(r: Row, token: Token, lease: Time, now: Time)
    requires SatisfiesChecks(r) && r.status.Queued?
    ensures SatisfiesChecks(Claimed(r, token, lease, now)) <==> r.attempts < MAX_ATTEMPTS
  {
  }

  lemma ReleasedChecks(r: Row, code: string, message: string, now: Time)
    requires SatisfiesChecks(r)
    ensures SatisfiesChecks(Requeued(r)) && SatisfiesChecks(Failing(r, code, message, now))
  {
  }

  lemma CompletingChecks(r: Row, result: Result, now: Time)
    requires SatisfiesChecks(r) && r.status.Running?
    ensures SatisfiesChecks(Completing(r, result, now)) <==> ValidResult(result)
  {
  }

  // ---------- Facts about the query and the recovery pass ----------

  // What ORDER BY created_at, id LIMIT 1 picks, column by column.
  predicate FirstInLine(t: Table, locked: set<Id>, id: Id) {
    && id in t && t[id].status == Queued && id !in locked
    && forall other | other in t && t[other].status == Queued && other !in locked && other != id ::
         t[id].createdAt < t[other].createdAt || (t[id].createdAt == t[other].createdAt && id < other)
  }

  lemma OldestIsFirstInLine(t: Table, locked: set<Id>, id: Id)
    requires forall other | other in t :: t[other].id == other
    ensures IsOldest(t, locked, id) <==> FirstInLine(t, locked, id)
  {
  }

  /** Whenever some queued row is unlocked, ORDER BY ... LIMIT 1 has an answer. */
  lemma {:induction false} OldestExists(t: Table, locked: set<Id>, candidates: set<Id>)
    requires candidates != {}
    requires forall id | id in candidates :: Claimable(t, locked, id) && t[id].id == id
    ensures exists id :: id in candidates && OldestAmong(t, candidates, id)
  {
    var first :| first in candidates;
    if candidates != {first} {
      OldestExists(t, locked, candidates - {first});
      var best :| best in candidates - {first} && OldestAmong(t, candidates - {first}, best);
      assert OldestAmong(t, candidates, if Older(t[first], t[best]) then first else best);
    } else {
      assert OldestAmong(t, candidates, first);
    }
  }

  /** ... and only one, since ids break ties between equal creation times. */
  lemma OldestIsUnique(t: Table, locked: set<Id>, candidates: set<Id>, id: Id)
    requires forall other | other in t :: t[other].id == other
    requires candidates == set other | other in t && Claimable(t, locked, other)
    requires id in candidates && OldestAmong(t, candidates, id)
    ensures forall other :: IsOldest(t, locked, other) <==> other == id
  {
  }

  /** One pass leaves no lapsed lease among the rows it could lock, so a second pass at
      the same reading finds nothing and changes nothing. */
  lemma RecoveryIsExhaustive(t: Table, locked: set<Id>, policy: RecoveryPolicy, now: Time)
    ensures var t' := RecoveredTable(t, locked, policy, now);
            && t'.Keys == t.Keys
            && Expired(t', locked, now) == {}
            && RecoveredTable(t', locked, policy, now) == t'
            && forall id | id in t && id in locked :: t'[id] == t[id]
  {
  }

  lemma RecoverOneMore(t: Table, selected: set<Id>, pending: set<Id>, id: Id, policy: RecoveryPolicy, now: Time)
    requires pending <= selected <= t.Keys && id in pending
    ensures |pending - {id}| == |pending| - 1
    ensures var partly := PartlyRecovered(t, selected - pending, policy, now);
            partly[id := Recovered(partly[id], policy, now)]
            == PartlyRecovered(t, selected - (pending - {id}), policy, now)
  {
  }

  // ---------- The mutable row and table ----------

  class Task {
    const id: Id
    const fen: string
    const evaluationConfig: Config
    const createdAt: Time
    var status: Status
    var evaluationCp: Option<int>
    var mateWinner: Option<string>
    var mateMoves: Option<int>
    var attempts: int
    var leaseToken: Option<Token>
    var leaseExpiresAt: Option<Time>
    var errorCode: Option<string>
    var errorMessage: Option<string>
    var engineVersion: Option<string>
    var startedAt: Option<Time>
    var finishedAt: Option<Time>

    function View(): (r: Row)
      reads this
    {
      Row(id, fen, status, evaluationCp, mateWinner, mateMoves, attempts, leaseToken, leaseExpiresAt,
          errorCode, errorMessage, engineVersion, evaluationConfig, createdAt, startedAt, finishedAt)
    }

    constructor (id: Id, fen: string, config: Config, now: Time)
      ensures View() == NewRow(id, fen, config, now)
    {
      this.id, this.fen, this.evaluationConfig, this.createdAt := id, fen, config, now;
      status, attempts := Queued, 0;
      evaluationCp, mateWinner, mateMoves, engineVersion := None, None, None, None;
      leaseToken, leaseExpiresAt, errorCode, errorMessage := None, None, None, None;
      startedAt, finishedAt := None, None;
    }

    method ClearAttempt()
      modifies this
      ensures View() == Cleared(old(View()))
    {
      leaseToken := None;
      leaseExpiresAt := None;
      ClearAnswer();
    }

    // What the claim and _clear_attempt both drop.
    method ClearAnswer()
      modifies this
      ensures View() == Unanswered(old(View()))
    {
      evaluationCp := None;
      mateWinner := None;
      mateMoves := None;
      errorCode := None;
      errorMessage := None;
      engineVersion := None;
      finishedAt := None;
    }

    method Claim(token: Token, lease: Time, now: Time)
      modifies this
      ensures View() == Claimed(old(View()), token, lease, now)
    {
      status := Running;
      attempts := attempts + 1;
      leaseToken := Some(token);
      startedAt := Some(now);
      leaseExpiresAt := Some(now + lease);
      ClearAnswer();
    }

    method Requeue()
      modifies this
      ensures View() == Requeued(old(View()))
    {
      ClearAttempt();
      status := Queued;
    }

    method Fail(code: string, message: string, now: Time)
      modifies this
      ensures View() == Failing(old(View()), code, message, now)
    {
      ClearAttempt();
      status := Failed;
      errorCode := Some(code);
      errorMessage := Some(message);
      finishedAt := Some(now);
    }

    method Complete(result: Result, now: Time)
      modifies this
      ensures View() == Completing(old(View()), result, now)
    {
      status := Completed;
      evaluationCp := result.evaluationCp;
      mateWinner := result.mateWinner;
      mateMoves := result.mateMoves;
      engineVersion := result.engineVersion;
      errorCode := None;
      errorMessage := None;
      leaseToken := None;
      leaseExpiresAt := None;
      finishedAt := Some(now);
    }

    // What a rolled-back transaction leaves behind.
    method Rollback(r: Row)
      requires r.id == id && r.fen == fen && r.evaluationConfig == evaluationConfig && r.createdAt == createdAt
      modifies this
      ensures View() == r
    {
      status, attempts := r.status, r.attempts;
      evaluationCp, mateWinner, mateMoves := r.evaluationCp, r.mateWinner, r.mateMoves;
      leaseToken, leaseExpiresAt, engineVersion := r.leaseToken, r.leaseExpiresAt, r.engineVersion;
      errorCode, errorMessage, startedAt, finishedAt := r.errorCode, r.errorMessage, r.startedAt, r.finishedAt;
    }
  }

  /** The committed table. Each method is one transaction run from begin to commit;
      `locked` names the rows other sessions hold locks on, `now` is the transaction's
      single clock reading. Interleaved transactions are the subject of LockedQueue. */
  class TaskTable {
    var rows: map<Id, Task>

    // The committed rows as values.
    ghost var contents: Table

    // The database admits a committed row only when it satisfies every CHECK.
    ghost predicate Valid()
      reads this, rows.Values
    {
      && contents.Keys == rows.Keys
      && forall id | id in rows :: rows[id].id == id && rows[id].View() == contents[id] && SatisfiesChecks(contents[id])
    }

    function View(): (t: Table)
      requires Valid()
      reads this, rows.Values
      ensures t == contents
    {
      map id | id in rows :: rows[id].View()
    }

    // The row objects already hold `row` for `id`; all others are as before.
    ghost method Record(id: Id, row: Row)
      requires id in rows && contents.Keys == rows.Keys
      requires rows[id].View() == row && row.id == id && SatisfiesChecks(row)
      requires forall other | other in rows && other != id ::
          rows[other].id == other && rows[other].View() == contents[other] && SatisfiesChecks(contents[other])
      modifies this`contents
      ensures Valid() && contents == old(contents)[id := row]
    {
      hide SatisfiesChecks;
      contents := contents[id := row];
    }

    constructor ()
      ensures Valid() && contents == map[]
    {
      rows, contents := map[], map[];
    }

    method CreateTask(id: Id, fen: string, config: Config, now: Time) returns (created: Outcome<()>)
      requires Valid()
      modifies this
      ensures Valid()
      ensures id in old(contents) ==> created == IntegrityError && contents == old(contents)
      ensures id !in old(contents) ==>
              created == Ok(()) && contents == old(contents)[id := NewRow(id, fen, config, now)]
    {
      if id in rows {
        return IntegrityError;
      }
      var task := new Task(id, fen, config, now);
      rows, contents := rows[id := task], contents[id := task.View()];
      return Ok(());
    }

    method ClaimOne(lease: Time, token: Token, now: Time, locked: set<Id>) returns (claimed: Outcome<Option<Row>>)
      requires Valid()
      modifies this`contents, rows.Values
      ensures Valid()
      ensures claimed == ValueError <==> lease <= 0
      ensures claimed == Ok(None) <==> lease > 0 && NoneClaimable(old(contents), locked)
      ensures claimed == IntegrityError <==> lease > 0 && OldestExhausted(old(contents), locked)
      ensures claimed.Ok? && claimed.value.Some? ==>
              var row := claimed.value.value;
              && IsOldest(old(contents), locked, row.id) && FirstInLine(old(contents), locked, row.id)
              && row == Claimed(old(contents)[row.id], token, lease, now)
              && contents == old(contents)[row.id := row]
      ensures !(claimed.Ok? && claimed.value.Some?) ==> contents == old(contents)
    {
      if lease <= 0 {
        return ValueError;
      }
      var t := View();
      var candidates := set id | id in t && Claimable(t, locked, id);
      if candidates == {} {
        assert forall id | id in t && Claimable(t, locked, id) :: id in candidates;
        return Ok(None);
      }
      OldestExists(t, locked, candidates);
      var id :| id in candidates && OldestAmong(t, candidates, id);
      OldestIsUnique(t, locked, candidates, id);
      OldestIsFirstInLine(t, locked, id);
      var admitted := ClaimRow(id, lease, token, now);
      if !admitted {
        return IntegrityError;
      }
      return Ok(Some(rows[id].View()));
    }

    // Assigns the claimed row's fields and flushes; a violated CHECK rolls the claim back.
    method ClaimRow(id: Id, lease: Time, token: Token, now: Time) returns (admitted: bool)
      requires Valid() && id in rows && rows[id].status.Queued?
      modifies this`contents, rows.Values
      ensures Valid()
      ensures admitted <==> old(contents)[id].attempts < MAX_ATTEMPTS
      ensures contents == if admitted then old(contents)[id := Claimed(old(contents)[id], token, lease, now)]
                          else old(contents)
    {
      hide SatisfiesChecks, Claimed;
      var task := rows[id];
      var before := task.View();
      ClaimedChecks(before, token, lease, now);
      task.Claim(token, lease, now);
      admitted := SatisfiesChecks(task.View());
      if !admitted {
        task.Rollback(before);
      }
      Record(id, task.View());
    }

    method RecoverExpired(policy: RecoveryPolicy, now: Time, locked: set<Id>) returns (recovered: Outcome<nat>)
      requires Valid()
      modifies this`contents, rows.Values
      ensures Valid()
      ensures policy.maxAttempts < 1 ==> recovered == ValueError && contents == old(contents)
      ensures policy.maxAttempts >= 1 ==>
              && recovered == Ok(|Expired(old(contents), locked, now)|)
              && contents == RecoveredTable(old(contents), locked, policy, now)
    {
      hide SatisfiesChecks, Recovered;
      if policy.maxAttempts < 1 {
        return ValueError;
      }
      ghost var before := contents;
      var selected := Expired(View(), locked, now);
      var pending := selected;
      var count := 0;
      while pending != {}
        invariant pending <= selected
        invariant count == |selected| - |pending|
        invariant Valid()
        invariant contents == PartlyRecovered(before, selected - pending, policy, now)
        decreases pending
      {
        var id :| id in pending;
        count := count + 1;
        RecoverOneMore(before, selected, pending, id, policy, now);
        RecoverRow(id, policy, now);
        pending := pending - {id};
      }
      assert selected - {} == selected;
      return Ok(count);
    }

    method RecoverRow(id: Id, policy: RecoveryPolicy, now: Time)
      requires Valid() && id in rows
      modifies this`contents, rows.Values
      ensures Valid()
      ensures contents == old(contents)[id := Recovered(old(contents)[id], policy, now)]
    {
      var task := rows[id];
      ReleasedChecks(task.View(), policy.code, policy.message, now);
      if task.attempts < policy.maxAttempts {
        task.Requeue();
      } else {
        task.Fail(policy.code, policy.message, now);
      }
      Record(id, task.View());
    }

    method CompleteTask(id: Id, token: Token, result: Result, now: Time) returns (done: Outcome<bool>)
      requires Valid()
      modifies this`contents, rows.Values
      ensures Valid()
      ensures done == ValueError <==> !ValidResult(result)
      ensures done == Ok(true) <==>
              ValidResult(result) && Guarded(old(contents), id, token, now)
      ensures !done.IntegrityError?
      ensures contents == if ValidResult(result) && Guarded(old(contents), id, token, now)
                          then old(contents)[id := Completing(old(contents)[id], result, now)]
                          else old(contents)
    {
      if !ValidResult(result) {
        return ValueError;
      }
      if id !in rows || !AttemptGuard(rows[id].View(), id, token, now) {
        return Ok(false);
      }
      var task := rows[id];
      CompletingChecks(task.View(), result, now);
      task.Complete(result, now);
      Record(id, task.View());
      return Ok(true);
    }

    method FailOrRetry(id: Id, token: Token, code: string, message: string, maxAttempts: int, now: Time)
      returns (outcome: Outcome<FailOutcome>)
      requires Valid()
      modifies this`contents, rows.Values
      ensures Valid()
      ensures outcome == ValueError <==> code == "" || message == ""
      ensures outcome == Ok(Stale) <==>
              code != "" && message != "" && !Guarded(old(contents), id, token, now)
      ensures outcome == Ok(WasRequeued) ==> old(contents)[id].attempts < maxAttempts
      ensures outcome == Ok(WasFailed) ==> old(contents)[id].attempts >= maxAttempts
      ensures !outcome.IntegrityError?
      ensures contents == if code != "" && message != "" && Guarded(old(contents), id, token, now)
                          then old(contents)[id := FailedOrRetried(old(contents)[id], code, message, maxAttempts, now)]
                          else old(contents)
    {
      if code == "" || message == "" {
        return ValueError;
      }
      if id !in rows || !AttemptGuard(rows[id].View(), id, token, now) {
        return Ok(Stale);
      }
      var task := rows[id];
      ReleasedChecks(task.View(), Prefix(code, 64), Prefix(message, 1000), now);
      if task.attempts < maxAttempts {
        task.Requeue();
        Record(id, task.View());
        return Ok(WasRequeued);
      }
      task.Fail(Prefix(code, 64), Prefix(message, 1000), now);
      Record(id, task.View());
      return Ok(WasFailed);
    }
  }
}
