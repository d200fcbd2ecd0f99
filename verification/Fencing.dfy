/** What the lease token protects, over whole runs of the queue. */
module Fencing {
  import opened Schema
  import opened Tasks
  import opened AtomicQueue

  // ---------- Nothing is lost ----------

  ghost predicate SameTask(a: Row, b: Row) {
    a.id == b.id && a.fen == b.fen && a.evaluationConfig == b.evaluationConfig && a.createdAt == b.createdAt
  }

  function Submissions(ops: seq<Op>): nat {
    if ops == [] then 0 else Submissions(ops[..|ops| - 1]) + if ops[|ops| - 1].Submit? then 1 else 0
  }

  function WithStatus(t: Table, s: Status): set<Id> {
    set id | id in t && t[id].status == s
  }

  /** A committed task stays in the table with the position and settings it was submitted with. */
  lemma {:induction false} TasksPersist(limit: int, qs: seq<Queue>, ops: seq<Op>, j: nat, k: nat, id: Id)
    requires IsRun(limit, qs, ops) && j <= k < |qs| && id in qs[j].table
    ensures id in qs[k].table && SameTask(qs[j].table[id], qs[k].table[id])
  {
    if j < k {
      TasksPersist(limit, qs, ops, j, k - 1, id);
      assert StepAt(limit, qs, ops, k - 1);
    }
  }

  /** The four statuses partition the table, and the table has one row per submission. */
  lemma {:induction false} Conservation(limit: int, qs: seq<Queue>, ops: seq<Op>, k: nat)
    requires limit <= MAX_ATTEMPTS && IsRun(limit, qs, ops) && k < |qs|
    ensures var t := qs[k].table;
            |WithStatus(t, Queued)| + |WithStatus(t, Running)| + |WithStatus(t, Completed)| + |WithStatus(t, Failed)|
            == |t| == Submissions(ops[..k])
  {
    InvHolds(limit, qs, ops, k);
    StatusesPartition(qs[k].table);
    if k > 0 {
      Conservation(limit, qs, ops, k - 1);
      assert StepAt(limit, qs, ops, k - 1);
      assert ops[..k][..k - 1] == ops[..k - 1];
      SizeStep(qs[k - 1], ops[k - 1]);
    }
  }

  lemma SizeStep(q: Queue, op: Op)
    requires op.Submit? ==> op.id !in q.table
    ensures |Do(q, op).table| == |q.table| + if op.Submit? then 1 else 0
  {
    var t := Do(q, op).table;
    assert |t| == |t.Keys| && |q.table| == |q.table.Keys|;
    assert t.Keys == if op.Submit? then q.table.Keys + {op.id} else q.table.Keys;
  }

  lemma StatusesPartition(t: Table)
    requires forall id | id in t :: CkStatus(t[id])
    ensures |WithStatus(t, Queued)| + |WithStatus(t, Running)| + |WithStatus(t, Completed)| + |WithStatus(t, Failed)|
            == |t|
  {
    var open := WithStatus(t, Queued) + WithStatus(t, Running);
    var closed := WithStatus(t, Completed) + WithStatus(t, Failed);
    assert open + closed == t.Keys;
    assert |t| == |t.Keys|;
  }

  // ---------- Terminal rows ----------

  /** Once terminal, a row never changes again and every late persist call is stale. */
  lemma {:induction false} TerminalIsFinal(limit: int, qs: seq<Queue>, ops: seq<Op>, j: nat, k: nat, id: Id)
    requires IsRun(limit, qs, ops) && j <= k < |qs| && id in qs[j].table && qs[j].table[id].status.Terminal()
    ensures id in qs[k].table && qs[k].table[id] == qs[j].table[id]
    ensures forall token, now :: !AttemptGuard(qs[k].table[id], id, token, now)
  {
    if j < k {
      TerminalIsFinal(limit, qs, ops, j, k - 1, id);
      assert StepAt(limit, qs, ops, k - 1);
    }
  }

  // Claims take a queued row to running, stamp its start and use up an attempt; everything
  // else happens to a running row, keeps its start and attempts, takes its lease away, and
  // either requeues it or ends it at that reading. Only terminal rows show an answer.
  predicate Legal(limit: int, i: Intent, r: Row, r': Row, now: Time) {
    && (i.Claim? ==>
          && r.status.Queued? && r'.status.Running? && r'.attempts == r.attempts + 1 && r'.startedAt == Some(now)
          && r'.leaseToken == Some(i.token) && r'.leaseExpiresAt == Some(now + i.lease))
    && (!i.Claim? ==>
          && r.status.Running? && r'.attempts == r.attempts && r'.startedAt == r.startedAt
          && r'.leaseToken.None? && r'.leaseExpiresAt.None?
          && (r'.status.Queued? <==> !i.Complete? && r.attempts < (if i.Recover? then limit else MAX_ATTEMPTS))
          && (!r'.status.Queued? ==> r'.finishedAt == Some(now)))
    && (!r'.status.Terminal() ==> Blank(r'))
  }

  lemma EffectIsLegal(limit: int, i: Intent, r: Row, now: Time)
    requires Accepted(limit, i) && Selects(i, r, now)
    ensures SameTask(r, Effect(i, r, now)) && Legal(limit, i, r, Effect(i, r, now), now)
  {
  }

  /** The life of a row: it changes only by an operation that selected it, and legally. */
  lemma TransitionsAreLegal(limit: int, q: Queue, op: Op, id: Id)
    requires Enabled(limit, q, op) && id in q.table && Do(q, op).table[id] != q.table[id]
    ensures op.Apply? && id in op.ids
    ensures var r, r' := q.table[id], Do(q, op).table[id];
            SameTask(r, r') && Legal(limit, op.intent, r, r', op.now)
  {
    EffectIsLegal(limit, op.intent, q.table[id], op.now);
  }

  predicate Blank(r: Row) {
    && r.evaluationCp.None? && r.mateWinner.None? && r.mateMoves.None? && r.engineVersion.None?
    && r.errorCode.None? && r.errorMessage.None? && r.finishedAt.None?
  }

  ghost predicate EntersTerminal(qs: seq<Queue>, k: nat, id: Id)
    requires k + 1 < |qs|
  {
    && id in qs[k].table && id in qs[k + 1].table
    && !qs[k].table[id].status.Terminal() && qs[k + 1].table[id].status.Terminal()
  }

  // A terminal row shows what the transaction that ended it was given.
  predicate Publishes(r: Row, i: Intent) {
    match i
    case Claim(_, _) => false
    case Recover(policy) =>
      r.status.Failed? && r.errorCode == Some(policy.code) && r.errorMessage == Some(policy.message)
    case Complete(_, _, result) =>
      && r.status.Completed?
      && Result(r.evaluationCp, r.mateWinner, r.mateMoves, r.engineVersion) == result
    case FailOrRetry(_, _, code, message) =>
      r.status.Failed? && r.errorCode == Some(Prefix(code, 64)) && r.errorMessage == Some(Prefix(message, 1000))
  }

  // Under whose authority `op` ends the row: the holder's while the lease lasts, recovery's
  // once it has lapsed.
  predicate EndedBy(r: Row, tokens: seq<Token>, i: Intent, now: Time) {
    && r.status.Running? && r.leaseExpiresAt.Some? && tokens != [] && r.leaseToken == Some(tokens[|tokens| - 1])
    && match i
       case Claim(_, _) => false
       case Recover(_) => r.leaseExpiresAt.value <= now
       case Complete(_, token, _) => token == tokens[|tokens| - 1] && now < r.leaseExpiresAt.value
       case FailOrRetry(_, token, _, _) => token == tokens[|tokens| - 1] && now < r.leaseExpiresAt.value
  }

  lemma EndingEffect(limit: int, i: Intent, id: Id, r: Row, tokens: seq<Token>, now: Time, clock: Time)
    requires RowInv(id, r, tokens, clock) && Accepted(limit, i) && Selects(i, r, now)
    requires Effect(i, r, now).status.Terminal()
    ensures EndedBy(r, tokens, i, now) && Publishes(Effect(i, r, now), i)
  {
    hide SatisfiesChecks, TimesCoherent;
  }

  lemma EntersOnce(limit: int, qs: seq<Queue>, ops: seq<Op>, j: nat, k: nat, id: Id)
    requires IsRun(limit, qs, ops) && j < |ops| && k < |ops| && EntersTerminal(qs, j, id) && EntersTerminal(qs, k, id)
    ensures j == k
  {
    if j < k {
      TerminalIsFinal(limit, qs, ops, j + 1, k, id);
    } else if k < j {
      TerminalIsFinal(limit, qs, ops, k + 1, j, id);
    }
  }

  /** A task becomes terminal at most once, and only while the token of its most recent
      claim is on the row: published by the holder of that token inside its lease, or by
      recovery after the lease lapsed. */
  lemma Fenced(limit: int, qs: seq<Queue>, ops: seq<Op>, k: nat, id: Id)
    requires limit <= MAX_ATTEMPTS && IsRun(limit, qs, ops) && k < |ops| && EntersTerminal(qs, k, id)
    ensures ops[k].Apply? && id in ops[k].ids && id in qs[k].history
    ensures EndedBy(qs[k].table[id], qs[k].history[id], ops[k].intent, ops[k].now)
    ensures Publishes(qs[k + 1].table[id], ops[k].intent)
    ensures forall j: nat | j < |ops| && EntersTerminal(qs, j, id) :: j == k
  {
    hide Effect, EndedBy, Publishes, RowInv, TokensDistinct;
    assert StepAt(limit, qs, ops, k);
    InvHolds(limit, qs, ops, k);
    var q, op := qs[k], ops[k];
    EndingEffect(limit, op.intent, id, q.table[id], q.history[id], op.now, q.clock);
    forall j: nat | j < |ops| && EntersTerminal(qs, j, id)
      ensures j == k
    {
      EntersOnce(limit, qs, ops, j, k, id);
    }
  }

  // ---------- A claim and its holder ----------

  ghost predicate ClaimsAt(ops: seq<Op>, k: nat, id: Id, token: Token)
    requires k < |ops|
  {
    ops[k].Apply? && ops[k].intent.Claim? && ops[k].intent.token == token && id in ops[k].ids
  }

  lemma {:induction false} HistoryGrows(limit: int, qs: seq<Queue>, ops: seq<Op>, j: nat, k: nat, id: Id)
    requires IsRun(limit, qs, ops) && j <= k < |qs| && id in qs[j].history
    ensures id in qs[k].history && qs[j].history[id] <= qs[k].history[id]
    ensures id in qs[j].table ==> id in qs[k].table
  {
    if j < k {
      HistoryGrows(limit, qs, ops, j, k - 1, id);
      assert StepAt(limit, qs, ops, k - 1);
      if ops[k - 1].Submit? {
        TablesMatch(limit, qs, ops, k - 1);
      }
    }
  }

  lemma {:induction false} TablesMatch(limit: int, qs: seq<Queue>, ops: seq<Op>, k: nat)
    requires IsRun(limit, qs, ops) && k < |qs|
    ensures qs[k].table.Keys == qs[k].history.Keys
  {
    if k > 0 {
      TablesMatch(limit, qs, ops, k - 1);
      assert StepAt(limit, qs, ops, k - 1);
    }
  }

  /** From a claim on, the row either still is exactly what the worker was handed, or no
      longer carries its token. */
  lemma {:induction false} SnapshotOrGone(limit: int, qs: seq<Queue>, ops: seq<Op>, i: nat, k: nat, id: Id,
                                          token: Token)
    requires limit <= MAX_ATTEMPTS && IsRun(limit, qs, ops) && i < k < |qs| && ClaimsAt(ops, i, id, token)
    ensures id in qs[i + 1].table && SnapshotOrGoneIn(qs[k], id, qs[i + 1].table[id], token)
    ensures qs[i + 1].table[id].leaseToken == Some(token) && qs[i + 1].table[id].status.Running?
  {
    assert StepAt(limit, qs, ops, k - 1);
    if i + 1 < k {
      InvHolds(limit, qs, ops, k - 1);
      SnapshotOrGone(limit, qs, ops, i, k - 1, id, token);
      SnapshotStep(limit, qs[k - 1], ops[k - 1], id, qs[i + 1].table[id], token);
    } else {
      TablesMatch(limit, qs, ops, i);
      assert qs[k].history[id] == qs[i].history[id] + [token];
    }
  }

  ghost predicate SnapshotOrGoneIn(q: Queue, id: Id, snapshot: Row, token: Token) {
    && id in q.table && id in q.history && token in q.history[id]
    && (q.table[id] == snapshot || q.table[id].leaseToken != Some(token))
  }

  lemma SnapshotStep(limit: int, q: Queue, op: Op, id: Id, snapshot: Row, token: Token)
    requires Inv(q) && Enabled(limit, q, op) && snapshot.status.Running?
    requires SnapshotOrGoneIn(q, id, snapshot, token)
    ensures SnapshotOrGoneIn(Do(q, op), id, snapshot, token)
  {
    hide SatisfiesChecks, TimesCoherent, AnswersMatch, TokensDistinct;
    if op.Apply? && id in op.ids {
      var r, i := q.table[id], op.intent;
      assert Do(q, op).table[id] == Effect(i, r, op.now);
      if i.Claim? {
        assert i.token != token;
      } else {
        assert Effect(i, r, op.now).leaseToken == None;
      }
    }
  }

  /** Whenever the guard lets a persist call through, the row is the snapshot its worker
      claimed. In particular the attempt count agrees, so the worker's `attempts < 2`
      choice between retry and failure is the one the database makes. */
  lemma GuardMeansSnapshot(limit: int, qs: seq<Queue>, ops: seq<Op>, i: nat, k: nat, id: Id, token: Token, now: Time)
    requires limit <= MAX_ATTEMPTS && IsRun(limit, qs, ops) && i < k < |qs| && ClaimsAt(ops, i, id, token)
    requires id in qs[k].table && AttemptGuard(qs[k].table[id], id, token, now)
    ensures id in qs[i + 1].table && qs[k].table[id] == qs[i + 1].table[id]
    ensures forall code, message ::
        FailedOrRetried(qs[k].table[id], code, message, MAX_ATTEMPTS, now).status
        == if qs[i + 1].table[id].attempts < 2 then Queued else Failed
  {
    SnapshotOrGone(limit, qs, ops, i, k, id, token);
  }

  /** Only the claim that issued a token can ever pass the guard with it, and only for its
      own row: of all claims made so far, at most one is valid for each row. */
  lemma OneValidClaim(limit: int, qs: seq<Queue>, ops: seq<Op>, i: nat, j: nat, k: nat, id: Id,
                      a: Id, s: Token, b: Id, t: Token, now: Time)
    requires limit <= MAX_ATTEMPTS && IsRun(limit, qs, ops) && i < k < |qs| && j < k
    requires ClaimsAt(ops, i, a, s) && ClaimsAt(ops, j, b, t)
    requires id in qs[k].table && AttemptGuard(qs[k].table[id], id, s, now) && AttemptGuard(qs[k].table[id], id, t, now)
    ensures i == j && a == b == id && s == t
  {
    SnapshotOrGone(limit, qs, ops, i, k, a, s);
    SnapshotOrGone(limit, qs, ops, j, k, b, t);
    InvHolds(limit, qs, ops, k);
    if i < j {
      TokensIssuedOnce(limit, qs, ops, i, j, a, b, s);
    } else if j < i {
      TokensIssuedOnce(limit, qs, ops, j, i, b, a, s);
    }
    assert StepAt(limit, qs, ops, i);
  }

  /** Tokens of different claims differ. */
  lemma TokensIssuedOnce(limit: int, qs: seq<Queue>, ops: seq<Op>, i: nat, j: nat, a: Id, b: Id, token: Token)
    requires limit <= MAX_ATTEMPTS && IsRun(limit, qs, ops) && i < j < |ops| && ClaimsAt(ops, i, a, token)
    ensures !ClaimsAt(ops, j, b, token)
  {
    SnapshotOrGone(limit, qs, ops, i, j, a, token);
    InvHolds(limit, qs, ops, j);
    assert StepAt(limit, qs, ops, j);
  }

  /** At each reading a running row is either held, by exactly the token of its last claim,
      or recoverable; never both and never neither. */
  lemma HeldOrRecoverable(limit: int, qs: seq<Queue>, ops: seq<Op>, k: nat, id: Id, now: Time)
    requires limit <= MAX_ATTEMPTS && IsRun(limit, qs, ops) && k < |qs|
    requires id in qs[k].table && qs[k].table[id].status.Running?
    ensures id in qs[k].history
    ensures var r, tokens := qs[k].table[id], qs[k].history[id];
            && tokens != []
            && (LeaseExpired(r, now) <==> !AttemptGuard(r, id, tokens[|tokens| - 1], now))
            && forall token | token != tokens[|tokens| - 1] :: !AttemptGuard(r, id, token, now)
  {
    InvHolds(limit, qs, ops, k);
  }

  ghost predicate Presents(op: Op, token: Token) {
    op.Apply? && (op.intent.Complete? || op.intent.FailOrRetry?) && op.intent.token == token
  }

  // What the claim at step i wrote, and until when it holds.
  lemma ClaimedRow(limit: int, qs: seq<Queue>, ops: seq<Op>, i: nat, id: Id, token: Token)
    requires limit <= MAX_ATTEMPTS && IsRun(limit, qs, ops) && i < |ops| && ClaimsAt(ops, i, id, token)
    ensures id in qs[i + 1].table
    ensures var r := qs[i + 1].table[id];
            && r.id == id && r.status.Running? && r.leaseToken == Some(token)
            && r.leaseExpiresAt == Some(ops[i].now + ops[i].intent.lease)
  {
    hide SatisfiesChecks, TimesCoherent, TokensDistinct;
    InvHolds(limit, qs, ops, i);
    assert StepAt(limit, qs, ops, i);
  }

  /** A lease holds: until its expiry instant passes, a claimed row changes only through a
      call presenting its token, so the holder's own call finds the guard open. */
  lemma {:induction false} LeaseHeld(limit: int, qs: seq<Queue>, ops: seq<Op>, i: nat, k: nat, id: Id, token: Token)
    requires limit <= MAX_ATTEMPTS && IsRun(limit, qs, ops) && i < k < |qs| && ClaimsAt(ops, i, id, token)
    requires forall j | i < j < k :: !Presents(ops[j], token)
    requires qs[k].clock < ops[i].now + ops[i].intent.lease
    ensures id in qs[i + 1].table && id in qs[k].table && qs[k].table[id] == qs[i + 1].table[id]
    ensures forall now | now < ops[i].now + ops[i].intent.lease :: AttemptGuard(qs[k].table[id], id, token, now)
  {
    ClaimedRow(limit, qs, ops, i, id, token);
    if i + 1 < k {
      assert StepAt(limit, qs, ops, k - 1);
      ClockAdvances(qs[k - 1], ops[k - 1]);
      LeaseHeld(limit, qs, ops, i, k - 1, id, token);
      assert AttemptGuard(qs[k - 1].table[id], id, token, qs[k].clock);
      LeaseStep(limit, qs[k - 1], ops[k - 1], id, token, ops[i].now + ops[i].intent.lease);
    }
  }

  lemma ClockAdvances(q: Queue, op: Op)
    ensures q.clock <= Do(q, op).clock
  {
  }

  lemma LeaseStep(limit: int, q: Queue, op: Op, id: Id, token: Token, expiry: Time)
    requires Enabled(limit, q, op) && !Presents(op, token) && q.clock < expiry
    requires id in q.table && q.table[id].status.Running?
    requires q.table[id].leaseToken == Some(token) && q.table[id].leaseExpiresAt == Some(expiry)
    ensures id in Do(q, op).table && Do(q, op).table[id] == q.table[id]
  {
  }
}
