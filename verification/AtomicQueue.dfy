/** The queue as if every transaction were one indivisible step. A transaction is an
    intent applied to a set of rows at one clock reading; LockedQueue shows that the
    interleaved, locking transactions of app/tasks.py are simulated by this machine. */
module AtomicQueue {
  import opened Schema
  import opened Tasks

  datatype Intent =
    | Claim(token: Token, lease: Time)
    | Recover(policy: RecoveryPolicy)
    | Complete(id: Id, token: Token, result: Result)
    | FailOrRetry(id: Id, token: Token, code: string, message: string)

  // Arguments the operation does not answer with ValueError. `limit` is the worker's
  // configured max_attempts, which only recovery receives; fail_or_retry is always
  // called with its default.
  predicate Accepted(limit: int, i: Intent) {
    match i
    case Claim(_, lease) => lease > 0
    case Recover(policy) => policy.maxAttempts == limit && limit >= 1
    case Complete(_, _, result) => ValidResult(result)
    case FailOrRetry(_, _, code, message) => code != "" && message != ""
  }

  predicate Selects(i: Intent, r: Row, now: Time) {
    match i
    case Claim(_, _) => r.status.Queued?
    case Recover(_) => LeaseExpired(r, now)
    case Complete(id, token, _) => AttemptGuard(r, id, token, now)
    case FailOrRetry(id, token, _, _) => AttemptGuard(r, id, token, now)
  }

  function Effect(i: Intent, r: Row, now: Time): Row {
    match i
    case Claim(token, lease) => Claimed(r, token, lease, now)
    case Recover(policy) => Recovered(r, policy, now)
    case Complete(_, _, result) => Completing(r, result, now)
    case FailOrRetry(_, _, code, message) => FailedOrRetried(r, code, message, MAX_ATTEMPTS, now)
  }

  // A reading taken while this version of the row was already committed.
  predicate ReadAfter(r: Row, now: Time) {
    r.createdAt <= now && (r.startedAt.Some? ==> r.startedAt.value <= now)
  }

  // `history` lists, for each task, the tokens of its committed claims in order.
  datatype Queue = Queue(table: Table, history: map<Id, seq<Token>>, clock: Time)

  datatype Op =
    | Stutter
    | Tick(delta: nat)
    | Submit(id: Id, fen: string, config: Config, createdAt: Time)
    | Apply(intent: Intent, ids: set<Id>, now: Time)

  const EMPTY := Queue(map[], map[], 0)

  predicate Fresh(history: map<Id, seq<Token>>, token: Token) {
    forall id | id in history :: token !in history[id]
  }

  function Written(t: Table, i: Intent, ids: set<Id>, now: Time): Table {
    map id | id in t :: if id in ids then Effect(i, t[id], now) else t[id]
  }

  function Recorded(history: map<Id, seq<Token>>, i: Intent, ids: set<Id>): map<Id, seq<Token>> {
    map id | id in history :: if i.Claim? && id in ids then history[id] + [i.token] else history[id]
  }

  ghost predicate Enabled(limit: int, q: Queue, op: Op) {
    match op
    case Stutter => true
    case Tick(_) => true
    case Submit(id, _, _, createdAt) => id !in q.table && createdAt <= q.clock
    case Apply(i, ids, now) =>
      && Accepted(limit, i)
      && ids <= q.table.Keys
      && now <= q.clock
      && (forall id | id in ids :: Selects(i, q.table[id], now) && ReadAfter(q.table[id], now))
      && (forall id | id in ids :: SatisfiesChecks(Effect(i, q.table[id], now)))
      && (i.Claim? ==> |ids| == 1 && Fresh(q.history, i.token))
  }

  function Do(q: Queue, op: Op): Queue {
    match op
    case Stutter => q
    case Tick(delta) => q.(clock := q.clock + delta)
    case Submit(id, fen, config, createdAt) =>
      q.(table := q.table[id := NewRow(id, fen, config, createdAt)], history := q.history[id := []])
    case Apply(i, ids, now) =>
      q.(table := Written(q.table, i, ids, now), history := Recorded(q.history, i, ids))
  }

  // ---------- Runs ----------

  ghost predicate StepAt(limit: int, qs: seq<Queue>, ops: seq<Op>, k: nat)
    requires |qs| == |ops| + 1 && k < |ops|
  {
    Enabled(limit, qs[k], ops[k]) && qs[k + 1] == Do(qs[k], ops[k])
  }

  ghost predicate IsRun(limit: int, qs: seq<Queue>, ops: seq<Op>) {
    && |qs| == |ops| + 1
    && qs[0] == EMPTY
    && forall k: nat | k < |ops| :: StepAt(limit, qs, ops, k)
  }

  // ---------- The row invariant ----------

  predicate TimesCoherent(r: Row, clock: Time) {
    && r.createdAt <= clock
    && (r.startedAt.Some? <==> r.attempts > 0)
    && (r.startedAt.Some? ==> r.createdAt <= r.startedAt.value <= clock)
    && (r.status.Running? ==> r.leaseExpiresAt.Some? && r.startedAt.Some? && r.startedAt.value < r.leaseExpiresAt.value)
    && (r.status.Terminal() ==>
          && r.startedAt.Some? && r.finishedAt.Some?
          && r.createdAt <= r.startedAt.value <= r.finishedAt.value <= clock)
  }

  predicate TokensMatch(r: Row, tokens: seq<Token>) {
    && |tokens| == r.attempts
    && (r.status.Running? ==> tokens != [] && r.leaseToken == Some(tokens[|tokens| - 1]))
  }

  // Errors are on a row exactly when it failed, an engine version only when it completed.
  predicate AnswersMatch(r: Row) {
    && (r.errorCode.Some? <==> r.status.Failed?) && (r.errorMessage.Some? <==> r.status.Failed?)
    && (r.engineVersion.Some? ==> r.status.Completed?)
  }

  predicate RowInv(id: Id, r: Row, tokens: seq<Token>, clock: Time) {
    && r.id == id
    && SatisfiesChecks(r)
    && (r.status.Queued? ==> r.attempts < MAX_ATTEMPTS)
    && (!r.status.Queued? ==> r.attempts >= 1)
    && TimesCoherent(r, clock)
    && TokensMatch(r, tokens)
    && AnswersMatch(r)
  }

  predicate TokensDistinct(history: map<Id, seq<Token>>) {
    forall a, b, i: nat, j: nat |
      a in history && b in history && i < |history[a]| && j < |history[b]| && history[a][i] == history[b][j] ::
      a == b && i == j
  }

  predicate Inv(q: Queue) {
    && q.table.Keys == q.history.Keys
    && (forall id | id in q.table :: RowInv(id, q.table[id], q.history[id], q.clock))
    && TokensDistinct(q.history)
  }

  lemma EffectKeepsRowInv(limit: int, i: Intent, id: Id, r: Row, tokens: seq<Token>, now: Time, clock: Time)
    requires limit <= MAX_ATTEMPTS && Accepted(limit, i)
    requires RowInv(id, r, tokens, clock) && Selects(i, r, now) && ReadAfter(r, now) && now <= clock
    ensures RowInv(id, Effect(i, r, now), if i.Claim? then tokens + [i.token] else tokens, clock)
  {
  }

  lemma SingletonElements(ids: set<Id>, a: Id, b: Id)
    requires |ids| == 1 && a in ids && b in ids
    ensures a == b && ids == {a}
  {
    assert |ids - {a}| == 0;
    assert forall x | x in ids :: x == a || x in ids - {a};
  }

  lemma ClaimKeepsTokensDistinct(history: map<Id, seq<Token>>, i: Intent, ids: set<Id>)
    requires TokensDistinct(history)
    requires i.Claim? ==> |ids| == 1 && Fresh(history, i.token)
    ensures TokensDistinct(Recorded(history, i, ids))
  {
    if i.Claim? {
      forall a, b | a in ids && b in ids
        ensures a == b
      {
        SingletonElements(ids, a, b);
      }
    }
  }

  lemma InvStep(limit: int, q: Queue, op: Op)
    requires limit <= MAX_ATTEMPTS && Inv(q) && Enabled(limit, q, op)
    ensures Inv(Do(q, op))
  {
    if op.Apply? {
      forall id | id in op.ids
        ensures RowInv(id, Do(q, op).table[id], Do(q, op).history[id], q.clock)
      {
        EffectKeepsRowInv(limit, op.intent, id, q.table[id], q.history[id], op.now, q.clock);
      }
      ClaimKeepsTokensDistinct(q.history, op.intent, op.ids);
    }
  }

  /** The schema, token and time invariants hold in every state of every run. */
  lemma {:induction false} InvHolds(limit: int, qs: seq<Queue>, ops: seq<Op>, k: nat)
    requires limit <= MAX_ATTEMPTS && IsRun(limit, qs, ops) && k < |qs|
    ensures Inv(qs[k])
  {
    if k > 0 {
      InvHolds(limit, qs, ops, k - 1);
      assert StepAt(limit, qs, ops, k - 1);
      InvStep(limit, qs[k - 1], ops[k - 1]);
    }
  }
}
