/** Why startup insists on exactly two attempts: with a larger limit recovery requeues a
    row whose next claim the schema rejects, and that row then blocks the queue. */
module AttemptLimit {
  import opened Schema
  import opened Tasks
  import opened AtomicQueue

  // Every operation that selects a row of `q` would write a row satisfying all ten CHECKs.
  ghost predicate NothingRejected(limit: int, q: Queue) {
    forall i, id, now | id in q.table && Accepted(limit, i) && Selects(i, q.table[id], now) ::
      SatisfiesChecks(Effect(i, q.table[id], now))
  }

  ghost predicate SafeLimit(limit: int) {
    forall qs, ops, k: nat | IsRun(limit, qs, ops) && k < |qs| :: NothingRejected(limit, qs[k])
  }

  lemma InvMeansNothingRejected(limit: int, q: Queue)
    requires limit <= MAX_ATTEMPTS && Inv(q)
    ensures NothingRejected(limit, q)
  {
    forall i, id, now | id in q.table && Accepted(limit, i) && Selects(i, q.table[id], now)
      ensures SatisfiesChecks(Effect(i, q.table[id], now))
    {
      var r := q.table[id];
      match i
      case Claim(token, lease) => ClaimedChecks(r, token, lease, now);
      case Recover(policy) => ReleasedChecks(r, policy.code, policy.message, now);
      case Complete(_, _, result) => CompletingChecks(r, result, now);
      case FailOrRetry(_, _, code, message) =>
        ReleasedChecks(r, Prefix(code, 64), Prefix(message, 1000), now);
    }
  }

  // ---------- The run that goes wrong ----------

  const LEASE: Time := 30_000_000

  function Victim(attempts: int, status: Status, token: Option<Token>, started: Option<Time>): Row {
    NewRow(0, "", Config(1, 1, 1, 1), 0).(
      attempts := attempts, status := status, leaseToken := token, startedAt := started,
      leaseExpiresAt := if started.Some? && status.Running? then Some(started.value + LEASE) else None)
  }

  function VictimQueue(r: Row, tokens: seq<Token>, clock: Time): Queue {
    Queue(map[0 := r], map[0 := tokens], clock)
  }

  lemma VictimStep(limit: int, i: Intent, r: Row, tokens: seq<Token>, clock: Time)
    requires Accepted(limit, i) && Selects(i, r, clock) && ReadAfter(r, clock)
    requires SatisfiesChecks(Effect(i, r, clock)) && (i.Claim? ==> i.token !in tokens)
    ensures var q, op := VictimQueue(r, tokens, clock), Apply(i, {0}, clock);
            && Enabled(limit, q, op)
            && Do(q, op) == VictimQueue(Effect(i, r, clock), if i.Claim? then tokens + [i.token] else tokens, clock)
  {
    hide SatisfiesChecks, Effect, Selects;
  }

  lemma VictimClaimed(limit: int, attempts: nat, started: Option<Time>, tokens: seq<Token>, token: Token, clock: Time)
    requires attempts < MAX_ATTEMPTS && token !in tokens && 0 <= clock && (started.Some? ==> started.value <= clock)
    ensures var q := VictimQueue(Victim(attempts, Queued, None, started), tokens, clock);
            var op := Apply(Claim(token, LEASE), {0}, clock);
            var claimed := Victim(attempts + 1, Running, Some(token), Some(clock));
            Enabled(limit, q, op) && Do(q, op) == VictimQueue(claimed, tokens + [token], clock)
  {
    VictimStep(limit, Claim(token, LEASE), Victim(attempts, Queued, None, started), tokens, clock);
  }

  lemma VictimWaits(limit: int, r: Row, tokens: seq<Token>, clock: Time)
    ensures Enabled(limit, VictimQueue(r, tokens, clock), Tick(LEASE))
    ensures Do(VictimQueue(r, tokens, clock), Tick(LEASE)) == VictimQueue(r, tokens, clock + LEASE)
  {
  }

  lemma VictimRequeued(limit: int, attempts: nat, started: Time, tokens: seq<Token>, token: Token)
    requires attempts <= MAX_ATTEMPTS < limit && 0 <= started
    ensures var q := VictimQueue(Victim(attempts, Running, Some(token), Some(started)), tokens, started + LEASE);
            var op := Apply(Recover(DefaultPolicy(limit)), {0}, started + LEASE);
            && Enabled(limit, q, op)
            && Do(q, op) == VictimQueue(Victim(attempts, Queued, None, Some(started)), tokens, started + LEASE)
  {
    VictimStep(limit, Recover(DefaultPolicy(limit)), Victim(attempts, Running, Some(token), Some(started)), tokens,
               started + LEASE);
  }

  lemma Extend(limit: int, qs: seq<Queue>, ops: seq<Op>, op: Op) returns (more: seq<Queue>, moreOps: seq<Op>)
    requires IsRun(limit, qs, ops) && Enabled(limit, qs[|ops|], op)
    ensures IsRun(limit, more, moreOps) && |moreOps| == |ops| + 1 && more[|moreOps|] == Do(qs[|ops|], op)
  {
    hide Enabled, Do;
    more, moreOps := qs + [Do(qs[|ops|], op)], ops + [op];
    forall k: nat | k < |moreOps|
      ensures StepAt(limit, more, moreOps, k)
    {
      assert k < |ops| ==> StepAt(limit, qs, ops, k);
    }
  }

  // The victim is claimed, its lease lapses, and recovery requeues it.
  lemma AttemptLapses(limit: int, qs: seq<Queue>, ops: seq<Op>, attempts: nat, started: Option<Time>,
                      tokens: seq<Token>, token: Token, clock: Time)
    returns (more: seq<Queue>, moreOps: seq<Op>)
    requires IsRun(limit, qs, ops) && qs[|ops|] == VictimQueue(Victim(attempts, Queued, None, started), tokens, clock)
    requires attempts < MAX_ATTEMPTS < limit && token !in tokens
    requires 0 <= clock && (started.Some? ==> started.value <= clock)
    ensures IsRun(limit, more, moreOps)
    ensures more[|moreOps|]
            == VictimQueue(Victim(attempts + 1, Queued, None, Some(clock)), tokens + [token], clock + LEASE)
  {
    hide IsRun, Victim, VictimQueue, Enabled, Do;
    VictimClaimed(limit, attempts, started, tokens, token, clock);
    more, moreOps := Extend(limit, qs, ops, Apply(Claim(token, LEASE), {0}, clock));
    VictimWaits(limit, Victim(attempts + 1, Running, Some(token), Some(clock)), tokens + [token], clock);
    more, moreOps := Extend(limit, more, moreOps, Tick(LEASE));
    VictimRequeued(limit, attempts + 1, clock, tokens + [token], token);
    more, moreOps := Extend(limit, more, moreOps, Apply(Recover(DefaultPolicy(limit)), {0}, clock + LEASE));
  }

  /** For any limit above two: submit, then let two attempts lapse. */
  lemma PoisoningRun(limit: int) returns (qs: seq<Queue>, ops: seq<Op>)
    requires limit > MAX_ATTEMPTS
    ensures IsRun(limit, qs, ops)
    ensures qs[|ops|].table == map[0 := Victim(MAX_ATTEMPTS, Queued, None, Some(LEASE))]
  {
    qs, ops := Extend(limit, [EMPTY], [], Submit(0, "", Config(1, 1, 1, 1), 0));
    qs, ops := AttemptLapses(limit, qs, ops, 0, None, [], 1, 0);
    qs, ops := AttemptLapses(limit, qs, ops, 1, Some(0), [] + [1], 2, LEASE);
  }

  /** Over all runs, no operation is ever rejected by a CHECK predicate exactly when the
      configured limit is at most two. */
  lemma SafeExactlyUpToTwo(limit: int)
    ensures SafeLimit(limit) <==> limit <= MAX_ATTEMPTS
  {
    if limit <= MAX_ATTEMPTS {
      forall qs, ops, k: nat | IsRun(limit, qs, ops) && k < |qs|
        ensures NothingRejected(limit, qs[k])
      {
        InvHolds(limit, qs, ops, k);
        InvMeansNothingRejected(limit, qs[k]);
      }
    } else {
      var qs, ops := PoisoningRun(limit);
      var last, claim := qs[|ops|], Claim(3, LEASE);
      assert Accepted(limit, claim) && Selects(claim, last.table[0], 0);
      assert !SatisfiesChecks(Effect(claim, last.table[0], 0));
      assert !NothingRejected(limit, last);
    }
  }

  /** Once a row is queued with its attempts used up it stays so forever, and while it is
      the oldest, a queue that claims in order never claims anything again. */
  lemma {:induction false} PoisonedForever(limit: int, qs: seq<Queue>, ops: seq<Op>, j: nat, k: nat, id: Id)
    requires IsRun(limit, qs, ops) && j <= k < |qs|
    requires id in qs[j].table && qs[j].table[id].status.Queued? && qs[j].table[id].attempts >= MAX_ATTEMPTS
    ensures id in qs[k].table && qs[k].table[id] == qs[j].table[id]
    ensures IsOldest(qs[k].table, {}, id) && k < |ops| && ops[k].Apply? && ops[k].intent.Claim? ==>
              !exists other :: ops[k].ids == {other} && IsOldest(qs[k].table, {}, other)
  {
    if j < k {
      PoisonedForever(limit, qs, ops, j, k - 1, id);
      assert StepAt(limit, qs, ops, k - 1);
    }
    if k < |ops| {
      assert StepAt(limit, qs, ops, k);
    }
  }
}
