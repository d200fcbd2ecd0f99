/** First come, first served: what ordering by (created_at, id) gives a run whose claims
    are not interleaved with other transactions. */
module ClaimOrder {
  import opened Schema
  import opened Tasks
  import opened AtomicQueue
  import Fencing

  // Every claim takes the oldest queued row.
  ghost predicate ServesOldest(qs: seq<Queue>, ops: seq<Op>)
    requires |qs| == |ops| + 1
  {
    forall k: nat | k < |ops| && ops[k].Apply? && ops[k].intent.Claim? :: OldestServed(qs[k], ops[k])
  }

  ghost predicate OldestServed(q: Queue, op: Op)
    requires op.Apply?
  {
    forall id | id in op.ids :: IsOldest(q.table, {}, id)
  }

  // Each submission is younger than everything already in the table.
  ghost predicate CreationIncreases(qs: seq<Queue>, ops: seq<Op>)
    requires |qs| == |ops| + 1
  {
    forall k: nat | k < |ops| && ops[k].Submit? :: Youngest(qs[k], ops[k])
  }

  ghost predicate Youngest(q: Queue, op: Op)
    requires op.Submit?
  {
    forall id | id in q.table :: Older(q.table[id], NewRow(op.id, op.fen, op.config, op.createdAt))
  }

  ghost predicate ClaimsRow(ops: seq<Op>, k: nat, id: Id)
    requires k < |ops|
  {
    ops[k].Apply? && ops[k].intent.Claim? && id in ops[k].ids
  }

  /** A queued row changes only by being claimed. */
  lemma {:induction false} QueuedUntilClaimed(limit: int, qs: seq<Queue>, ops: seq<Op>, j: nat, k: nat, id: Id)
    requires IsRun(limit, qs, ops) && j <= k < |qs| && id in qs[j].table && qs[j].table[id].status.Queued?
    requires forall m: nat | j <= m < k :: !ClaimsRow(ops, m, id)
    ensures id in qs[k].table && qs[k].table[id] == qs[j].table[id]
  {
    if j < k {
      QueuedUntilClaimed(limit, qs, ops, j, k - 1, id);
      assert !ClaimsRow(ops, k - 1, id);
      assert StepAt(limit, qs, ops, k - 1);
    }
  }

  /** A queued task, requeued or new, is claimed before any younger task is. */
  lemma NotOvertaken(limit: int, qs: seq<Queue>, ops: seq<Op>, j: nat, k: nat, a: Id, b: Id)
    requires IsRun(limit, qs, ops) && ServesOldest(qs, ops) && j <= k < |ops|
    requires a in qs[j].table && qs[j].table[a].status.Queued?
    requires ClaimsRow(ops, k, b) && b in qs[k].table && Older(qs[j].table[a], qs[k].table[b])
    ensures exists m: nat :: j <= m < k && ClaimsRow(ops, m, a)
  {
    if forall m: nat | j <= m < k :: !ClaimsRow(ops, m, a) {
      QueuedUntilClaimed(limit, qs, ops, j, k, a);
      IdsAreKeys(limit, qs, ops, k);
      assert StepAt(limit, qs, ops, k);
      assert OldestServed(qs[k], ops[k]);
      assert IsOldest(qs[k].table, {}, b) && Claimable(qs[k].table, {}, a);
      assert false;
    }
  }

  ghost predicate FirstClaim(qs: seq<Queue>, ops: seq<Op>, k: nat, id: Id)
    requires |qs| == |ops| + 1 && k < |ops|
  {
    ClaimsRow(ops, k, id) && id in qs[k].table && id in qs[k].history && qs[k].history[id] == []
  }

  lemma {:induction false} LaterIsYounger(limit: int, qs: seq<Queue>, ops: seq<Op>, j: nat, k: nat, a: Id, b: Id)
    requires IsRun(limit, qs, ops) && CreationIncreases(qs, ops) && j <= k < |qs|
    requires a in qs[j].table && b !in qs[j].table && b in qs[k].table
    ensures a in qs[k].table && Older(qs[k].table[a], qs[k].table[b])
  {
    hide Effect, Selects, SatisfiesChecks, ReadAfter;
    Fencing.TasksPersist(limit, qs, ops, j, k - 1, a);
    Fencing.TasksPersist(limit, qs, ops, k - 1, k, a);
    assert StepAt(limit, qs, ops, k - 1);
    IdsAreKeys(limit, qs, ops, k - 1);
    if b in qs[k - 1].table {
      Fencing.TasksPersist(limit, qs, ops, k - 1, k, b);
      LaterIsYounger(limit, qs, ops, j, k - 1, a, b);
    } else {
      assert ops[k - 1].Submit? && Youngest(qs[k - 1], ops[k - 1]);
    }
  }

  lemma {:induction false} IdsAreKeys(limit: int, qs: seq<Queue>, ops: seq<Op>, k: nat)
    requires IsRun(limit, qs, ops) && k < |qs|
    ensures forall id | id in qs[k].table :: qs[k].table[id].id == id
  {
    if k > 0 {
      IdsAreKeys(limit, qs, ops, k - 1);
      assert StepAt(limit, qs, ops, k - 1);
    }
  }

  /** Tasks are first claimed in the order they were created. */
  lemma FirstClaimsInCreationOrder(limit: int, qs: seq<Queue>, ops: seq<Op>, j: nat, k: nat, a: Id, b: Id)
    requires limit <= MAX_ATTEMPTS && IsRun(limit, qs, ops) && ServesOldest(qs, ops) && CreationIncreases(qs, ops)
    requires j < k < |ops| && a != b && FirstClaim(qs, ops, j, a) && FirstClaim(qs, ops, k, b)
    ensures a in qs[k].table && Older(qs[k].table[a], qs[k].table[b])
    ensures qs[k].table[a].createdAt <= qs[k].table[b].createdAt
  {
    Fencing.TasksPersist(limit, qs, ops, j, k, a);
    InvHolds(limit, qs, ops, j);
    if b in qs[j].table {
      Fencing.TasksPersist(limit, qs, ops, j, k, b);
      Fencing.HistoryGrows(limit, qs, ops, j, k, b);
      assert qs[j].history[b] == [];
      assert qs[j].table[b].status.Queued?;
      assert OldestServed(qs[j], ops[j]);
      assert Claimable(qs[j].table, {}, b);
    } else {
      LaterIsYounger(limit, qs, ops, j, k, a, b);
    }
  }
}
