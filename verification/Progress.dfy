/** How long a task can stay unfinished: a measure every row transition decreases, the
    number of writes it allows a run, and the polls that drain the queue. */
module Progress {
  import opened Schema
  import opened Tasks
  import opened AtomicQueue
  import Fencing

  // Transitions a row can still make: two for each unused attempt, one for a running attempt.
  function Remaining(r: Row): nat {
    if r.attempts > MAX_ATTEMPTS then 0
    else match r.status
      case Queued => 2 * (MAX_ATTEMPTS - if r.attempts < 0 then 0 else r.attempts)
      case Running => 2 * (MAX_ATTEMPTS - if r.attempts < 0 then 0 else r.attempts) + 1
      case _ => 0
  }

  lemma EffectDecreases(limit: int, i: Intent, id: Id, r: Row, tokens: seq<Token>, now: Time, clock: Time)
    requires limit <= MAX_ATTEMPTS && Accepted(limit, i) && RowInv(id, r, tokens, clock) && Selects(i, r, now)
    requires SatisfiesChecks(Effect(i, r, now))
    ensures Remaining(Effect(i, r, now)) < Remaining(r)
  {
  }

  // ---------- One task ----------

  function Transitions(qs: seq<Queue>, id: Id): nat {
    if |qs| < 2 then 0
    else
      var k := |qs| - 2;
      Transitions(qs[..k + 1], id)
      + if id in qs[k].table && id in qs[k + 1].table && qs[k].table[id] != qs[k + 1].table[id] then 1 else 0
  }

  /** A row's remaining budget pays for its transitions: each uses at least one unit, and it
      starts with 2 * MAX_ATTEMPTS. */
  lemma {:induction false} BoundedTransitions(limit: int, qs: seq<Queue>, ops: seq<Op>, k: nat, id: Id)
    requires limit <= MAX_ATTEMPTS && IsRun(limit, qs, ops) && k < |qs|
    ensures Transitions(qs[..k + 1], id) + (if id in qs[k].table then Remaining(qs[k].table[id]) else 2 * MAX_ATTEMPTS)
            <= 2 * MAX_ATTEMPTS
    ensures Transitions(qs[..k + 1], id) <= 2 * MAX_ATTEMPTS
  {
    if k > 0 {
      BoundedTransitions(limit, qs, ops, k - 1, id);
      assert StepAt(limit, qs, ops, k - 1);
      InvHolds(limit, qs, ops, k - 1);
      assert qs[..k + 1][..k] == qs[..k];
      if id in qs[k - 1].table && ops[k - 1].Apply? && id in ops[k - 1].ids {
        EffectDecreases(limit, ops[k - 1].intent, id, qs[k - 1].table[id], qs[k - 1].history[id], ops[k - 1].now,
                        qs[k - 1].clock);
      }
    }
  }

  // ---------- The whole table ----------

  ghost function Work(t: Table, ids: set<Id>): nat
    requires ids <= t.Keys
  {
    if ids == {} then 0
    else
      var id :| id in ids;
      Remaining(t[id]) + Work(t, ids - {id})
  }

  lemma {:induction false} WorkSplits(t: Table, ids: set<Id>, id: Id)
    requires ids <= t.Keys && id in ids
    ensures Work(t, ids) == Remaining(t[id]) + Work(t, ids - {id})
  {
    var first :| first in ids && Work(t, ids) == Remaining(t[first]) + Work(t, ids - {first});
    if first != id {
      WorkSplits(t, ids - {first}, id);
      WorkSplits(t, ids - {id}, first);
      assert ids - {first} - {id} == ids - {id} - {first};
    }
  }

  // Rows in `fewer` have at least one transition less to make, the others no more.
  lemma {:induction false} WorkDrops(t: Table, t': Table, ids: set<Id>, fewer: set<Id>)
    requires fewer <= ids <= t.Keys && ids <= t'.Keys
    requires forall id | id in ids :: Remaining(t'[id]) + (if id in fewer then 1 else 0) <= Remaining(t[id])
    ensures Work(t', ids) + |fewer| <= Work(t, ids)
  {
    if ids != {} {
      var id :| id in ids;
      WorkSplits(t, ids, id);
      WorkSplits(t', ids, id);
      WorkDrops(t, t', ids - {id}, fewer - {id});
      assert |fewer| <= |fewer - {id}| + if id in fewer then 1 else 0;
    }
  }

  ghost function TotalWork(q: Queue): nat {
    Work(q.table, q.table.Keys)
  }

  predicate AllTerminal(t: Table) {
    forall id | id in t :: t[id].status.Terminal()
  }

  lemma {:induction false} WorkBound(q: Queue, ids: set<Id>)
    requires Inv(q) && ids <= q.table.Keys
    ensures Work(q.table, ids) <= 2 * MAX_ATTEMPTS * |ids|
  {
    if ids != {} {
      var id :| id in ids;
      WorkSplits(q.table, ids, id);
      WorkBound(q, ids - {id});
    }
  }

  lemma NoWorkMeansTerminal(q: Queue)
    requires Inv(q) && TotalWork(q) == 0
    ensures AllTerminal(q.table)
  {
    forall id | id in q.table
      ensures q.table[id].status.Terminal()
    {
      WorkSplits(q.table, q.table.Keys, id);
    }
  }

  lemma {:induction false} TerminalHasNoWork(t: Table, ids: set<Id>)
    requires ids <= t.Keys && AllTerminal(t)
    ensures Work(t, ids) == 0
  {
    if ids != {} {
      var id :| id in ids;
      WorkSplits(t, ids, id);
      TerminalHasNoWork(t, ids - {id});
    }
  }

  // ---------- How much a run can write ----------

  function RowsOf(op: Op): nat {
    if op.Apply? then |op.ids| else 0
  }

  lemma SubmitStep(q: Queue, op: Op)
    requires op.Submit? && op.id !in q.table
    ensures TotalWork(Do(q, op)) == TotalWork(q) + 2 * MAX_ATTEMPTS
  {
    var t, t' := q.table, Do(q, op).table;
    WorkSplits(t', t'.Keys, op.id);
    assert t'.Keys - {op.id} == t.Keys;
    WorkDrops(t, t', t.Keys, {});
    WorkDrops(t', t, t.Keys, {});
  }

  // A step other than a submission uses up at least one unit for each row it writes.
  lemma WorkStep(limit: int, q: Queue, op: Op)
    requires limit <= MAX_ATTEMPTS && Inv(q) && Enabled(limit, q, op) && !op.Submit?
    ensures TotalWork(Do(q, op)) + RowsOf(op) <= TotalWork(q)
    ensures RowsOf(op) == 0 ==> Do(q, op).table == q.table
  {
    hide SatisfiesChecks, Remaining, RowInv, Selects, Effect;
    var t, t' := q.table, Do(q, op).table;
    var fewer: set<Id> := if op.Apply? then op.ids else {};
    assert t'.Keys == t.Keys;
    forall id | id in t
      ensures Remaining(t'[id]) + (if id in fewer then 1 else 0) <= Remaining(t[id])
    {
      if op.Apply? && id in op.ids {
        EffectDecreases(limit, op.intent, id, t[id], q.history[id], op.now, q.clock);
      }
    }
    WorkDrops(t, t', t.Keys, fewer);
    assert fewer == {} ==> t' == t;
  }

  function RowsWritten(ops: seq<Op>): nat {
    if ops == [] then 0 else RowsWritten(ops[..|ops| - 1]) + RowsOf(ops[|ops| - 1])
  }

  /** Whatever a stretch of a run writes was paid for: by the work open at its start, and by
      2 * MAX_ATTEMPTS for each submission in it. */
  lemma {:induction false} BoundedWrites(limit: int, qs: seq<Queue>, ops: seq<Op>, j: nat, k: nat)
    requires limit <= MAX_ATTEMPTS && IsRun(limit, qs, ops) && j <= k < |qs|
    ensures RowsWritten(ops[j..k]) + TotalWork(qs[k])
            <= TotalWork(qs[j]) + 2 * MAX_ATTEMPTS * Fencing.Submissions(ops[j..k])
  {
    hide Enabled, Do;
    if j < k {
      BoundedWrites(limit, qs, ops, j, k - 1);
      InvHolds(limit, qs, ops, k - 1);
      assert StepAt(limit, qs, ops, k - 1);
      assert ops[j..k][..k - j - 1] == ops[j..k - 1];
      var q, op := qs[k - 1], ops[k - 1];
      if op.Submit? {
        SubmitIsFresh(limit, q, op);
        SubmitStep(q, op);
      } else {
        WorkStep(limit, q, op);
      }
    }
  }

  lemma SubmitIsFresh(limit: int, q: Queue, op: Op)
    requires Enabled(limit, q, op) && op.Submit?
    ensures op.id !in q.table
  {
  }

  // ---------- Steps of any sessions, without submissions ----------

  ghost predicate PathStep(limit: int, qs: seq<Queue>, ops: seq<Op>, k: nat)
    requires |qs| == |ops| + 1 && k < |ops|
  {
    StepAt(limit, qs, ops, k) && !ops[k].Submit?
  }

  ghost predicate IsPath(limit: int, qs: seq<Queue>, ops: seq<Op>) {
    |qs| == |ops| + 1 && forall k: nat | k < |ops| :: PathStep(limit, qs, ops, k)
  }

  ghost predicate Connects(limit: int, qs: seq<Queue>, ops: seq<Op>, q: Queue, q': Queue) {
    IsPath(limit, qs, ops) && qs[0] == q && qs[|ops|] == q'
  }

  ghost predicate Reaches(limit: int, q: Queue, q': Queue) {
    exists qs, ops :: Connects(limit, qs, ops, q, q')
  }

  lemma {:induction false} PathLowersWork(limit: int, qs: seq<Queue>, ops: seq<Op>, k: nat)
    requires limit <= MAX_ATTEMPTS && IsPath(limit, qs, ops) && Inv(qs[0]) && k < |qs|
    ensures Inv(qs[k]) && TotalWork(qs[k]) <= TotalWork(qs[0])
    ensures TotalWork(qs[k]) == TotalWork(qs[0]) ==> qs[k].table == qs[0].table
  {
    hide Enabled, Do, Inv;
    if k > 0 {
      PathLowersWork(limit, qs, ops, k - 1);
      assert PathStep(limit, qs, ops, k - 1);
      InvStep(limit, qs[k - 1], ops[k - 1]);
      WorkStep(limit, qs[k - 1], ops[k - 1]);
    }
  }

  lemma ReachesLowersWork(limit: int, q: Queue, q': Queue)
    requires limit <= MAX_ATTEMPTS && Reaches(limit, q, q') && Inv(q)
    ensures Inv(q') && TotalWork(q') <= TotalWork(q)
    ensures TotalWork(q') == TotalWork(q) ==> q'.table == q.table
  {
    hide Inv;
    var qs, ops :| Connects(limit, qs, ops, q, q');
    PathLowersWork(limit, qs, ops, |ops|);
  }

  lemma ReachesByOneStep(limit: int, q: Queue, op: Op)
    requires Enabled(limit, q, op) && !op.Submit?
    ensures Reaches(limit, q, Do(q, op))
  {
    var qs, ops := [q, Do(q, op)], [op];
    assert Connects(limit, qs, ops, q, Do(q, op)) by {
      forall k: nat | k < |ops|
        ensures PathStep(limit, qs, ops, k)
      {
        assert StepAt(limit, qs, ops, k);
      }
    }
  }

  // ---------- Polls ----------

  // What one poll of a worker does to the queue: a recovery at `start`, then, after any
  // steps of other sessions, the claim of the oldest queued row at `atClaim`. Rows locked
  // elsewhere are skipped, and leases may be running. What becomes of the claimed row is up
  // to later steps.
  datatype Poll = Poll(start: Queue, recoverLocked: set<Id>, atClaim: Queue, claimLocked: set<Id>,
                       token: Token, lease: Time, oldest: Id, end: Queue)

  function RecoverOp(limit: int, q: Queue, locked: set<Id>): Op {
    Apply(Recover(DefaultPolicy(limit)), Expired(q.table, locked, q.clock), q.clock)
  }

  function ClaimOp(p: Poll): Op {
    Apply(Claim(p.token, p.lease), {p.oldest}, p.atClaim.clock)
  }

  ghost predicate Performs(limit: int, p: Poll) {
    && limit >= 1
    && Reaches(limit, Do(p.start, RecoverOp(limit, p.start, p.recoverLocked)), p.atClaim)
    && if NoneClaimable(p.atClaim.table, p.claimLocked) then p.end == p.atClaim
       else
         && IsOldest(p.atClaim.table, p.claimLocked, p.oldest)
         && Enabled(limit, p.atClaim, ClaimOp(p)) && p.end == Do(p.atClaim, ClaimOp(p))
  }

  // The poll has something to recover or to claim.
  predicate Finds(p: Poll) {
    exists id :: id in p.start.table && FindsRow(p, p.start.table[id])
  }

  predicate FindsRow(p: Poll, r: Row) {
    || (r.id !in p.recoverLocked && LeaseExpired(r, p.start.clock))
    || (r.id !in p.claimLocked && r.status.Queued?)
  }

  // In nobody's way: no row is locked, no lease is running any more.
  predicate Unhindered(p: Poll) {
    && p.recoverLocked == {} && p.claimLocked == {}
    && forall id | id in p.start.table ::
         p.start.table[id].status.Running? ==> LeaseExpired(p.start.table[id], p.start.clock)
  }

  lemma RecoverEnabled(limit: int, q: Queue, locked: set<Id>)
    requires 1 <= limit <= MAX_ATTEMPTS && Inv(q)
    ensures Enabled(limit, q, RecoverOp(limit, q, locked))
  {
    forall id | id in Expired(q.table, locked, q.clock)
      ensures SatisfiesChecks(Effect(Recover(DefaultPolicy(limit)), q.table[id], q.clock))
    {
      EffectKeepsRowInv(limit, Recover(DefaultPolicy(limit)), id, q.table[id], q.history[id], q.clock, q.clock);
    }
  }

  /** No poll adds work, and one that finds something removes some, whatever other sessions
      do between its two transactions. */
  lemma PollDecreases(limit: int, p: Poll)
    requires limit <= MAX_ATTEMPTS && Inv(p.start) && Performs(limit, p)
    ensures Inv(p.end) && TotalWork(p.end) + (if Finds(p) then 1 else 0) <= TotalWork(p.start)
  {
    hide Inv, Enabled, IsOldest, Reaches;
    var recover := RecoverOp(limit, p.start, p.recoverLocked);
    var recovered := Do(p.start, recover);
    RecoverEnabled(limit, p.start, p.recoverLocked);
    InvStep(limit, p.start, recover);
    WorkStep(limit, p.start, recover);
    ReachesLowersWork(limit, recovered, p.atClaim);
    if !NoneClaimable(p.atClaim.table, p.claimLocked) {
      InvStep(limit, p.atClaim, ClaimOp(p));
      WorkStep(limit, p.atClaim, ClaimOp(p));
      assert RowsOf(ClaimOp(p)) == 1;
    } else if Finds(p) {
      FoundIsTaken(limit, p);
    }
  }

  // What a poll found was recovered, unless it was queued and another session was faster.
  lemma FoundIsTaken(limit: int, p: Poll)
    requires Inv(p.start) && Finds(p) && NoneClaimable(p.atClaim.table, p.claimLocked)
    ensures RecoverOp(limit, p.start, p.recoverLocked).ids != {} || p.atClaim.table != p.start.table
  {
    var id :| id in p.start.table && FindsRow(p, p.start.table[id]);
    if LeaseExpired(p.start.table[id], p.start.clock) {
      assert id in Expired(p.start.table, p.recoverLocked, p.start.clock);
    } else if p.atClaim.table == p.start.table {
      assert Claimable(p.atClaim.table, p.claimLocked, id);
    }
  }

  /** A poll finds nothing exactly when every open row is out of its reach: running under a
      live lease, or locked by another session. */
  lemma IdlePoll(p: Poll)
    requires Inv(p.start)
    ensures !Finds(p) <==>
            forall id | id in p.start.table && !p.start.table[id].status.Terminal() ::
              var r := p.start.table[id];
              if r.status.Running? then id in p.recoverLocked || !LeaseExpired(r, p.start.clock)
              else id in p.claimLocked
  {
    forall id | id in p.start.table
      ensures p.start.table[id].id == id && !p.start.table[id].status.Other?
    {
      assert RowInv(id, p.start.table[id], p.start.history[id], p.start.clock);
    }
  }

  // Polls of one worker; between them any sessions may act, but nothing is submitted.
  ghost predicate Successive(limit: int, ps: seq<Poll>) {
    && (forall k | 0 <= k < |ps| :: Performs(limit, ps[k]))
    && (forall k | 0 < k < |ps| :: Reaches(limit, ps[k - 1].end, ps[k].start))
  }

  ghost function Finding(ps: seq<Poll>): nat {
    if ps == [] then 0 else Finding(ps[1..]) + if Finds(ps[0]) then 1 else 0
  }

  ghost function CountUnhindered(ps: seq<Poll>): nat {
    if ps == [] then 0 else CountUnhindered(ps[1..]) + if Unhindered(ps[0]) then 1 else 0
  }

  /** Whatever becomes of the attempts and whatever other sessions do, there are at most as
      many polls that find something as there was work; that many leave all terminal. */
  lemma {:induction false} PollsDrain(limit: int, ps: seq<Poll>)
    requires limit <= MAX_ATTEMPTS && ps != [] && Inv(ps[0].start) && Successive(limit, ps)
    ensures Inv(ps[|ps| - 1].end)
    ensures Finding(ps) + TotalWork(ps[|ps| - 1].end) <= TotalWork(ps[0].start)
    ensures TotalWork(ps[|ps| - 1].end) == 0
            || CountUnhindered(ps) + TotalWork(ps[|ps| - 1].end) <= TotalWork(ps[0].start)
    ensures Finding(ps) >= TotalWork(ps[0].start) ==> AllTerminal(ps[|ps| - 1].end.table)
  {
    hide Inv, Performs, Reaches, Finds, Unhindered, AllTerminal;
    var p, last := ps[0], ps[|ps| - 1];
    PollDecreases(limit, p);
    if Unhindered(p) {
      UnhinderedFinds(p);
    }
    if |ps| > 1 {
      ReachesLowersWork(limit, p.end, ps[1].start);
      PollsDrain(limit, ps[1..]);
    } else {
      assert Finding(ps[1..]) == 0 && CountUnhindered(ps[1..]) == 0;
    }
    if TotalWork(last.end) == 0 {
      NoWorkMeansTerminal(last.end);
    }
  }

  // With nothing in its way, a poll is idle only when all is done.
  lemma UnhinderedFinds(p: Poll)
    requires Inv(p.start) && Unhindered(p)
    ensures Finds(p) || TotalWork(p.start) == 0
  {
    IdlePoll(p);
    if AllTerminal(p.start.table) {
      TerminalHasNoWork(p.start.table, p.start.table.Keys);
    }
  }

  /** From any reachable state, with no new submissions, four unhindered polls for each task
      leave every task terminal, however many hindered ones come between them. */
  lemma FourPollsPerTaskDrain(limit: int, qs: seq<Queue>, ops: seq<Op>, k: nat, ps: seq<Poll>)
    requires limit <= MAX_ATTEMPTS && IsRun(limit, qs, ops) && k < |qs|
    requires ps != [] && Successive(limit, ps) && Reaches(limit, qs[k], ps[0].start)
    requires CountUnhindered(ps) >= 2 * MAX_ATTEMPTS * |qs[k].table|
    ensures AllTerminal(ps[|ps| - 1].end.table)
  {
    hide Inv, Performs, Reaches;
    InvHolds(limit, qs, ops, k);
    WorkBound(qs[k], qs[k].table.Keys);
    assert |qs[k].table| == |qs[k].table.Keys|;
    ReachesLowersWork(limit, qs[k], ps[0].start);
    PollsDrain(limit, ps);
    NoWorkMeansTerminal(ps[|ps| - 1].end);
  }

  // ---------- Unhindered polls can always be made ----------

  lemma {:induction false} LeaseBound(t: Table, ids: set<Id>) returns (bound: nat)
    requires ids <= t.Keys
    ensures forall id | id in ids && t[id].leaseExpiresAt.Some? :: t[id].leaseExpiresAt.value <= bound
  {
    bound := 0;
    if ids != {} {
      var id :| id in ids;
      bound := LeaseBound(t, ids - {id});
      if t[id].leaseExpiresAt.Some? && t[id].leaseExpiresAt.value > bound {
        bound := t[id].leaseExpiresAt.value;
      }
    }
  }

  lemma {:induction false} FreshToken(history: map<Id, seq<Token>>, ids: set<Id>) returns (token: Token)
    requires ids <= history.Keys
    ensures forall id, t | id in ids && t in history[id] :: t < token
  {
    token := 0;
    if ids != {} {
      var id :| id in ids;
      token := FreshToken(history, ids - {id});
      for k := 0 to |history[id]|
        invariant forall j | 0 <= j < k :: history[id][j] < token
        invariant forall x, t | x in ids - {id} && t in history[x] :: t < token
      {
        if history[id][k] >= token {
          token := history[id][k] + 1;
        }
      }
    }
  }

  lemma LeasesLapse(limit: int, q: Queue) returns (delta: nat)
    requires limit <= MAX_ATTEMPTS && Inv(q)
    ensures var q' := Do(q, Tick(delta));
            && Inv(q') && Reaches(limit, q, q') && q'.table == q.table && q'.history == q.history
            && forall id | id in q'.table :: q'.table[id].status.Running? ==> LeaseExpired(q'.table[id], q'.clock)
  {
    var bound := LeaseBound(q.table, q.table.Keys);
    delta := if bound > q.clock then bound - q.clock else 0;
    ReachesByOneStep(limit, q, Tick(delta));
    InvStep(limit, q, Tick(delta));
    hide SatisfiesChecks, TokensMatch, AnswersMatch, TokensDistinct;
    forall id | id in q.table && q.table[id].status.Running?
      ensures LeaseExpired(q.table[id], q.clock + delta)
    {
      assert RowInv(id, q.table[id], q.history[id], q.clock);
    }
  }

  /** No state is stuck: once the leases have lapsed an unhindered poll can be made. */
  lemma PollPossible(limit: int, q: Queue) returns (p: Poll)
    requires 1 <= limit <= MAX_ATTEMPTS && Inv(q)
    ensures Reaches(limit, q, p.start) && Performs(limit, p) && Unhindered(p)
  {
    hide Inv, Enabled, Reaches, IsOldest, NoneClaimable;
    var token := FreshToken(q.history, q.history.Keys);
    var delta := LeasesLapse(limit, q);
    var start := Do(q, Tick(delta));
    var recover := RecoverOp(limit, start, {});
    var recovered := Do(start, recover);
    RecoverEnabled(limit, start, {});
    InvStep(limit, start, recover);
    StaysPut(limit, recovered);
    assert recovered.history == q.history;
    p := Poll(start, {}, recovered, {}, token, 1, 0, recovered);
    if !NoneClaimable(recovered.table, {}) {
      var oldest := OldestClaimable(limit, recovered, token);
      p := p.(oldest := oldest);
      p := p.(end := Do(recovered, ClaimOp(p)));
    }
  }

  lemma StaysPut(limit: int, q: Queue)
    ensures Reaches(limit, q, q)
  {
    ReachesByOneStep(limit, q, Stutter);
  }

  lemma OldestClaimable(limit: int, q: Queue, token: Token) returns (oldest: Id)
    requires Inv(q) && !NoneClaimable(q.table, {}) && Fresh(q.history, token)
    ensures IsOldest(q.table, {}, oldest)
    ensures Enabled(limit, q, Apply(Claim(token, 1), {oldest}, q.clock))
  {
    var queued := set id | id in q.table && Claimable(q.table, {}, id);
    assert queued != {};
    OldestExists(q.table, {}, queued);
    oldest :| oldest in queued && OldestAmong(q.table, queued, oldest);
    OldestIsUnique(q.table, {}, queued, oldest);
    ClaimIsEnabled(limit, q, token, oldest);
  }

  lemma ClaimIsEnabled(limit: int, q: Queue, token: Token, id: Id)
    requires Inv(q) && id in q.table && q.table[id].status.Queued? && Fresh(q.history, token)
    ensures Enabled(limit, q, Apply(Claim(token, 1), {id}, q.clock))
  {
    hide SatisfiesChecks, Claimed, TokensDistinct;
    ClaimedChecks(q.table[id], token, 1, q.clock);
  }
}
