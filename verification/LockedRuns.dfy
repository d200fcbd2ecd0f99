/** What a run of interleaved transactions guarantees, carried over from the atomic queue
    through the refinement or proved about the locks themselves. */
module LockedRuns {
  import opened Schema
  import opened Tasks
  import opened LockedQueue
  import A = AtomicQueue
  import Fencing
  import ClaimOrder

  /** The row invariant, hence every CHECK, holds of every committed row. */
  lemma RowsValid(limit: int, dbs: seq<Db>, ls: seq<Label>, k: nat, id: Id)
    requires limit <= MAX_ATTEMPTS && IsRun(limit, dbs, ls) && k < |dbs| && id in dbs[k].table
    ensures id in dbs[k].history && A.RowInv(id, dbs[k].table[id], dbs[k].history[id], dbs[k].clock)
  {
    Refinement(limit, dbs, ls);
    A.InvHolds(limit, AbsStates(dbs), AbsOps(limit, dbs, ls), k);
  }

  /** Every open transaction can go on to commit: its flush never fails a CHECK, and a
      flushed one only has to commit. So a waiting persist call never waits for good. It can
      also crash at any point. */
  lemma OpenTransactionsCanFinish(limit: int, dbs: seq<Db>, ls: seq<Label>, k: nat, s: Session)
    requires limit <= MAX_ATTEMPTS && IsRun(limit, dbs, ls) && k < |dbs| && s in dbs[k].txns
    ensures var txn := dbs[k].txns[s];
            if txn.Working? && !txn.flushed then Enabled(limit, dbs[k], Flush(s))
            else forall replied :: Enabled(limit, dbs[k], Commit(s, replied))
    ensures Enabled(limit, dbs[k], Abort(s))
  {
    var db, txn := dbs[k], dbs[k].txns[s];
    InvHolds(limit, dbs, ls, k);
    assert TxnInv(limit, db, txn);
    if txn.Working? {
      forall id | id in txn.before
        ensures SatisfiesChecks(A.Effect(txn.intent, txn.before[id], txn.now))
      {
        RowsValid(limit, dbs, ls, k, id);
        A.EffectKeepsRowInv(limit, txn.intent, id, db.table[id], db.history[id], txn.now, db.clock);
      }
    }
  }

  // ---------- Submissions ----------

  // Session s inserts at step i, and its transaction is still open at m.
  ghost predicate InsertOpen(dbs: seq<Db>, ls: seq<Label>, i: nat, m: nat)
    requires i < |ls| && m < |dbs| && i < |dbs| && ls[i].Insert?
  {
    && ls[i].s in dbs[m].txns
    && dbs[m].txns[ls[i].s] == Inserting(NewRow(ls[i].id, ls[i].fen, ls[i].config, dbs[i].clock))
  }

  lemma {:induction false} OpenSince(limit: int, dbs: seq<Db>, ls: seq<Label>, k: nat, s: Session) returns (i: nat)
    requires IsRun(limit, dbs, ls) && k < |dbs| && s in dbs[k].txns && dbs[k].txns[s].Inserting?
    ensures i < k && ls[i].Insert? && ls[i].s == s
    ensures forall m: nat | i < m <= k :: InsertOpen(dbs, ls, i, m)
  {
    hide Chosen, Writes, Overwritten;
    assert k > 0;
    assert StepAt(limit, dbs, ls, k - 1);
    if s in dbs[k - 1].txns && dbs[k - 1].txns[s].Inserting? {
      i := OpenSince(limit, dbs, ls, k - 1, s);
      assert InsertOpen(dbs, ls, i, k - 1);
    } else {
      i := k - 1;
    }
    assert InsertOpen(dbs, ls, i, k);
  }

  lemma {:induction false} AcknowledgedByCommit(limit: int, dbs: seq<Db>, ls: seq<Label>, k: nat, id: Id)
    returns (c: nat)
    requires IsRun(limit, dbs, ls) && k < |dbs| && id in dbs[k].acknowledged
    ensures c < k && ls[c].Commit? && ls[c].replied && ls[c].s in dbs[c].txns
    ensures dbs[c].txns[ls[c].s].Inserting? && dbs[c].txns[ls[c].s].row.id == id
    ensures id in dbs[c + 1].table && dbs[c + 1].table[id] == dbs[c].txns[ls[c].s].row
  {
    hide Chosen, Writes, Overwritten;
    assert k > 0;
    assert StepAt(limit, dbs, ls, k - 1);
    if id in dbs[k - 1].acknowledged {
      c := AcknowledgedByCommit(limit, dbs, ls, k - 1, id);
    } else {
      c := k - 1;
    }
  }

  /** A 202 is never lost: an acknowledged id was inserted at some step i and committed at c
      with the caller told, and whatever happens later its row is in the table with the
      position and settings given to that insertion, created at its clock reading. */
  lemma AcknowledgedIsDurable(limit: int, dbs: seq<Db>, ls: seq<Label>, j: nat, k: nat, id: Id) returns (i: nat, c: nat)
    requires IsRun(limit, dbs, ls) && j <= k < |dbs| && id in dbs[j].acknowledged
    ensures i < c < j && ls[i].Insert? && ls[i].id == id && ls[c] == Commit(ls[i].s, true)
    ensures forall m: nat | i < m <= c :: InsertOpen(dbs, ls, i, m)
    ensures id in dbs[k].table
    ensures var r := dbs[k].table[id];
            r.id == id && r.fen == ls[i].fen && r.evaluationConfig == ls[i].config && r.createdAt == dbs[i].clock
  {
    c := AcknowledgedByCommit(limit, dbs, ls, j, id);
    i := OpenSince(limit, dbs, ls, c, ls[c].s);
    assert InsertOpen(dbs, ls, i, c);
    Refinement(limit, dbs, ls);
    Fencing.TasksPersist(limit, AbsStates(dbs), AbsOps(limit, dbs, ls), c + 1, k, id);
  }

  // ---------- Late persist calls ----------

  /** After a task is terminal its row never changes, and every persist call for it selects
      nothing: complete_task answers False and fail_or_retry "stale", without waiting. */
  lemma LateWorkersAreStale(limit: int, dbs: seq<Db>, ls: seq<Label>, j: nat, k: nat, id: Id, i: Intent)
    requires IsRun(limit, dbs, ls) && j <= k < |dbs| && id in dbs[j].table && dbs[j].table[id].status.Terminal()
    requires PersistIntent(i) && i.id == id
    ensures id in dbs[k].table && dbs[k].table[id] == dbs[j].table[id]
    ensures Chosen(dbs[k], i) == {} && !Waits(dbs[k], i)
  {
    Refinement(limit, dbs, ls);
    Fencing.TerminalIsFinal(limit, AbsStates(dbs), AbsOps(limit, dbs, ls), j, k, id);
    assert !AttemptGuard(dbs[k].table[id], id, i.token, dbs[k].clock);
  }

  /** Stale is never an artefact of locking: a persist call that is allowed to answer and
      selects nothing has a guard that fails on the committed row. */
  lemma StaleIsTruthful(limit: int, db: Db, s: Session, i: Intent)
    requires PersistIntent(i) && Enabled(limit, db, Select(s, i)) && i.id in db.table
    ensures Chosen(db, i) == {} <==> !AttemptGuard(db.table[i.id], i.id, i.token, db.clock)
  {
    assert AttemptGuard(db.table[i.id], i.id, i.token, db.clock) ==> i.id in Chosen(db, i);
  }

  // ---------- Claims ----------

  ghost predicate CommitsClaim(dbs: seq<Db>, ls: seq<Label>, k: nat, s: Session, id: Id, token: Token)
    requires |dbs| == |ls| + 1 && k < |ls|
  {
    && ls[k].Commit? && ls[k].s == s && s in dbs[k].txns && dbs[k].txns[s].Working?
    && dbs[k].txns[s].intent.Claim? && dbs[k].txns[s].intent.token == token && id in dbs[k].txns[s].before
  }

  // Only the commit of a claim records a token.
  lemma TokenRecorded(limit: int, db: Db, l: Label, id: Id, token: Token)
    requires Inv(limit, db) && Enabled(limit, db, l) && id in Do(db, l).history && token in Do(db, l).history[id]
    ensures || (id in db.history && token in db.history[id])
            || (&& l.Commit? && l.s in db.txns && db.txns[l.s].Working? && db.txns[l.s].intent.Claim?
                && db.txns[l.s].intent.token == token && id in db.txns[l.s].before)
  {
    hide A.Effect, A.Selects, A.Accepted, A.ReadAfter, SatisfiesChecks, Chosen, CommittedInv;
    if l.Commit? {
      assert TxnInv(limit, db, db.txns[l.s]);
    }
  }

  lemma {:induction false} TokenWasClaimed(limit: int, dbs: seq<Db>, ls: seq<Label>, k: nat, id: Id, token: Token)
    returns (i: nat, s: Session)
    requires IsRun(limit, dbs, ls) && k < |dbs| && id in dbs[k].history && token in dbs[k].history[id]
    ensures i < k && CommitsClaim(dbs, ls, i, s, id, token)
  {
    hide Enabled, Do, Inv;
    assert k > 0;
    assert StepAt(limit, dbs, ls, k - 1);
    InvHolds(limit, dbs, ls, k - 1);
    TokenRecorded(limit, dbs[k - 1], ls[k - 1], id, token);
    if id in dbs[k - 1].history && token in dbs[k - 1].history[id] {
      i, s := TokenWasClaimed(limit, dbs, ls, k - 1, id, token);
    } else {
      i, s := k - 1, ls[k - 1].s;
    }
  }

  lemma AbsClaim(limit: int, dbs: seq<Db>, ls: seq<Label>, k: nat, s: Session, id: Id, token: Token)
    requires IsRun(limit, dbs, ls) && k < |ls| && CommitsClaim(dbs, ls, k, s, id, token)
    ensures Fencing.ClaimsAt(AbsOps(limit, dbs, ls), k, id, token)
    ensures AbsOps(limit, dbs, ls)[k].now == dbs[k].txns[s].now
    ensures AbsOps(limit, dbs, ls)[k].intent == dbs[k].txns[s].intent
  {
  }

  /** Exclusive leases: whenever some token passes the guard of a task, exactly one commit
      of one session issued it, for that task, and the row is what that commit wrote. */
  lemma ExclusiveLease(limit: int, dbs: seq<Db>, ls: seq<Label>, k: nat, id: Id, token: Token, now: Time)
    returns (i: nat, s: Session)
    requires limit <= MAX_ATTEMPTS && IsRun(limit, dbs, ls) && k < |dbs|
    requires id in dbs[k].table && AttemptGuard(dbs[k].table[id], id, token, now)
    ensures i < k && CommitsClaim(dbs, ls, i, s, id, token)
    ensures id in dbs[i + 1].table && dbs[k].table[id] == dbs[i + 1].table[id]
    ensures forall j: nat, r, other | j < |ls| && CommitsClaim(dbs, ls, j, r, other, token) ::
              j == i && r == s && other == id
  {
    hide A.Effect, A.Selects, A.ReadAfter, SatisfiesChecks, Chosen;
    RowsValid(limit, dbs, ls, k, id);
    i, s := TokenWasClaimed(limit, dbs, ls, k, id, token);
    Refinement(limit, dbs, ls);
    var qs, ops := AbsStates(dbs), AbsOps(limit, dbs, ls);
    AbsClaim(limit, dbs, ls, i, s, id, token);
    Fencing.GuardMeansSnapshot(limit, qs, ops, i, k, id, token, now);
    forall j: nat, r, other | j < |ls| && CommitsClaim(dbs, ls, j, r, other, token)
      ensures j == i && r == s && other == id
    {
      AbsClaim(limit, dbs, ls, j, r, other, token);
      if i < j {
        Fencing.TokensIssuedOnce(limit, qs, ops, i, j, id, other, token);
      } else if j < i {
        Fencing.TokensIssuedOnce(limit, qs, ops, j, i, other, id, token);
      }
      assert A.StepAt(limit, qs, ops, i);
      A.SingletonElements(ops[i].ids, id, id);
    }
  }

  /** A claim passes over an older queued row only while another session has it locked:
      either the older row is locked at that moment or it was claimed in the meantime. */
  lemma OvertakenOnlyWhenLocked(limit: int, dbs: seq<Db>, ls: seq<Label>, j: nat, k: nat, a: Id, b: Id)
    requires IsRun(limit, dbs, ls) && j <= k < |ls| && a in dbs[j].table && dbs[j].table[a].status.Queued?
    requires ls[k].Select? && ls[k].intent.Claim? && b in Chosen(dbs[k], ls[k].intent)
    requires Older(dbs[j].table[a], dbs[k].table[b])
    ensures || (exists s :: s in dbs[k].txns && a in LocksOf(dbs[k].txns[s]))
            || (exists m: nat, s, token :: j <= m < k && CommitsClaim(dbs, ls, m, s, a, token))
  {
    Refinement(limit, dbs, ls);
    var qs, ops := AbsStates(dbs), AbsOps(limit, dbs, ls);
    if forall m: nat | j <= m < k :: !ClaimOrder.ClaimsRow(ops, m, a) {
      ClaimOrder.QueuedUntilClaimed(limit, qs, ops, j, k, a);
      assert IsOldest(dbs[k].table, Locked(dbs[k]), b);
      ClaimOrder.IdsAreKeys(limit, qs, ops, k);
      assert a in Locked(dbs[k]);
    } else {
      var m: nat :| j <= m < k && ClaimOrder.ClaimsRow(ops, m, a);
      assert StepAt(limit, dbs, ls, m);
      assert CommitsClaim(dbs, ls, m, ls[m].s, a, ops[m].intent.token);
    }
  }

  // Session s goes on with its transaction, others do not commit.
  predicate Quiet(l: Label, s: Session) {
    l.Tick? || l == Flush(s) || (!l.Commit? && l.s != s)
  }

  // The claim selected at j while no row was locked commits at k, with no commit in between.
  ghost predicate Undisturbed(dbs: seq<Db>, ls: seq<Label>, j: nat, k: nat)
    requires |dbs| == |ls| + 1 && k < |ls|
  {
    && j < k && ls[j].Select? && ls[j].intent.Claim? && Locked(dbs[j]) == {}
    && ls[k].Commit? && ls[k].s == ls[j].s
    && forall m | j < m < k :: Quiet(ls[m], ls[j].s)
  }

  lemma {:induction false} QuietSince(limit: int, dbs: seq<Db>, ls: seq<Label>, j: nat, k: nat)
    requires IsRun(limit, dbs, ls) && j < k < |dbs| && ls[j].Select? && forall m | j < m < k :: Quiet(ls[m], ls[j].s)
    ensures dbs[k].table == dbs[j].table
    ensures ls[j].s in dbs[k].txns ==>
              var txn := dbs[k].txns[ls[j].s];
              txn.Working? && txn.intent == ls[j].intent && txn.before.Keys == Chosen(dbs[j], ls[j].intent)
  {
    hide Chosen, Writes, A.Effect;
    assert StepAt(limit, dbs, ls, k - 1);
    if j + 1 < k {
      QuietSince(limit, dbs, ls, j, k - 1);
      assert Quiet(ls[k - 1], ls[j].s);
    } else {
      InvHolds(limit, dbs, ls, j);
      ChosenSelected(dbs[j], ls[j].intent);
    }
  }

  /** An undisturbed claim is, in the atomic queue, a claim of the oldest queued row. */
  lemma UndisturbedClaimServesOldest(limit: int, dbs: seq<Db>, ls: seq<Label>, j: nat, k: nat)
    requires IsRun(limit, dbs, ls) && k < |ls| && Undisturbed(dbs, ls, j, k)
    ensures var ops := AbsOps(limit, dbs, ls);
            && ops[k].Apply? && ops[k].intent == ls[j].intent && ops[k].ids == Chosen(dbs[j], ls[j].intent)
            && ClaimOrder.OldestServed(Abs(dbs[k]), ops[k])
  {
    hide IsOldest, A.Effect, A.Selects;
    assert StepAt(limit, dbs, ls, k);
    QuietSince(limit, dbs, ls, j, k);
  }

  ghost predicate CommitsAnyClaim(dbs: seq<Db>, ls: seq<Label>, k: nat)
    requires |dbs| == |ls| + 1 && k < |ls|
  {
    && ls[k].Commit? && ls[k].s in dbs[k].txns
    && dbs[k].txns[ls[k].s].Working? && dbs[k].txns[ls[k].s].intent.Claim?
  }

  // Every claim that commits was undisturbed.
  ghost predicate ClaimsInTurn(dbs: seq<Db>, ls: seq<Label>)
    requires |dbs| == |ls| + 1
  {
    forall k: nat | k < |ls| && CommitsAnyClaim(dbs, ls, k) :: exists j: nat :: Undisturbed(dbs, ls, j, k)
  }

  /** An interleaved run whose claims come in turn serves the queue in order, so all of
      ClaimOrder holds of it. In particular, a queued row, new or requeued, is claimed before
      any younger one. */
  lemma FirstComeFirstServed(limit: int, dbs: seq<Db>, ls: seq<Label>)
    requires IsRun(limit, dbs, ls) && ClaimsInTurn(dbs, ls)
    ensures ClaimOrder.ServesOldest(AbsStates(dbs), AbsOps(limit, dbs, ls))
    ensures forall j: nat, k: nat, a, b, s, token |
              && j <= k < |ls| && a in dbs[j].table && dbs[j].table[a].status.Queued?
              && CommitsClaim(dbs, ls, k, s, b, token)
              && b in dbs[k].table && Older(dbs[j].table[a], dbs[k].table[b]) ::
              exists m: nat, r, t :: j <= m < k && CommitsClaim(dbs, ls, m, r, a, t)
  {
    hide Chosen, Older, A.Effect, A.Selects;
    Refinement(limit, dbs, ls);
    var qs, ops := AbsStates(dbs), AbsOps(limit, dbs, ls);
    forall k: nat | k < |ops| && ops[k].Apply? && ops[k].intent.Claim?
      ensures ClaimOrder.OldestServed(qs[k], ops[k])
    {
      assert StepAt(limit, dbs, ls, k) && CommitsAnyClaim(dbs, ls, k);
      var j: nat :| Undisturbed(dbs, ls, j, k);
      UndisturbedClaimServesOldest(limit, dbs, ls, j, k);
    }
    forall j: nat, k: nat, a, b, s, token |
      && j <= k < |ls| && a in dbs[j].table && dbs[j].table[a].status.Queued?
      && CommitsClaim(dbs, ls, k, s, b, token) && b in dbs[k].table && Older(dbs[j].table[a], dbs[k].table[b])
      ensures exists m: nat, r, t :: j <= m < k && CommitsClaim(dbs, ls, m, r, a, t)
    {
      ServedBefore(limit, dbs, ls, j, k, a, b, s, token);
    }
  }

  lemma ServedBefore(limit: int, dbs: seq<Db>, ls: seq<Label>, j: nat, k: nat, a: Id, b: Id, s: Session, token: Token)
    requires IsRun(limit, dbs, ls) && ClaimOrder.ServesOldest(AbsStates(dbs), AbsOps(limit, dbs, ls))
    requires j <= k < |ls| && a in dbs[j].table && dbs[j].table[a].status.Queued?
    requires CommitsClaim(dbs, ls, k, s, b, token) && b in dbs[k].table && Older(dbs[j].table[a], dbs[k].table[b])
    ensures exists m: nat, r, t :: j <= m < k && CommitsClaim(dbs, ls, m, r, a, t)
  {
    hide Chosen, A.Effect, A.Selects;
    Refinement(limit, dbs, ls);
    var qs, ops := AbsStates(dbs), AbsOps(limit, dbs, ls);
    AbsClaim(limit, dbs, ls, k, s, b, token);
    ClaimOrder.IdsAreKeys(limit, qs, ops, j);
    ClaimOrder.IdsAreKeys(limit, qs, ops, k);
    ClaimOrder.NotOvertaken(limit, qs, ops, j, k, a, b);
    var m: nat :| j <= m < k && ClaimOrder.ClaimsRow(ops, m, a);
    assert StepAt(limit, dbs, ls, m);
    assert CommitsClaim(dbs, ls, m, ls[m].s, a, ops[m].intent.token);
  }

  function RunAlone(db: Db, s: Session, i: Intent, replied: bool): Db
    requires s !in db.txns && Chosen(db, i) != {}
  {
    Do(Do(Do(db, Select(s, i)), Flush(s)), Commit(s, replied))
  }

  /** A transaction run without interference writes exactly the rows it selected and leaves
      no lock behind. */
  lemma AloneWritesChosen(db: Db, s: Session, i: Intent, replied: bool)
    requires CommittedInv(db) && s !in db.txns && Chosen(db, i) != {}
    ensures RunAlone(db, s, i, replied).table == A.Written(db.table, i, Chosen(db, i), db.clock)
    ensures RunAlone(db, s, i, replied).txns == db.txns
  {
    hide A.Effect, A.Selects, IsOldest;
    ChosenSelected(db, i);
    var selected := Do(db, Select(s, i));
    var before := selected.txns[s].before;
    assert before.Keys == Chosen(db, i);
    assert selected.table == db.table && selected.txns - {s} == db.txns;
    assert Overwritten(db.table, Writes(i, before, db.clock)) == A.Written(db.table, i, Chosen(db, i), db.clock);
  }

  /** Run alone, recovery is the pointwise pass of TaskTable.RecoverExpired, and a second
      recovery at the same reading finds nothing. */
  lemma RecoveryAloneIsOnePass(policy: RecoveryPolicy, db: Db, s: Session, replied: bool)
    requires CommittedInv(db) && s !in db.txns && Chosen(db, A.Recover(policy)) != {}
    ensures var db' := RunAlone(db, s, A.Recover(policy), replied);
            && db'.table == RecoveredTable(db.table, Locked(db), policy, db.clock)
            && Chosen(db'.(clock := db.clock), A.Recover(policy)) == {}
  {
    hide Recovered, A.ReadAfter;
    AloneWritesChosen(db, s, A.Recover(policy), replied);
    RecoveryIsExhaustive(db.table, Locked(db), policy, db.clock);
    var db' := RunAlone(db, s, A.Recover(policy), replied);
    assert db'.table == RecoveredTable(db.table, Locked(db), policy, db.clock);
    assert Locked(db'.(clock := db.clock)) == Locked(db);
  }

  // ---------- The holder's own persist call ----------

  ghost predicate PresentedBy(ls: seq<Label>, k: nat, token: Token) {
    exists j: nat :: j < k && j < |ls| && PresentsToken(ls[j], token)
  }

  ghost predicate PresentsToken(l: Label, token: Token) {
    l.Select? && PersistIntent(l.intent) && l.intent.token == token
  }

  lemma {:induction false} UnpresentedToken(limit: int, dbs: seq<Db>, ls: seq<Label>, k: nat, token: Token)
    requires IsRun(limit, dbs, ls) && k < |dbs| && !PresentedBy(ls, k, token)
    ensures forall s | s in dbs[k].txns && dbs[k].txns[s].Working? :: 
              PersistIntent(dbs[k].txns[s].intent) ==> dbs[k].txns[s].intent.token != token
  {
    if k > 0 {
      assert StepAt(limit, dbs, ls, k - 1);
      UnpresentedToken(limit, dbs, ls, k - 1, token);
      assert !PresentsToken(ls[k - 1], token);
    }
  }

  /** Until its lease runs out, the first persist call presenting a claim's token neither
      waits nor is stale: it finds the row unlocked, exactly as it was claimed. */
  lemma HolderIsNeverStale(limit: int, dbs: seq<Db>, ls: seq<Label>, i: nat, k: nat, s: Session, id: Id, intent: Intent)
    requires limit <= MAX_ATTEMPTS && IsRun(limit, dbs, ls) && i < k < |dbs|
    requires PersistIntent(intent) && intent.id == id && CommitsClaim(dbs, ls, i, s, id, intent.token)
    requires !PresentedBy(ls, k, intent.token)
    requires dbs[k].clock < dbs[i].txns[s].now + dbs[i].txns[s].intent.lease
    ensures Chosen(dbs[k], intent) == {id} && !Waits(dbs[k], intent)
    ensures id in dbs[i + 1].table && dbs[k].table[id] == dbs[i + 1].table[id]
  {
    Refinement(limit, dbs, ls);
    var qs, ops := AbsStates(dbs), AbsOps(limit, dbs, ls);
    AbsClaim(limit, dbs, ls, i, s, id, intent.token);
    forall j | i < j < k
      ensures !Fencing.Presents(ops[j], intent.token)
    {
      assert StepAt(limit, dbs, ls, j);
      UnpresentedToken(limit, dbs, ls, j, intent.token);
    }
    Fencing.LeaseHeld(limit, qs, ops, i, k, id, intent.token);
    UnpresentedToken(limit, dbs, ls, k, intent.token);
    assert AttemptGuard(dbs[k].table[id], id, intent.token, dbs[k].clock);
    NotLocked(limit, dbs, ls, k, id, intent.token);
  }

  lemma NotLocked(limit: int, dbs: seq<Db>, ls: seq<Label>, k: nat, id: Id, token: Token)
    requires IsRun(limit, dbs, ls) && k < |dbs| && id in dbs[k].table
    requires AttemptGuard(dbs[k].table[id], id, token, dbs[k].clock)
    requires forall s | s in dbs[k].txns && dbs[k].txns[s].Working? ::
              PersistIntent(dbs[k].txns[s].intent) ==> dbs[k].txns[s].intent.token != token
    ensures id !in Locked(dbs[k])
  {
    InvHolds(limit, dbs, ls, k);
    forall s | s in dbs[k].txns
      ensures id !in LocksOf(dbs[k].txns[s])
    {
      assert TxnInv(limit, dbs[k], dbs[k].txns[s]);
    }
  }
}
