/** How long interleaved transactions can go on: the bound on what they write, when a poll
    has nothing to do, and a way to finish everything from any reachable state. */
module LockedProgress {
  import opened Schema
  import opened Tasks
  import opened LockedQueue
  import A = AtomicQueue
  import Fencing
  import LockedRuns
  import Progress

  // ---------- How much a run can write ----------

  /** A row changes at most 2 * MAX_ATTEMPTS times, whatever the interleaving. */
  lemma BoundedTransitions(limit: int, dbs: seq<Db>, ls: seq<Label>, k: nat, id: Id)
    requires limit <= MAX_ATTEMPTS && IsRun(limit, dbs, ls) && k < |dbs|
    ensures Progress.Transitions(AbsStates(dbs)[..k + 1], id) <= 2 * MAX_ATTEMPTS
  {
    Refinement(limit, dbs, ls);
    Progress.BoundedTransitions(limit, AbsStates(dbs), AbsOps(limit, dbs, ls), k, id);
  }

  predicate CommitsWork(db: Db, l: Label) {
    l.Commit? && l.s in db.txns && db.txns[l.s].Working?
  }

  predicate CommitsInsert(db: Db, l: Label) {
    l.Commit? && l.s in db.txns && db.txns[l.s].Inserting?
  }

  // Between states j and k: working transactions committed, rows they wrote, tasks inserted.
  function WorkCommits(dbs: seq<Db>, ls: seq<Label>, j: nat, k: nat): nat
    requires j <= k <= |ls| < |dbs|
  {
    if j == k then 0 else WorkCommits(dbs, ls, j, k - 1) + if CommitsWork(dbs[k - 1], ls[k - 1]) then 1 else 0
  }

  function RowsCommitted(dbs: seq<Db>, ls: seq<Label>, j: nat, k: nat): nat
    requires j <= k <= |ls| < |dbs|
  {
    if j == k then 0
    else
      RowsCommitted(dbs, ls, j, k - 1)
      + if CommitsWork(dbs[k - 1], ls[k - 1]) then |dbs[k - 1].txns[ls[k - 1].s].before.Keys| else 0
  }

  function InsertCommits(dbs: seq<Db>, ls: seq<Label>, j: nat, k: nat): nat
    requires j <= k <= |ls| < |dbs|
  {
    if j == k then 0 else InsertCommits(dbs, ls, j, k - 1) + if CommitsInsert(dbs[k - 1], ls[k - 1]) then 1 else 0
  }

  lemma StepCounts(limit: int, db: Db, l: Label)
    requires Inv(limit, db) && Enabled(limit, db, l)
    ensures Progress.RowsOf(AbsOp(db, l)) == if CommitsWork(db, l) then |db.txns[l.s].before.Keys| else 0
    ensures AbsOp(db, l).Submit? <==> CommitsInsert(db, l)
    ensures CommitsWork(db, l) ==> |db.txns[l.s].before.Keys| >= 1
  {
    hide Chosen, A.Effect, A.Selects, A.Accepted, A.ReadAfter, SatisfiesChecks, CommittedInv;
    if l.Commit? {
      assert TxnInv(limit, db, db.txns[l.s]);
    }
  }

  lemma {:induction false} CountsAgree(limit: int, dbs: seq<Db>, ls: seq<Label>, j: nat, k: nat)
    requires IsRun(limit, dbs, ls) && j <= k < |dbs|
    ensures var ops := AbsOps(limit, dbs, ls)[j..k];
            && RowsCommitted(dbs, ls, j, k) == Progress.RowsWritten(ops)
            && InsertCommits(dbs, ls, j, k) == Fencing.Submissions(ops)
    ensures WorkCommits(dbs, ls, j, k) <= RowsCommitted(dbs, ls, j, k)
  {
    hide Enabled, Do, Inv, CommitsWork, CommitsInsert, Progress.RowsOf;
    if j < k {
      CountsAgree(limit, dbs, ls, j, k - 1);
      assert StepAt(limit, dbs, ls, k - 1);
      InvHolds(limit, dbs, ls, k - 1);
      StepCounts(limit, dbs[k - 1], ls[k - 1]);
      var ops := AbsOps(limit, dbs, ls);
      assert ops[j..k][..k - j - 1] == ops[j..k - 1];
    }
  }

  /** In any stretch of any interleaving, each committed transaction other than an insertion
      writes at least one row, and all they write is paid for by the work open when the
      stretch began and by 2 * MAX_ATTEMPTS for each task inserted in it. */
  lemma BoundedCommits(limit: int, dbs: seq<Db>, ls: seq<Label>, j: nat, k: nat)
    requires limit <= MAX_ATTEMPTS && IsRun(limit, dbs, ls) && j <= k < |dbs|
    ensures WorkCommits(dbs, ls, j, k) <= RowsCommitted(dbs, ls, j, k)
    ensures RowsCommitted(dbs, ls, j, k) + Progress.TotalWork(Abs(dbs[k]))
            <= Progress.TotalWork(Abs(dbs[j])) + 2 * MAX_ATTEMPTS * InsertCommits(dbs, ls, j, k)
    ensures Progress.TotalWork(Abs(dbs[j])) <= 2 * MAX_ATTEMPTS * |dbs[j].table|
    ensures WorkCommits(dbs, ls, 0, k) <= 2 * MAX_ATTEMPTS * InsertCommits(dbs, ls, 0, k)
  {
    hide Chosen, A.Effect, A.Selects, A.IsRun;
    Refinement(limit, dbs, ls);
    CountsAgree(limit, dbs, ls, j, k);
    CountsAgree(limit, dbs, ls, 0, k);
    var qs, ops := AbsStates(dbs), AbsOps(limit, dbs, ls);
    Progress.BoundedWrites(limit, qs, ops, j, k);
    Progress.BoundedWrites(limit, qs, ops, 0, k);
    A.InvHolds(limit, qs, ops, j);
    Progress.WorkBound(qs[j], qs[j].table.Keys);
    assert |dbs[j].table| == |dbs[j].table.Keys|;
  }

  // ---------- When there is nothing to do ----------

  /** Recovery and claim both come back empty exactly when every open row is locked by
      another session or running under a live lease. */
  lemma NothingToDo(limit: int, dbs: seq<Db>, ls: seq<Label>, k: nat, recover: Intent, claim: Intent)
    requires limit <= MAX_ATTEMPTS && IsRun(limit, dbs, ls) && k < |dbs| && recover.Recover? && claim.Claim?
    ensures Chosen(dbs[k], recover) == {} && Chosen(dbs[k], claim) == {} <==>
            forall id | id in dbs[k].table && !dbs[k].table[id].status.Terminal() ::
              var r := dbs[k].table[id]; id in Locked(dbs[k]) || (r.status.Running? && !LeaseExpired(r, dbs[k].clock))
  {
    var db := dbs[k];
    InvHolds(limit, dbs, ls, k);
    forall id | id in db.table
      ensures db.table[id].id == id && !db.table[id].status.Other?
    {
      LockedRuns.RowsValid(limit, dbs, ls, k, id);
    }
    OldestChosen(db, claim);
    forall id | id in db.table
      ensures id in Chosen(db, recover) <==> id !in Locked(db) && LeaseExpired(db.table[id], db.clock)
      ensures Claimable(db.table, Locked(db), id) <==> id !in Locked(db) && db.table[id].status.Queued?
    {
    }
    if Chosen(db, recover) != {} {
      var id :| id in Chosen(db, recover);
      assert id in db.table && !db.table[id].status.Terminal();
    } else if Chosen(db, claim) != {} {
      var id :| id in db.table && Claimable(db.table, Locked(db), id);
      assert !db.table[id].status.Terminal();
    }
  }

  lemma OldestChosen(db: Db, i: Intent)
    requires CommittedInv(db) && i.Claim?
    ensures Chosen(db, i) == {} <==> NoneClaimable(db.table, Locked(db))
  {
    var candidates := set id | id in db.table && Claimable(db.table, Locked(db), id);
    if candidates != {} {
      OldestExists(db.table, Locked(db), candidates);
      var oldest :| oldest in candidates && OldestAmong(db.table, candidates, oldest);
      OldestIsUnique(db.table, Locked(db), candidates, oldest);
      assert oldest in Chosen(db, i);
    } else {
      assert forall id | id in db.table && Claimable(db.table, Locked(db), id) :: id in candidates;
    }
  }

  // ---------- Everything can be finished ----------

  // The run goes on from its last state, without insertions.
  ghost predicate Continues(limit: int, dbs: seq<Db>, ls: seq<Label>, dbs': seq<Db>, ls': seq<Label>) {
    && IsRun(limit, dbs, ls) && IsRun(limit, dbs', ls') && |ls| <= |ls'|
    && dbs'[..|dbs|] == dbs && ls'[..|ls|] == ls
    && forall k: nat | |ls| <= k < |ls'| :: !ls'[k].Insert?
  }

  lemma Extend(limit: int, dbs: seq<Db>, ls: seq<Label>, l: Label) returns (dbs': seq<Db>, ls': seq<Label>)
    requires IsRun(limit, dbs, ls) && Enabled(limit, dbs[|ls|], l) && !l.Insert?
    ensures Continues(limit, dbs, ls, dbs', ls') && ls' == ls + [l] && dbs'[|ls'|] == Do(dbs[|ls|], l)
  {
    dbs', ls' := Append(limit, dbs, ls, l);
  }

  lemma ContinuesOn(limit: int, a: seq<Db>, la: seq<Label>, b: seq<Db>, lb: seq<Label>, c: seq<Db>, lc: seq<Label>)
    requires Continues(limit, a, la, b, lb) && Continues(limit, b, lb, c, lc)
    ensures Continues(limit, a, la, c, lc)
  {
    hide StepAt;
    assert c[..|a|] == c[..|b|][..|a|];
    assert lc[..|la|] == lc[..|lb|][..|la|];
    forall k: nat | |la| <= k < |lc|
      ensures !lc[k].Insert?
    {
      assert k < |lb| ==> lc[k] == lc[..|lb|][k];
    }
  }

  function Finished(db: Db, s: Session): Db
    requires s in db.txns
  {
    var flushed := if db.txns[s].Working? && !db.txns[s].flushed then Do(db, Flush(s)) else db;
    Do(flushed, Commit(s, true))
  }

  // Flushes the transaction of session s if need be, and commits it.
  lemma Finish(limit: int, dbs: seq<Db>, ls: seq<Label>, s: Session) returns (dbs': seq<Db>, ls': seq<Label>)
    requires limit <= MAX_ATTEMPTS && IsRun(limit, dbs, ls) && s in dbs[|ls|].txns
    ensures Continues(limit, dbs, ls, dbs', ls')
    ensures forall k | |ls| <= k < |ls'| :: !ls'[k].Tick? && ls'[k].s == s
    ensures dbs'[|ls'|] == Finished(dbs[|ls|], s) && dbs'[|ls'|].txns == dbs[|ls|].txns - {s}
    ensures Progress.TotalWork(Abs(dbs'[|ls'|]))
            <= Progress.TotalWork(Abs(dbs[|ls|])) + if dbs[|ls|].txns[s].Working? then -1 else 2 * MAX_ATTEMPTS
  {
    hide Chosen, A.Effect, A.Selects, Overwritten, A.Recorded;
    var db, txn := dbs[|ls|], dbs[|ls|].txns[s];
    LockedRuns.OpenTransactionsCanFinish(limit, dbs, ls, |ls|, s);
    dbs', ls' := dbs, ls;
    if txn.Working? && !txn.flushed {
      dbs', ls' := Extend(limit, dbs, ls, Flush(s));
    }
    var flushed := dbs'[|ls'|];
    assert flushed.txns - {s} == db.txns - {s} && Abs(flushed) == Abs(db);
    LockedRuns.OpenTransactionsCanFinish(limit, dbs', ls', |ls'|, s);
    CommitWork(limit, dbs', ls', s);
    var dbs'', ls'' := Extend(limit, dbs', ls', Commit(s, true));
    ContinuesOn(limit, dbs, ls, dbs', ls', dbs'', ls'');
    dbs', ls' := dbs'', ls'';
  }

  lemma CommitWork(limit: int, dbs: seq<Db>, ls: seq<Label>, s: Session)
    requires limit <= MAX_ATTEMPTS && IsRun(limit, dbs, ls) && Enabled(limit, dbs[|ls|], Commit(s, true))
    ensures var db := dbs[|ls|];
            Progress.TotalWork(Abs(Do(db, Commit(s, true))))
            <= Progress.TotalWork(Abs(db)) + if db.txns[s].Working? then -1 else 2 * MAX_ATTEMPTS
  {
    hide Chosen, A.Effect, A.Selects, Overwritten, A.Recorded, A.IsRun;
    var db := dbs[|ls|];
    InvHolds(limit, dbs, ls, |ls|);
    assert TxnInv(limit, db, db.txns[s]);
    Refinement(limit, dbs, ls);
    A.InvHolds(limit, AbsStates(dbs), AbsOps(limit, dbs, ls), |ls|);
    Simulates(limit, db, Commit(s, true));
    var op := AbsOp(db, Commit(s, true));
    if db.txns[s].Working? {
      Progress.WorkStep(limit, Abs(db), op);
    } else {
      Progress.SubmitStep(Abs(db), op);
    }
  }

  lemma {:induction false} FinishAll(limit: int, dbs: seq<Db>, ls: seq<Label>) returns (dbs': seq<Db>, ls': seq<Label>)
    requires limit <= MAX_ATTEMPTS && IsRun(limit, dbs, ls)
    ensures Continues(limit, dbs, ls, dbs', ls') && dbs'[|ls'|].txns == map[]
    decreases |dbs[|ls|].txns.Keys|
  {
    dbs', ls' := dbs, ls;
    var txns := dbs[|ls|].txns;
    if txns != map[] {
      assert txns.Keys != {};
      var s :| s in txns;
      dbs', ls' := Finish(limit, dbs, ls, s);
      assert (txns - {s}).Keys == txns.Keys - {s};
      var dbs'', ls'' := FinishAll(limit, dbs', ls');
      ContinuesOn(limit, dbs, ls, dbs', ls', dbs'', ls'');
      dbs', ls' := dbs'', ls'';
    }
  }

  lemma {:induction false} UnusedToken(tokens: set<Token>) returns (bound: Token)
    ensures forall t | t in tokens :: t < bound
  {
    bound := 0;
    if tokens != {} {
      var t :| t in tokens;
      bound := UnusedToken(tokens - {t});
      assert forall x | x in tokens :: x == t || x in tokens - {t};
      bound := if t < bound then bound else t + 1;
    }
  }

  // A transaction that selects something, run alone by session s.
  lemma RunTxn(limit: int, dbs: seq<Db>, ls: seq<Label>, s: Session, i: Intent) returns (dbs': seq<Db>, ls': seq<Label>)
    requires limit <= MAX_ATTEMPTS && IsRun(limit, dbs, ls) && Enabled(limit, dbs[|ls|], Select(s, i))
    requires Chosen(dbs[|ls|], i) != {}
    ensures Continues(limit, dbs, ls, dbs', ls') && forall k | |ls| <= k < |ls'| :: !ls'[k].Tick? && ls'[k].s == s
    ensures dbs'[|ls'|] == LockedRuns.RunAlone(dbs[|ls|], s, i, true)
    ensures dbs'[|ls'|].txns == dbs[|ls|].txns
    ensures Progress.TotalWork(Abs(dbs'[|ls'|])) < Progress.TotalWork(Abs(dbs[|ls|]))
  {
    hide Chosen, A.Effect, A.Selects;
    var db := dbs[|ls|];
    dbs', ls' := Extend(limit, dbs, ls, Select(s, i));
    assert dbs'[|ls'|].txns - {s} == db.txns && Abs(dbs'[|ls'|]) == Abs(db);
    var dbs'', ls'' := Finish(limit, dbs', ls', s);
    assert ls''[|ls|] == ls''[..|ls'|][|ls|];
    ContinuesOn(limit, dbs, ls, dbs', ls', dbs'', ls'');
    dbs', ls' := dbs'', ls'';
  }

  // Advances the clock past every lease.
  lemma LetLeasesLapse(limit: int, dbs: seq<Db>, ls: seq<Label>) returns (dbs': seq<Db>, ls': seq<Label>)
    requires limit <= MAX_ATTEMPTS && IsRun(limit, dbs, ls)
    ensures Continues(limit, dbs, ls, dbs', ls')
    ensures var db, db' := dbs[|ls|], dbs'[|ls'|];
            && db'.txns == db.txns && db'.table == db.table && Abs(db').table == Abs(db).table
            && forall id | id in db'.table && db'.table[id].status.Running? :: LeaseExpired(db'.table[id], db'.clock)
  {
    hide A.IsRun, A.Inv;
    Refinement(limit, dbs, ls);
    A.InvHolds(limit, AbsStates(dbs), AbsOps(limit, dbs, ls), |ls|);
    var delta := Progress.LeasesLapse(limit, Abs(dbs[|ls|]));
    dbs', ls' := Extend(limit, dbs, ls, Tick(delta));
  }

  lemma {:induction false} DrainAll(limit: int, dbs: seq<Db>, ls: seq<Label>) returns (dbs': seq<Db>, ls': seq<Label>)
    requires 1 <= limit <= MAX_ATTEMPTS && IsRun(limit, dbs, ls) && dbs[|ls|].txns == map[]
    ensures Continues(limit, dbs, ls, dbs', ls') && dbs'[|ls'|].txns == map[] && Progress.AllTerminal(dbs'[|ls'|].table)
    decreases Progress.TotalWork(Abs(dbs[|ls|]))
  {
    hide Chosen, A.Accepted, StepAt, Progress.AllTerminal;
    dbs', ls' := LetLeasesLapse(limit, dbs, ls);
    var db := dbs'[|ls'|];
    var token := UnusedToken(db.generated);
    var recover, claim := A.Recover(DefaultPolicy(limit)), A.Claim(token, 1);
    if Chosen(db, recover) != {} || Chosen(db, claim) != {} {
      AcceptedByLimit(limit, token);
      var dbs'', ls'' := RunTxn(limit, dbs', ls', 0, if Chosen(db, recover) != {} then recover else claim);
      ContinuesOn(limit, dbs, ls, dbs', ls', dbs'', ls'');
      var dbs3, ls3 := DrainAll(limit, dbs'', ls'');
      ContinuesOn(limit, dbs, ls, dbs'', ls'', dbs3, ls3);
      dbs', ls' := dbs3, ls3;
    } else {
      NothingToDo(limit, dbs', ls', |ls'|, recover, claim);
      assert Progress.AllTerminal(db.table) by {
        AllDone(db);
      }
    }
  }

  lemma AcceptedByLimit(limit: int, token: Token)
    requires limit >= 1
    ensures A.Accepted(limit, A.Recover(DefaultPolicy(limit))) && A.Accepted(limit, A.Claim(token, 1))
  {
  }

  lemma AllDone(db: Db)
    requires db.txns == map[]
    requires forall id | id in db.table && db.table[id].status.Running? :: LeaseExpired(db.table[id], db.clock)
    requires forall id | id in db.table && !db.table[id].status.Terminal() ::
               id in Locked(db) || (db.table[id].status.Running? && !LeaseExpired(db.table[id], db.clock))
    ensures Progress.AllTerminal(db.table)
  {
  }

  /** No deadlock and no livelock by necessity: from every reachable state, with whatever
      transactions and locks open, some continuation without insertions ends with no open
      transaction and every task terminal. */
  lemma EverythingCanFinish(limit: int, dbs: seq<Db>, ls: seq<Label>) returns (dbs': seq<Db>, ls': seq<Label>)
    requires 1 <= limit <= MAX_ATTEMPTS && IsRun(limit, dbs, ls)
    ensures Continues(limit, dbs, ls, dbs', ls')
    ensures dbs'[|ls'|].txns == map[] && Progress.AllTerminal(dbs'[|ls'|].table)
  {
    dbs', ls' := FinishAll(limit, dbs, ls);
    var dbs'', ls'' := DrainAll(limit, dbs', ls');
    ContinuesOn(limit, dbs, ls, dbs', ls', dbs'', ls'');
    dbs', ls' := dbs'', ls'';
  }
}
