/** Interleavings that can always happen: a submission commits whatever else is open, and
    two workers claim different rows at the same time without waiting for each other. */
module Interleavings {
  import opened Schema
  import opened Tasks
  import opened LockedQueue
  import A = AtomicQueue
  import LockedRuns

  // ---------- Submissions ----------

  // No row and no open insertion has this id.
  predicate Unused(db: Db, id: Id) {
    && id !in db.table
    && forall s | s in db.txns && db.txns[s].Inserting? :: db.txns[s].row.id != id
  }

  /** At any point of any run, whatever other sessions have open, an idle session can insert a
      fresh id and commit. The row is then in the table; the id counts as acknowledged exactly
      when the caller learnt of the commit. */
  lemma SubmissionCommits(limit: int, dbs: seq<Db>, ls: seq<Label>, s: Session, id: Id, fen: string, config: Config,
                          replied: bool)
    returns (dbs': seq<Db>, ls': seq<Label>)
    requires IsRun(limit, dbs, ls) && s !in dbs[|ls|].txns && Unused(dbs[|ls|], id)
    ensures IsRun(limit, dbs', ls') && ls' == ls + [Insert(s, id, fen, config), Commit(s, replied)]
    ensures dbs <= dbs'
    ensures var db, db' := dbs[|ls|], dbs'[|ls'|];
            && db'.table == db.table[id := NewRow(id, fen, config, db.clock)]
            && db'.txns == db.txns && db'.clock == db.clock
            && (forall other :: other in db'.acknowledged <==> other in db.acknowledged || (replied && other == id))
  {
    dbs', ls' := Append(limit, dbs, ls, Insert(s, id, fen, config));
    assert dbs'[|ls'|].txns - {s} == dbs[|ls|].txns;
    dbs', ls' := Append(limit, dbs', ls', Commit(s, replied));
  }

  // ---------- Concurrent claims ----------

  // Session s selects the first row in line, beside whatever is open.
  lemma ClaimSelects(limit: int, dbs: seq<Db>, ls: seq<Label>, s: Session, claim: Intent, id: Id)
    returns (dbs': seq<Db>, ls': seq<Label>)
    requires IsRun(limit, dbs, ls) && s !in dbs[|ls|].txns && FirstInLine(dbs[|ls|].table, Locked(dbs[|ls|]), id)
    requires claim.Claim? && claim.lease > 0 && claim.token !in dbs[|ls|].generated
    ensures IsRun(limit, dbs', ls') && ls' == ls + [Select(s, claim)] && dbs <= dbs'
    ensures var db, db' := dbs[|ls|], dbs'[|ls'|];
            && db'.table == db.table && db'.clock == db.clock && db'.generated == db.generated + {claim.token}
            && db'.txns == db.txns[s := Working(claim, db.clock, map[id := db.table[id]], map[], false)]
            && Locked(db') == Locked(db) + {id}
  {
    var db := dbs[|ls|];
    InvHolds(limit, dbs, ls, |ls|);
    ClaimsFirstInLine(db, claim, id);
    ChosenSelected(db, claim);
    A.SingletonElements(Chosen(db, claim), id, id);
    dbs', ls' := Append(limit, dbs, ls, Select(s, claim));
    var db' := dbs'[|ls'|];
    assert db'.txns[s].before == map[id := db.table[id]];
    LockedByOneMore(db, s, db'.txns[s], db');
  }

  lemma LockedByOneMore(db: Db, s: Session, txn: Txn, db': Db)
    requires s !in db.txns && db'.txns == db.txns[s := txn]
    ensures Locked(db') == Locked(db) + LocksOf(txn)
  {
    forall t, id | t in db.txns && id in LocksOf(db.txns[t])
      ensures id in Locked(db')
    {
      assert t in db'.txns && db'.txns[t] == db.txns[t];
    }
    assert s in db'.txns && forall id | id in LocksOf(txn) :: id in LocksOf(db'.txns[s]);
  }

  // Session s flushes and commits the claim it has open.
  lemma ClaimCommits(limit: int, dbs: seq<Db>, ls: seq<Label>, s: Session, id: Id, row: Row)
    returns (dbs': seq<Db>, ls': seq<Label>)
    requires limit <= MAX_ATTEMPTS && IsRun(limit, dbs, ls) && s in dbs[|ls|].txns && id in dbs[|ls|].table
    requires var txn := dbs[|ls|].txns[s];
             txn.Working? && !txn.flushed && txn.before == map[id := row] && txn.intent.Claim?
    ensures IsRun(limit, dbs', ls') && ls' == ls + [Flush(s), Commit(s, true)] && dbs <= dbs'
    ensures var db, db', txn := dbs[|ls|], dbs'[|ls'|], dbs[|ls|].txns[s];
            && db'.table == db.table[id := Claimed(row, txn.intent.token, txn.intent.lease, txn.now)]
            && db'.txns == db.txns - {s}
  {
    hide Chosen, A.Selects, A.ReadAfter, SatisfiesChecks, Claimed;
    LockedRuns.OpenTransactionsCanFinish(limit, dbs, ls, |ls|, s);
    dbs', ls' := Append(limit, dbs, ls, Flush(s));
    assert dbs'[|ls'|].txns - {s} == dbs[|ls|].txns - {s};
    dbs', ls' := Append(limit, dbs', ls', Commit(s, true));
  }

  /** SKIP LOCKED at work: while one session holds the first row in line, another claims the
      next one, and commits first; in the end both rows are claimed, each with its own token. */
  lemma ClaimsOverlap(limit: int, dbs: seq<Db>, ls: seq<Label>, s: Session, t: Session, a: Id, b: Id,
                      first: Intent, second: Intent)
    returns (dbs': seq<Db>, ls': seq<Label>)
    requires limit <= MAX_ATTEMPTS && IsRun(limit, dbs, ls)
    requires s != t && s !in dbs[|ls|].txns && t !in dbs[|ls|].txns
    requires FirstInLine(dbs[|ls|].table, Locked(dbs[|ls|]), a)
    requires FirstInLine(dbs[|ls|].table, Locked(dbs[|ls|]) + {a}, b)
    requires first.Claim? && first.lease > 0 && first.token !in dbs[|ls|].generated
    requires second.Claim? && second.lease > 0 && second.token !in dbs[|ls|].generated && first.token != second.token
    ensures IsRun(limit, dbs', ls') && dbs <= dbs'
    ensures ls' == ls + [Select(s, first), Select(t, second), Flush(t), Commit(t, true), Flush(s), Commit(s, true)]
    ensures var db, db' := dbs[|ls|], dbs'[|ls'|];
            && a != b && db'.txns == db.txns
            && db'.table == db.table[b := Claimed(db.table[b], second.token, second.lease, db.clock)]
                                    [a := Claimed(db.table[a], first.token, first.lease, db.clock)]
  {
    hide Enabled, Do, StepAt, FirstInLine, Claimed, Locked;
    var db := dbs[|ls|];
    InLineMeansQueued(db, a);
    InLineSkips(db, a, b);
    dbs', ls' := ClaimSelects(limit, dbs, ls, s, first, a);
    dbs', ls' := ClaimSelects(limit, dbs', ls', t, second, b);
    dbs', ls' := ClaimCommits(limit, dbs', ls', t, b, db.table[b]);
    dbs', ls' := ClaimCommits(limit, dbs', ls', s, a, db.table[a]);
    assert dbs'[|ls'|].txns == db.txns;
  }

  lemma InLineMeansQueued(db: Db, id: Id)
    requires FirstInLine(db.table, Locked(db), id)
    ensures id in db.table
  {
  }

  lemma InLineSkips(db: Db, a: Id, b: Id)
    requires FirstInLine(db.table, Locked(db) + {a}, b)
    ensures a != b && b in db.table
  {
  }
}
