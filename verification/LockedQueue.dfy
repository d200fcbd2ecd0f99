/** The queue as the database runs it: any number of sessions, each transaction selecting
    and locking rows, flushing its writes, then committing or rolling back, in any
    interleaving. Rows locked elsewhere are skipped by claims and recovery and waited for
    by persist calls; a crash drops the transaction and its locks. */
module LockedQueue {
  import opened Schema
  import opened Tasks
  import A = AtomicQueue

  type Session = nat
  type Intent = A.Intent

  // `before` holds the locked rows as selected, `after` what the flush wrote to them.
  datatype Txn =
    | Working(intent: Intent, now: Time, before: Table, after: Table, flushed: bool)
    | Inserting(row: Row)

  datatype Db = Db(
    table: Table,
    history: map<Id, seq<Token>>,
    clock: Time,
    txns: map<Session, Txn>,
    generated: set<Token>,
    acknowledged: set<Id>)

  // `replied` is false when the commit happens but the caller never learns of it.
  datatype Label =
    | Tick(delta: nat)
    | Insert(s: Session, id: Id, fen: string, config: Config)
    | Select(s: Session, intent: Intent)
    | Flush(s: Session)
    | Commit(s: Session, replied: bool)
    | Abort(s: Session)

  const EMPTY := Db(map[], map[], 0, map[], {}, {})

  function LocksOf(txn: Txn): set<Id> {
    if txn.Working? then txn.before.Keys else {}
  }

  function Locked(db: Db): set<Id> {
    set s, id | s in db.txns && id in LocksOf(db.txns[s]) :: id
  }

  // The rows the transaction's statement returns and locks.
  function Chosen(db: Db, i: Intent): set<Id> {
    match i
    case Claim(_, _) => set id | id in db.table && IsOldest(db.table, Locked(db), id)
    case Recover(_) => Expired(db.table, Locked(db), db.clock)
    case Complete(id, _, _) => Unlocked(db, i, id)
    case FailOrRetry(id, _, _, _) => Unlocked(db, i, id)
  }

  function Unlocked(db: Db, i: Intent, id: Id): set<Id> {
    set x | x in db.table && x == id && x !in Locked(db) && A.Selects(i, db.table[x], db.clock)
  }

  predicate PersistIntent(i: Intent) {
    i.Complete? || i.FailOrRetry?
  }

  // A persist call waits while another session holds the row its guard matches.
  predicate Waits(db: Db, i: Intent) {
    PersistIntent(i) && i.id in db.table && i.id in Locked(db) && A.Selects(i, db.table[i.id], db.clock)
  }

  function Writes(i: Intent, before: Table, now: Time): Table {
    map id | id in before :: A.Effect(i, before[id], now)
  }

  ghost predicate Enabled(limit: int, db: Db, l: Label) {
    match l
    case Tick(_) => true
    case Insert(s, id, _, _) =>
      && s !in db.txns && id !in db.table
      && forall other | other in db.txns && db.txns[other].Inserting? :: db.txns[other].row.id != id
    case Select(s, i) =>
      && s !in db.txns && A.Accepted(limit, i) && !Waits(db, i)
      && (i.Claim? ==> i.token !in db.generated)
    case Flush(s) =>
      && s in db.txns && db.txns[s].Working? && !db.txns[s].flushed
      && var txn := db.txns[s];
         forall id | id in txn.before :: SatisfiesChecks(A.Effect(txn.intent, txn.before[id], txn.now))
    case Commit(s, _) => s in db.txns && (db.txns[s].Working? ==> db.txns[s].flushed)
    case Abort(s) => s in db.txns
  }

  function Overwritten(t: Table, after: Table): Table {
    map id | id in t :: if id in after then after[id] else t[id]
  }

  function Do(db: Db, l: Label): Db
    requires (l.Flush? ==> l.s in db.txns && db.txns[l.s].Working?) && (l.Commit? ==> l.s in db.txns)
  {
    match l
    case Tick(delta) => db.(clock := db.clock + delta)
    case Insert(s, id, fen, config) => db.(txns := db.txns[s := Inserting(NewRow(id, fen, config, db.clock))])
    case Select(s, i) =>
      var chosen := Chosen(db, i);
      if chosen == {} then db
      else
        var before := map id | id in chosen && id in db.table :: db.table[id];
        db.(txns := db.txns[s := Working(i, db.clock, before, map[], false)],
            generated := db.generated + if i.Claim? then {i.token} else {})
    case Flush(s) =>
      var txn := db.txns[s];
      db.(txns := db.txns[s := txn.(after := Writes(txn.intent, txn.before, txn.now), flushed := true)])
    case Commit(s, replied) =>
      var closed := db.(txns := db.txns - {s});
      (match db.txns[s]
       case Working(i, _, _, after, _) =>
         closed.(table := Overwritten(db.table, after), history := A.Recorded(db.history, i, after.Keys))
       case Inserting(row) =>
         closed.(table := db.table[row.id := row], history := db.history[row.id := []],
                 acknowledged := db.acknowledged + if replied then {row.id} else {}))
    case Abort(s) => db.(txns := db.txns - {s})
  }

  ghost predicate StepAt(limit: int, dbs: seq<Db>, ls: seq<Label>, k: nat)
    requires |dbs| == |ls| + 1 && k < |ls|
  {
    Enabled(limit, dbs[k], ls[k]) && dbs[k + 1] == Do(dbs[k], ls[k])
  }

  ghost predicate IsRun(limit: int, dbs: seq<Db>, ls: seq<Label>) {
    && |dbs| == |ls| + 1
    && dbs[0] == EMPTY
    && forall k: nat | k < |ls| :: StepAt(limit, dbs, ls, k)
  }

  // ---------- The locking invariant ----------

  ghost predicate WorkingInv(limit: int, db: Db, txn: Txn)
    requires txn.Working?
  {
    && A.Accepted(limit, txn.intent)
    && txn.now <= db.clock
    && txn.before.Keys <= db.table.Keys && txn.before.Keys != {}
    && (forall id | id in txn.before ::
          && txn.before[id] == db.table[id]
          && A.Selects(txn.intent, db.table[id], txn.now) && A.ReadAfter(db.table[id], txn.now))
    && (txn.intent.Claim? ==>
          |txn.before.Keys| == 1 && txn.intent.token in db.generated && A.Fresh(db.history, txn.intent.token))
    && (txn.flushed ==>
          && txn.after == Writes(txn.intent, txn.before, txn.now)
          && forall id | id in txn.before :: SatisfiesChecks(A.Effect(txn.intent, txn.before[id], txn.now)))
  }

  ghost predicate InsertingInv(db: Db, row: Row) {
    && row == NewRow(row.id, row.fen, row.evaluationConfig, row.createdAt)
    && row.id !in db.table && row.createdAt <= db.clock
  }

  ghost predicate Compatible(a: Txn, b: Txn) {
    && LocksOf(a) !! LocksOf(b)
    && (a.Working? && b.Working? && a.intent.Claim? && b.intent.Claim? ==> a.intent.token != b.intent.token)
    && (a.Inserting? && b.Inserting? ==> a.row.id != b.row.id)
  }

  ghost predicate CommittedInv(db: Db) {
    && db.table.Keys == db.history.Keys
    && (forall id | id in db.table :: db.table[id].id == id && A.ReadAfter(db.table[id], db.clock))
    && (forall id, t | id in db.history && t in db.history[id] :: t in db.generated)
    && db.acknowledged <= db.table.Keys
  }

  ghost predicate TxnInv(limit: int, db: Db, txn: Txn) {
    match txn
    case Working(_, _, _, _, _) => WorkingInv(limit, db, txn)
    case Inserting(row) => InsertingInv(db, row)
  }

  ghost predicate Inv(limit: int, db: Db) {
    && CommittedInv(db)
    && (forall s | s in db.txns :: TxnInv(limit, db, db.txns[s]))
    && (forall s, t | s in db.txns && t in db.txns && s != t :: Compatible(db.txns[s], db.txns[t]))
  }

  lemma ChosenSelected(db: Db, i: Intent)
    requires CommittedInv(db)
    ensures Chosen(db, i) <= db.table.Keys && Chosen(db, i) !! Locked(db)
    ensures forall id | id in Chosen(db, i) :: A.Selects(i, db.table[id], db.clock)
    ensures i.Claim? && Chosen(db, i) != {} ==> |Chosen(db, i)| == 1
  {
    if i.Claim? && Chosen(db, i) != {} {
      var id :| id in Chosen(db, i);
      forall other | other in Chosen(db, i)
        ensures other == id
      {
        assert Claimable(db.table, Locked(db), other) && Claimable(db.table, Locked(db), id);
      }
      assert Chosen(db, i) == {id};
    }
  }

  /** A claim locks the one queued, unlocked row that comes first by creation time, then id. */
  lemma ClaimsFirstInLine(db: Db, i: Intent, id: Id)
    requires CommittedInv(db) && i.Claim?
    ensures id in Chosen(db, i) <==> FirstInLine(db.table, Locked(db), id)
  {
    hide IsOldest, Older, Claimable;
    OldestIsFirstInLine(db.table, Locked(db), id);
  }

  lemma ReplacedTxnKeepsInv(limit: int, db: Db, s: Session, txn: Txn)
    requires Inv(limit, db) && TxnInv(limit, db, txn)
    requires forall t | t in db.txns && t != s :: Compatible(db.txns[t], txn) && Compatible(txn, db.txns[t])
    ensures Inv(limit, db.(txns := db.txns[s := txn]))
  {
    hide SatisfiesChecks, A.Effect, A.Selects, A.ReadAfter;
  }

  lemma GeneratingKeepsInv(limit: int, db: Db, tokens: set<Token>)
    requires Inv(limit, db)
    ensures Inv(limit, db.(generated := db.generated + tokens))
  {
    hide SatisfiesChecks, A.Effect, A.Selects, A.ReadAfter;
    forall s | s in db.txns
      ensures TxnInv(limit, db.(generated := db.generated + tokens), db.txns[s])
    {
      assert TxnInv(limit, db, db.txns[s]);
    }
  }

  lemma SelectKeepsInv(limit: int, db: Db, s: Session, i: Intent)
    requires Inv(limit, db) && Enabled(limit, db, Select(s, i)) && Chosen(db, i) != {}
    ensures Inv(limit, Do(db, Select(s, i)))
  {
    hide SatisfiesChecks, A.Effect, A.Selects, A.ReadAfter;
    var tokens: set<Token> := if i.Claim? then {i.token} else {};
    var db', txn := db.(generated := db.generated + tokens), Do(db, Select(s, i)).txns[s];
    GeneratingKeepsInv(limit, db, tokens);
    ChosenSelected(db, i);
    assert txn.before.Keys == Chosen(db, i);
    assert i.Claim? ==> A.Fresh(db.history, i.token);
    assert WorkingInv(limit, db', txn);
    forall t | t in db.txns
      ensures Compatible(db.txns[t], txn) && Compatible(txn, db.txns[t])
    {
      assert TxnInv(limit, db, db.txns[t]);
      assert LocksOf(db.txns[t]) <= Locked(db);
    }
    ReplacedTxnKeepsInv(limit, db', s, txn);
  }

  lemma OthersSurviveCommit(limit: int, db: Db, s: Session, replied: bool, t: Session)
    requires CommittedInv(db) && s in db.txns && t in db.txns && s != t
    requires TxnInv(limit, db, db.txns[s]) && TxnInv(limit, db, db.txns[t])
    requires Compatible(db.txns[s], db.txns[t]) && Enabled(limit, db, Commit(s, replied))
    ensures TxnInv(limit, Do(db, Commit(s, replied)), db.txns[t])
  {
    hide SatisfiesChecks, A.Effect, A.Selects, A.ReadAfter;
  }

  lemma EffectKeepsReading(i: Intent, r: Row, now: Time, clock: Time)
    requires A.ReadAfter(r, clock) && now <= clock
    ensures A.Effect(i, r, now).id == r.id && A.ReadAfter(A.Effect(i, r, now), clock)
  {
  }

  lemma WorkingCommitKeepsCommitted(limit: int, db: Db, s: Session, replied: bool)
    requires CommittedInv(db) && s in db.txns && db.txns[s].Working? && db.txns[s].flushed
    requires WorkingInv(limit, db, db.txns[s])
    ensures CommittedInv(Do(db, Commit(s, replied)))
  {
    var db' := Do(db, Commit(s, replied));
    var txn := db.txns[s];
    forall id | id in db'.table
      ensures db'.table[id].id == id && A.ReadAfter(db'.table[id], db'.clock)
    {
      EffectKeepsReading(txn.intent, db.table[id], txn.now, db.clock);
      assert db'.table[id] == if id in txn.before then A.Effect(txn.intent, db.table[id], txn.now) else db.table[id];
    }
    RecordedTokens(db, txn.intent, txn.after.Keys);
    assert db'.table.Keys == db.table.Keys;
  }

  lemma RecordedTokens(db: Db, i: Intent, ids: set<Id>)
    requires forall id, t | id in db.history && t in db.history[id] :: t in db.generated
    requires i.Claim? ==> i.token in db.generated
    ensures var history := A.Recorded(db.history, i, ids);
            history.Keys == db.history.Keys && forall id, t | id in history && t in history[id] :: t in db.generated
  {
  }

  lemma CommitKeepsCommitted(limit: int, db: Db, s: Session, replied: bool)
    requires CommittedInv(db) && s in db.txns && TxnInv(limit, db, db.txns[s]) && Enabled(limit, db, Commit(s, replied))
    ensures CommittedInv(Do(db, Commit(s, replied)))
  {
    hide SatisfiesChecks, A.Effect, A.Selects;
    if db.txns[s].Working? {
      WorkingCommitKeepsCommitted(limit, db, s, replied);
    }
  }

  lemma CommitKeepsInv(limit: int, db: Db, s: Session, replied: bool)
    requires Inv(limit, db) && Enabled(limit, db, Commit(s, replied))
    ensures Inv(limit, Do(db, Commit(s, replied)))
  {
    hide CommittedInv, TxnInv, Compatible, Overwritten, A.Recorded;
    var db' := Do(db, Commit(s, replied));
    assert db'.txns == db.txns - {s};
    forall t | t in db'.txns
      ensures TxnInv(limit, db', db'.txns[t])
    {
      OthersSurviveCommit(limit, db, s, replied, t);
    }
    CommitKeepsCommitted(limit, db, s, replied);
  }

  // Steps that leave the committed table alone: all but one transaction is as before.
  lemma TickKeepsInv(limit: int, db: Db, delta: nat)
    requires Inv(limit, db)
    ensures Inv(limit, Do(db, Tick(delta)))
  {
  }

  lemma AbortKeepsInv(limit: int, db: Db, s: Session)
    requires Inv(limit, db) && s in db.txns
    ensures Inv(limit, Do(db, Abort(s)))
  {
    var db' := Do(db, Abort(s));
    forall t | t in db'.txns
      ensures TxnInv(limit, db', db'.txns[t])
    {
      assert TxnInv(limit, db, db.txns[t]);
    }
  }

  lemma FlushKeepsInv(limit: int, db: Db, s: Session)
    requires Inv(limit, db) && Enabled(limit, db, Flush(s))
    ensures Inv(limit, Do(db, Flush(s)))
  {
    var txn := Do(db, Flush(s)).txns[s];
    assert TxnInv(limit, db, db.txns[s]);
    forall t | t in db.txns && t != s
      ensures Compatible(db.txns[t], txn) && Compatible(txn, db.txns[t])
    {
      assert Compatible(db.txns[t], db.txns[s]) && Compatible(db.txns[s], db.txns[t]);
    }
    ReplacedTxnKeepsInv(limit, db, s, txn);
  }

  lemma InvStep(limit: int, db: Db, l: Label)
    requires Inv(limit, db) && Enabled(limit, db, l)
    ensures Inv(limit, Do(db, l))
  {
    match l
    case Select(s, i) => if Chosen(db, i) != {} { SelectKeepsInv(limit, db, s, i); }
    case Commit(s, replied) => CommitKeepsInv(limit, db, s, replied);
    case Tick(delta) => TickKeepsInv(limit, db, delta);
    case Insert(s, id, fen, config) => ReplacedTxnKeepsInv(limit, db, s, Inserting(NewRow(id, fen, config, db.clock)));
    case Flush(s) => FlushKeepsInv(limit, db, s);
    case Abort(s) => AbortKeepsInv(limit, db, s);
  }

  lemma {:induction false} InvHolds(limit: int, dbs: seq<Db>, ls: seq<Label>, k: nat)
    requires IsRun(limit, dbs, ls) && k < |dbs|
    ensures Inv(limit, dbs[k])
  {
    if k > 0 {
      InvHolds(limit, dbs, ls, k - 1);
      assert StepAt(limit, dbs, ls, k - 1);
      InvStep(limit, dbs[k - 1], ls[k - 1]);
    }
  }

  /** No row is ever locked by two sessions, and what a transaction selected is still
      committed, unchanged, until it ends. */
  lemma LocksExclude(limit: int, dbs: seq<Db>, ls: seq<Label>, k: nat, s: Session, t: Session, id: Id)
    requires IsRun(limit, dbs, ls) && k < |dbs|
    requires s in dbs[k].txns && t in dbs[k].txns && id in LocksOf(dbs[k].txns[s])
    ensures id in LocksOf(dbs[k].txns[t]) ==> s == t
    ensures id in dbs[k].table && dbs[k].txns[s].before[id] == dbs[k].table[id]
  {
    InvHolds(limit, dbs, ls, k);
    assert TxnInv(limit, dbs[k], dbs[k].txns[s]);
    assert s != t ==> Compatible(dbs[k].txns[s], dbs[k].txns[t]);
  }

  /** Committing, rolling back or crashing releases exactly the session's own locks, and a
      crash leaves nothing of its writes. */
  lemma EndReleasesLocks(limit: int, db: Db, s: Session, end: Label)
    requires Inv(limit, db) && s in db.txns && (end == Abort(s) || end == Commit(s, true) || end == Commit(s, false))
    ensures Locked(Do(db, end)) == Locked(db) - LocksOf(db.txns[s])
    ensures end.Abort? ==> Do(db, end) == db.(txns := db.txns - {s})
  {
    hide CommittedInv, TxnInv, A.Recorded, Overwritten;
    var db' := Do(db, end);
    assert db'.txns == db.txns - {s};
    forall u | u in db.txns && u != s
      ensures LocksOf(db.txns[u]) !! LocksOf(db.txns[s])
    {
      assert Compatible(db.txns[u], db.txns[s]);
    }
    forall t, id | t in db.txns && id in LocksOf(db.txns[t]) && id !in LocksOf(db.txns[s])
      ensures id in Locked(db')
    {
      assert t in db'.txns;
    }
  }

  // ---------- Refinement of the atomic queue ----------

  function Abs(db: Db): A.Queue {
    A.Queue(db.table, db.history, db.clock)
  }

  // A transaction takes effect, all at once, when it commits.
  function AbsOp(db: Db, l: Label): A.Op
    requires l.Commit? ==> l.s in db.txns
  {
    match l
    case Tick(delta) => A.Tick(delta)
    case Commit(s, _) =>
      (match db.txns[s]
       case Working(i, now, before, _, _) => A.Apply(i, before.Keys, now)
       case Inserting(row) => A.Submit(row.id, row.fen, row.evaluationConfig, row.createdAt))
    case _ => A.Stutter
  }

  lemma Simulates(limit: int, db: Db, l: Label)
    requires Inv(limit, db) && Enabled(limit, db, l)
    ensures A.Enabled(limit, Abs(db), AbsOp(db, l))
    ensures A.Do(Abs(db), AbsOp(db, l)) == Abs(Do(db, l))
  {
    hide SatisfiesChecks, A.Effect, A.Selects, A.ReadAfter, Chosen;
    if l.Commit? {
      var txn := db.txns[l.s];
      assert TxnInv(limit, db, txn);
      if txn.Working? {
        assert txn.after.Keys == txn.before.Keys;
        assert A.Written(db.table, txn.intent, txn.before.Keys, txn.now) == Overwritten(db.table, txn.after);
      }
    }
  }

  function AbsStates(dbs: seq<Db>): (qs: seq<A.Queue>) {
    seq(|dbs|, k requires 0 <= k < |dbs| => Abs(dbs[k]))
  }

  ghost function AbsOps(limit: int, dbs: seq<Db>, ls: seq<Label>): (ops: seq<A.Op>)
    requires IsRun(limit, dbs, ls)
  {
    seq(|ls|, k requires 0 <= k < |ls| => assert StepAt(limit, dbs, ls, k); AbsOp(dbs[k], ls[k]))
  }

  /** Every interleaving of locking transactions, crashes included, is a run of the atomic
      queue through the same committed states. */
  lemma Refinement(limit: int, dbs: seq<Db>, ls: seq<Label>)
    requires IsRun(limit, dbs, ls)
    ensures A.IsRun(limit, AbsStates(dbs), AbsOps(limit, dbs, ls))
  {
    var qs, ops := AbsStates(dbs), AbsOps(limit, dbs, ls);
    forall k: nat | k < |ops|
      ensures A.StepAt(limit, qs, ops, k)
    {
      InvHolds(limit, dbs, ls, k);
      assert StepAt(limit, dbs, ls, k);
      Simulates(limit, dbs[k], ls[k]);
    }
  }

  // ---------- Longer runs ----------

  lemma Append(limit: int, dbs: seq<Db>, ls: seq<Label>, l: Label) returns (dbs': seq<Db>, ls': seq<Label>)
    requires IsRun(limit, dbs, ls) && Enabled(limit, dbs[|ls|], l)
    ensures IsRun(limit, dbs', ls') && ls' == ls + [l] && dbs' == dbs + [Do(dbs[|ls|], l)]
  {
    hide Do, Chosen, A.Accepted, A.Effect;
    dbs', ls' := dbs + [Do(dbs[|ls|], l)], ls + [l];
    forall k: nat | k < |ls'|
      ensures StepAt(limit, dbs', ls', k)
    {
      assert k < |ls| ==> StepAt(limit, dbs, ls, k);
    }
  }
}
