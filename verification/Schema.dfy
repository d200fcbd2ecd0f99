/** The `tasks` table: one row, and the ten CHECK predicates every committed row
    must satisfy (app/models.py). */
module Schema {

  datatype Option<+T> = None | Some(value: T)

  // UUIDs are compared by the database, so identifiers are ordered.
  type Id = nat
  type Token = nat

  // Instants and durations in microseconds, PostgreSQL's timestamp resolution.
  type Time = int

  // The status column is text; `Other` stands for any text outside the enumeration.
  datatype Status = Queued | Running | Completed | Failed | Other(text: string)
  {
    predicate Terminal() {
      Completed? || Failed?
    }
  }

  const WHITE := "white"
  const BLACK := "black"

  // The server-owned settings snapshot stored with each task.
  datatype Config = Config(searchTime: Time, hardTimeout: Time, threads: int, hashMb: int)

  datatype Row = Row(
    id: Id,
    fen: string,
    status: Status,
    evaluationCp: Option<int>,
    mateWinner: Option<string>,
    mateMoves: Option<int>,
    attempts: int,
    leaseToken: Option<Token>,
    leaseExpiresAt: Option<Time>,
    errorCode: Option<string>,
    errorMessage: Option<string>,
    engineVersion: Option<string>,
    evaluationConfig: Config,
    createdAt: Time,
    startedAt: Option<Time>,
    finishedAt: Option<Time>)

  predicate CkStatus(r: Row) {
    !r.status.Other?
  }

  predicate CkAttempts(r: Row) {
    0 <= r.attempts <= 2
  }

  predicate CkMateResult(r: Row) {
    || (r.mateWinner.None? && r.mateMoves.None?)
    || (&& r.mateWinner.Some? && (r.mateWinner.value == WHITE || r.mateWinner.value == BLACK)
        && r.mateMoves.Some? && r.mateMoves.value >= 0)
  }

  predicate CkResultExclusive(r: Row) {
    !(r.evaluationCp.Some? && (r.mateWinner.Some? || r.mateMoves.Some?))
  }

  predicate CkRunningLease(r: Row) {
    || (r.status.Running? && r.leaseToken.Some? && r.leaseExpiresAt.Some?)
    || (!r.status.Running? && r.leaseToken.None? && r.leaseExpiresAt.None?)
  }

  predicate CkNonterminalNoResult(r: Row) {
    || !(r.status.Queued? || r.status.Running? || r.status.Failed?)
    || (r.evaluationCp.None? && r.mateWinner.None? && r.mateMoves.None?)
  }

  predicate CkFailedError(r: Row) {
    !r.status.Failed? || (r.errorCode.Some? && r.errorMessage.Some?)
  }

  predicate CkNonterminalFinished(r: Row) {
    r.status.Terminal() || r.finishedAt.None?
  }

  predicate CkCompletedHasResult(r: Row) {
    !r.status.Completed? || r.evaluationCp.Some? || r.mateWinner.Some?
  }

  predicate CkTerminalFields(r: Row) {
    || !r.status.Terminal()
    || (r.finishedAt.Some? && r.leaseToken.None? && r.leaseExpiresAt.None?)
  }

  predicate SatisfiesChecks(r: Row) {
    && CkStatus(r)
    && CkAttempts(r)
    && CkMateResult(r)
    && CkResultExclusive(r)
    && CkRunningLease(r)
    && CkNonterminalNoResult(r)
    && CkFailedError(r)
    && CkNonterminalFinished(r)
    && CkCompletedHasResult(r)
    && CkTerminalFields(r)
  }

  // What a row of each status looks like: a queued row has no lease and no result, and so on.
  predicate HasShape(r: Row) {
    var noResult := r.evaluationCp.None? && r.mateWinner.None? && r.mateMoves.None?;
    var noLease := r.leaseToken.None? && r.leaseExpiresAt.None?;
    && (r.attempts == 0 || r.attempts == 1 || r.attempts == 2)
    && match r.status
       case Queued => noLease && noResult && r.finishedAt.None?
       case Running => r.leaseToken.Some? && r.leaseExpiresAt.Some? && noResult && r.finishedAt.None?
       case Completed =>
         && noLease && r.finishedAt.Some?
         && if r.evaluationCp.Some? then r.mateWinner.None? && r.mateMoves.None?
            else
              && (r.mateWinner == Some("white") || r.mateWinner == Some("black"))
              && r.mateMoves.Some? && r.mateMoves.value >= 0
       case Failed => noLease && noResult && r.finishedAt.Some? && r.errorCode.Some? && r.errorMessage.Some?
       case Other(_) => false
  }

  /** The ten CHECKs together admit exactly four shapes of row, one for each status. */
  lemma ChecksAreShapes(r: Row)
    ensures SatisfiesChecks(r) <==> HasShape(r)
  {
  }
}
