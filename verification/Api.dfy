/** The HTTP surface (app/api.py): the bounded body reader, submission, and the payload a
    poll shows for a row. */
module Api {
  import opened Schema
  import opened Tasks
  import A = AtomicQueue
  import Fencing
  import L = LockedQueue
  import LockedRuns
  import Worker

  // ---------- The bounded body reader ----------

  type Byte = bv8

  datatype Message = Request(body: seq<Byte>, moreBody: bool) | Disconnect | OtherMessage

  // What the middleware does: answer 413, run the application on a replayed body or on a
  // receive that only reports the disconnect, or keep waiting for messages.
  datatype Reading = TooLarge | RunWith(body: seq<Byte>) | RunDisconnected | Waiting

  function Bodies(messages: seq<Message>): seq<Byte> {
    if messages == [] then []
    else Bodies(messages[..|messages| - 1])
         + if messages[|messages| - 1].Request? then messages[|messages| - 1].body else []
  }

  // Reading goes on past this message, had it arrived within the limit.
  predicate Continues(m: Message) {
    m.OtherMessage? || (m.Request? && m.moreBody)
  }

  predicate ReadsOn(limit: nat, messages: seq<Message>) {
    (forall m | m in messages :: Continues(m)) && |Bodies(messages)| <= limit
  }

  // The meaning of a reading of `messages`, of which the first `used` were received.
  predicate Means(limit: nat, messages: seq<Message>, used: nat, r: Reading) {
    && used <= |messages|
    && match r
       case Waiting => used == |messages| && ReadsOn(limit, messages)
       case RunDisconnected => used > 0 && ReadsOn(limit, messages[..used - 1]) && messages[used - 1].Disconnect?
       case TooLarge =>
         && used > 0 && ReadsOn(limit, messages[..used - 1]) && messages[used - 1].Request?
         && |Bodies(messages[..used])| > limit
       case RunWith(body) =>
         && used > 0 && ReadsOn(limit, messages[..used - 1])
         && messages[used - 1].Request? && !messages[used - 1].moreBody
         && body == Bodies(messages[..used]) && |body| <= limit
  }

  // `contentLength` is the first such header, when it parses as an integer.
  method ReadBody(limit: nat, contentLength: Option<int>, messages: seq<Message>)
    returns (r: Reading, used: nat, stored: nat)
    ensures contentLength.Some? && contentLength.value > limit ==> r == TooLarge && used == 0 && stored == 0
    ensures !(contentLength.Some? && contentLength.value > limit) ==> Means(limit, messages, used, r)
    ensures stored <= limit
    ensures r.RunWith? ==> stored == |r.body|
  {
    if contentLength.Some? && contentLength.value > limit {
      return TooLarge, 0, 0;
    }
    var chunks: seq<Byte> := [];
    var total := 0;
    used := 0;
    while used < |messages|
      invariant used <= |messages|
      invariant ReadsOn(limit, messages[..used])
      invariant chunks == Bodies(messages[..used]) && total == |chunks| <= limit
    {
      var message := messages[used];
      BodiesGrow(messages, used);
      used := used + 1;
      if message.Disconnect? {
        return RunDisconnected, used, total;
      }
      if message.Request? {
        total := total + |message.body|;
        if total > limit {
          return TooLarge, used, |chunks|;
        }
        chunks := chunks + message.body;
        if !message.moreBody {
          return RunWith(chunks), used, total;
        }
      }
    }
    assert messages[..used] == messages;
    return Waiting, used, total;
  }

  lemma BodiesGrow(messages: seq<Message>, k: nat)
    requires k < |messages|
    ensures Bodies(messages[..k + 1]) == Bodies(messages[..k]) + if messages[k].Request? then messages[k].body else []
    ensures forall limit: nat ::
              ReadsOn(limit, messages[..k]) && Continues(messages[k]) && |Bodies(messages[..k + 1])| <= limit
              ==> ReadsOn(limit, messages[..k + 1])
  {
    assert messages[..k + 1][..k] == messages[..k];
    assert forall m | m in messages[..k + 1] :: m in messages[..k] || m == messages[k];
  }

  // `messages` is some chunking of `body`: every message but the last says more is coming.
  predicate Chunking(messages: seq<Message>, body: seq<Byte>) {
    && messages != [] && messages[|messages| - 1].Request? && !messages[|messages| - 1].moreBody
    && (forall k | 0 <= k < |messages| - 1 :: Continues(messages[k]))
    && Bodies(messages) == body
  }

  lemma {:induction false} PrefixIsShorter(messages: seq<Message>, k: nat)
    requires k <= |messages|
    ensures |Bodies(messages[..k])| <= |Bodies(messages)|
    decreases |messages| - k
  {
    if k == |messages| {
      assert messages[..k] == messages;
    } else {
      BodiesGrow(messages, k);
      PrefixIsShorter(messages, k + 1);
    }
  }

  /** However a body is cut into messages, the application runs exactly once on exactly that
      body if it fits the limit, and otherwise not at all: the answer is 413. */
  lemma ChunkingIsIrrelevant(limit: nat, messages: seq<Message>, body: seq<Byte>, used: nat, r: Reading)
    requires Chunking(messages, body) && Means(limit, messages, used, r)
    ensures |body| <= limit ==> r == RunWith(body) && used == |messages|
    ensures |body| > limit ==> r == TooLarge
  {
    var last := |messages| - 1;
    PrefixIsShorter(messages, used);
    if used > 0 && used <= last {
      assert Continues(messages[used - 1]);
    }
    if used > last {
      assert messages[..used] == messages;
    }
    assert r.Waiting? ==> messages[last] in messages;
    assert !Continues(messages[last]);
  }

  // The receive callable handed to the application.
  class Replay {
    const body: seq<Byte>
    var consumed: bool

    constructor (body: seq<Byte>)
      ensures this.body == body && !consumed
    {
      this.body, consumed := body, false;
    }

    method ReplayOnce() returns (m: Message)
      modifies this
      ensures m == if old(consumed) then Disconnect else Request(body, false)
      ensures consumed
    {
      if !consumed {
        consumed := true;
        return Request(body, false);
      }
      return Disconnect;
    }

    // Whatever number of times the application asks, it gets the body once.
    method ReceiveMany(n: nat) returns (got: seq<Message>)
      requires !consumed
      modifies this
      ensures got == ReplayOf(body, n)
    {
      got := [];
      for k := 0 to n
        invariant got == ReplayOf(body, k) && (consumed <==> k > 0)
      {
        var m := ReplayOnce();
        got := got + [m];
      }
    }
  }

  function ReplayOf(body: seq<Byte>, n: nat): seq<Message> {
    seq(n, k => if k == 0 then Request(body, false) else Disconnect)
  }

  lemma NothingAfterTheLast(limit: nat, messages: seq<Message>, k: nat)
    requires 0 < k <= |messages| && !Continues(messages[0])
    ensures !ReadsOn(limit, messages[..k])
  {
  }

  /** Reading the replay back gives the body that was read: a second middleware of the same
      limit would hand on the same bytes. */
  lemma ReplayReadsBack(limit: nat, body: seq<Byte>, n: nat, used: nat, r: Reading)
    requires n > 0 && |body| <= limit && Means(limit, ReplayOf(body, n), used, r)
    ensures r == RunWith(body) && used == 1
  {
    var messages := ReplayOf(body, n);
    if used > 1 {
      NothingAfterTheLast(limit, messages, used - 1);
    }
    NothingAfterTheLast(limit, messages, n);
    assert messages[..n] == messages;
    assert messages[0] == Request(body, false) && messages[..1] == [messages[0]];
    assert Bodies([messages[0]]) == body by {
      assert [messages[0]][..0] == [];
    }
  }

  // ---------- The payload of a row ----------

  datatype Payload = Payload(
    taskId: Id,
    status: Status,
    evaluation: Option<real>,
    mate: Option<(Option<string>, Option<int>)>,
    error: Option<(Option<string>, Option<string>)>)

  // What each part of the payload shows, on its own.
  function TaskPayload(row: Row): Payload {
    var mate := row.mateWinner.Some? || row.mateMoves.Some?;
    Payload(row.id, row.status,
            if row.status.Completed? && !mate then Pawns(row.evaluationCp) else None,
            if row.status.Completed? && mate then Some((row.mateWinner, row.mateMoves)) else None,
            if row.status.Failed? then Some((row.errorCode, row.errorMessage)) else None)
  }

  function Pawns(cp: Option<int>): Option<real> {
    if cp.Some? then Some(cp.value as real / 100.0) else None
  }

  // The columns of a row that a client can ask about.
  datatype Answer = Answer(
    taskId: Id, status: Status, cp: Option<int>, winner: Option<string>, moves: Option<int>,
    code: Option<string>, message: Option<string>)

  function AnswerOf(row: Row): Answer {
    Answer(row.id, row.status, row.evaluationCp, row.mateWinner, row.mateMoves, row.errorCode, row.errorMessage)
  }

  // A client reading a payload back.
  function Decoded(p: Payload): Answer {
    Answer(p.taskId, p.status, DecodedCp(p),
           if p.mate.Some? then p.mate.value.0 else None, if p.mate.Some? then p.mate.value.1 else None,
           if p.error.Some? then p.error.value.0 else None, if p.error.Some? then p.error.value.1 else None)
  }

  function DecodedCp(p: Payload): Option<int> {
    if p.evaluation.Some? then Some((p.evaluation.value * 100.0).Floor) else None
  }

  lemma PercentRoundTrip(cp: int)
    ensures (cp as real / 100.0 * 100.0).Floor == cp
  {
  }

  // What the payload may look like in each status.
  predicate WellFormed(p: Payload) {
    && (p.evaluation.Some? || p.mate.Some? <==> p.status.Completed?)
    && !(p.evaluation.Some? && p.mate.Some?)
    && (p.mate.Some? ==> p.mate.value.0.Some? && p.mate.value.1.Some? && p.mate.value.1.value >= 0
                         && (p.mate.value.0.value == WHITE || p.mate.value.0.value == BLACK))
    && (p.error.Some? <==> p.status.Failed?)
    && (p.error.Some? ==> p.error.value.0.Some? && p.error.value.1.Some?)
  }

  // The evaluation in pawns and the error are exactly the columns', not merely close to them.
  predicate Exact(p: Payload, row: Row) {
    && (p.evaluation.Some? ==> row.evaluationCp.Some? && p.evaluation.value * 100.0 == row.evaluationCp.value as real)
    && (p.error.Some? ==> p.error.value.0 == row.errorCode && p.error.value.1 == row.errorMessage)
  }

  /** Under the CHECKs a payload is well-formed, and it loses none of the row's answer as
      long as errors are only on failed rows. */
  lemma PayloadIsFaithful(row: Row)
    requires SatisfiesChecks(row)
    ensures WellFormed(TaskPayload(row)) && Exact(TaskPayload(row), row)
    ensures A.AnswersMatch(row) ==> Decoded(TaskPayload(row)) == AnswerOf(row)
  {
    if row.evaluationCp.Some? {
      PercentRoundTrip(row.evaluationCp.value);
    }
  }

  // The handler fills the payload in branch by branch.
  method BuildPayload(row: Row) returns (payload: Payload)
    ensures payload == TaskPayload(row)
    ensures SatisfiesChecks(row) ==> WellFormed(payload) && Exact(payload, row)
    ensures SatisfiesChecks(row) && A.AnswersMatch(row) ==> Decoded(payload) == AnswerOf(row)
  {
    payload := Payload(row.id, row.status, None, None, None);
    if row.status.Completed? {
      if row.mateWinner.Some? || row.mateMoves.Some? {
        payload := payload.(mate := Some((row.mateWinner, row.mateMoves)));
      } else if row.evaluationCp.Some? {
        payload := payload.(evaluation := Some(row.evaluationCp.value as real / 100.0));
      }
    } else if row.status.Failed? {
      payload := payload.(error := Some((row.errorCode, row.errorMessage)));
    }
    if SatisfiesChecks(row) {
      PayloadIsFaithful(row);
    }
  }

  /** In every reachable state of the interleaved queue a payload carries a complete
      evaluation or a complete mate, never both, exactly for completed tasks, a complete error
      exactly for failed ones, and decodes to the row's answer. */
  lemma PayloadShape(limit: int, dbs: seq<L.Db>, ls: seq<L.Label>, k: nat, id: Id)
    requires limit <= MAX_ATTEMPTS && L.IsRun(limit, dbs, ls) && k < |dbs| && id in dbs[k].table
    ensures var r := dbs[k].table[id]; var p := TaskPayload(r);
            p.taskId == id && p.status == r.status && WellFormed(p) && Exact(p, r) && Decoded(p) == AnswerOf(r)
  {
    LockedRuns.RowsValid(limit, dbs, ls, k, id);
    PayloadIsFaithful(dbs[k].table[id]);
  }

  predicate Shows(p: Payload, e: Worker.Evaluation) {
    match e
    case Score(cp) => p.mate.None? && p.evaluation.Some? && p.evaluation.value * 100.0 == cp as real
    case Mate(winner, moves) =>
      p.evaluation.None? && p.mate == Some((Some(if winner.White? then "white" else "black"), Some(moves)))
    case _ => false
  }

  lemma SidesDiffer()
    ensures WHITE != BLACK
  {
  }

  // A transaction of intent `i` that wrote the task commits at step j.
  ghost predicate CommitsIntent(dbs: seq<L.Db>, ls: seq<L.Label>, j: nat, id: Id, i: A.Intent)
    requires |dbs| == |ls| + 1 && j < |ls|
  {
    && ls[j].Commit? && ls[j].s in dbs[j].txns && dbs[j].txns[ls[j].s].Working?
    && dbs[j].txns[ls[j].s].intent == i && id in dbs[j].txns[ls[j].s].before
  }

  lemma AbsIntent(limit: int, dbs: seq<L.Db>, ls: seq<L.Label>, j: nat, id: Id, i: A.Intent)
    requires L.IsRun(limit, dbs, ls) && j < |ls| && CommitsIntent(dbs, ls, j, id, i)
    ensures var ops := L.AbsOps(limit, dbs, ls); ops[j].Apply? && ops[j].intent == i && id in ops[j].ids
  {
  }

  /** What a worker persists is what every later poll shows, and nothing else: the
      centipawn score or mate decodes from the payload, and the payload never changes. */
  lemma PolledResultRoundTrips(limit: int, dbs: seq<L.Db>, ls: seq<L.Label>, j: nat, k: nat, id: Id, token: Token,
                               e: Worker.Evaluation, version: Option<string>)
    requires L.IsRun(limit, dbs, ls) && j < |ls| && j < k < |dbs| && (e.Score? || e.Mate?)
    requires CommitsIntent(dbs, ls, j, id, A.Complete(id, token, Worker.ResultOf(e, version)))
    ensures id in dbs[k].table && dbs[k].table[id].status.Completed?
    ensures forall f: Worker.Evaluation :: Shows(TaskPayload(dbs[k].table[id]), f) <==> f == e
  {
    hide A.Selects, A.ReadAfter, SatisfiesChecks;
    L.Refinement(limit, dbs, ls);
    var qs, ops := L.AbsStates(dbs), L.AbsOps(limit, dbs, ls);
    AbsIntent(limit, dbs, ls, j, id, A.Complete(id, token, Worker.ResultOf(e, version)));
    assert A.StepAt(limit, qs, ops, j);
    Fencing.TerminalIsFinal(limit, qs, ops, j + 1, k, id);
    ResultShows(qs[j].table[id], e, version, ops[j].now);
  }

  lemma ResultShows(row: Row, e: Worker.Evaluation, version: Option<string>, now: Time)
    requires e.Score? || e.Mate?
    ensures var p := TaskPayload(Completing(row, Worker.ResultOf(e, version), now));
            forall f: Worker.Evaluation :: Shows(p, f) <==> f == e
  {
    if e.Score? {
      PercentRoundTrip(e.cp);
    }
    SidesDiffer();
  }

  /** Likewise the error of a task that failed: the code and message of the call that failed
      it, cut to their columns, or those of the recovery that gave up on it. */
  lemma PolledErrorRoundTrips(limit: int, dbs: seq<L.Db>, ls: seq<L.Label>, j: nat, k: nat, id: Id, i: A.Intent)
    requires limit <= MAX_ATTEMPTS && L.IsRun(limit, dbs, ls) && j < |ls| && j < k < |dbs|
    requires CommitsIntent(dbs, ls, j, id, i) && id in dbs[j + 1].table && dbs[j + 1].table[id].status.Failed?
    ensures id in dbs[k].table && (i.Recover? || i.FailOrRetry?)
    ensures TaskPayload(dbs[k].table[id]).error
            == if i.Recover? then Some((Some(i.policy.code), Some(i.policy.message)))
               else Some((Some(Prefix(i.code, 64)), Some(Prefix(i.message, 1000))))
  {
    hide A.ReadAfter, A.Effect, SatisfiesChecks;
    L.Refinement(limit, dbs, ls);
    var qs, ops := L.AbsStates(dbs), L.AbsOps(limit, dbs, ls);
    AbsIntent(limit, dbs, ls, j, id, i);
    assert A.StepAt(limit, qs, ops, j);
    assert Fencing.EntersTerminal(qs, j, id);
    Fencing.Fenced(limit, qs, ops, j, id);
    Fencing.TerminalIsFinal(limit, qs, ops, j + 1, k, id);
  }

  /** A task given up by a worker's recovery shows the lease expiry in these words, for ever. */
  lemma PolledLeaseExpiry(limit: int, dbs: seq<L.Db>, ls: seq<L.Label>, j: nat, k: nat, id: Id, recovery: Worker.Call)
    requires limit <= MAX_ATTEMPTS && L.IsRun(limit, dbs, ls) && j < |ls| && j < k < |dbs| && recovery.RecoverCall?
    requires CommitsIntent(dbs, ls, j, id, Worker.IntentOf(recovery))
    requires id in dbs[j + 1].table && dbs[j + 1].table[id].status.Failed?
    ensures id in dbs[k].table
    ensures TaskPayload(dbs[k].table[id]).error
            == Some((Some("LEASE_EXPIRED"), Some("The worker lease expired before evaluation finished.")))
  {
    PolledErrorRoundTrips(limit, dbs, ls, j, k, id, Worker.IntentOf(recovery));
  }

  /** Once a poll has shown a terminal payload, every later poll shows the same one. */
  lemma TerminalPayloadIsStable(limit: int, dbs: seq<L.Db>, ls: seq<L.Label>, j: nat, k: nat, id: Id)
    requires L.IsRun(limit, dbs, ls) && j <= k < |dbs| && id in dbs[j].table
    requires TaskPayload(dbs[j].table[id]).status.Terminal()
    ensures id in dbs[k].table && TaskPayload(dbs[k].table[id]) == TaskPayload(dbs[j].table[id])
  {
    L.Refinement(limit, dbs, ls);
    Fencing.TerminalIsFinal(limit, L.AbsStates(dbs), L.AbsOps(limit, dbs, ls), j, k, id);
  }

  // ---------- Submission ----------

  datatype Response = Accepted(location: Id) | Unavailable

  // How far the insert and commit get before something raises, and whether a commit that
  // raised had taken effect after all.
  datatype SubmitFault = NoFault | InsertRaises | CommitRaises(durable: bool)

  method SubmitTask(table: TaskTable, id: Id, fen: string, config: Config, now: Time, fault: SubmitFault)
    returns (response: Response)
    requires table.Valid()
    modifies table
    ensures table.Valid()
    ensures response.Accepted? <==> fault.NoFault? && id !in old(table.contents)
    ensures response.Accepted? ==>
              response.location == id && table.contents == old(table.contents)[id := NewRow(id, fen, config, now)]
    ensures fault.InsertRaises? || (fault.CommitRaises? && !fault.durable) ==> table.contents == old(table.contents)
    ensures !fault.InsertRaises? && (fault.CommitRaises? ==> fault.durable) && id !in old(table.contents) ==>
              table.contents == old(table.contents)[id := NewRow(id, fen, config, now)]
    ensures forall other | other in old(table.contents) ::
              other in table.contents && table.contents[other] == old(table.contents)[other]
  {
    if fault.InsertRaises? || (fault.CommitRaises? && !fault.durable) {
      // nothing reached the table, or the rollback undid it
      return Unavailable;
    }
    var created := table.CreateTask(id, fen, config, now);
    if !created.Ok? || fault.CommitRaises? {
      return Unavailable;
    }
    return Accepted(id);
  }
}
