/** The Postgres task store (internal/task/postgres_service.go) as a refinement of the in-memory one.

    A state-changing call is one conditional UPDATE. When it touches no row the call issues a SECOND
    statement that looks the status up and derives the error from it. Between the two statements any
    number of statements of other clients may run. */
module TaskPostgres {
  import opened Text
  import opened TaskService
  import opened Wrappers

  /** A row of the `tasks` table. A nullable text column holds a trimmed value; NULL reads back as "". */
  datatype Row = Row(
    sourceId: string, sessionId: string, url: string, goal: string, actions: seq<Action>,
    trace: seq<StepTrace>, status: Status, attempt: int, maxRetries: int, nextRetryAt: Option<int>,
    nodeId: string, page: Page, blocker: Blocker, errorMessage: string,
    createdAt: int, startedAt: Option<int>, completedAt: Option<int>)

  type Db = map<string, Row>

  /** The INSERT of Create (under a fresh random id), or the UPDATE of another call. */
  datatype Statement =
    | Insert(id: string, input: CreateInput, now: int)
    | Write(call: Call)

  predicate WellFormed(st: Statement) {
    st.Write? ==> !st.call.Create?
  }

  function TrimPage(p: Page): Page {
    Page(TrimSpace(p.title), TrimSpace(p.finalUrl), TrimSpace(p.screenshotBase64), TrimSpace(p.screenshotUrl))
  }

  function TrimBlocker(b: Blocker): Blocker {
    Blocker(TrimSpace(b.kind), TrimSpace(b.message))
  }

  /** The WHERE clause. */
  predicate Selects(db: Db, call: Call)
    requires !call.Create?
  {
    call.id in db &&
    match call
    case Start(_, _, _, _) => db[call.id].status == Queued
    case Cancel(_, _, _, _) => db[call.id].status == Queued || db[call.id].status == Running
    case _ => db[call.id].status != Canceled
  }

  /** The SET clause. */
  function Assigned(r: Row, call: Call): Row
    requires !call.Create?
  {
    match call
    case Start(_, nodeId, at, now) =>
      r.(status := Running, attempt := r.attempt + 1, nodeId := TrimSpace(nodeId),
         startedAt := Some(NormalizeTime(at, now)), nextRetryAt := None, errorMessage := "",
         blocker := NoBlocker, trace := [], completedAt := None)
    case Retry(_, retryAt, lastError, now) =>
      r.(status := Queued, nodeId := "", nextRetryAt := Some(NormalizeTime(retryAt, now)), errorMessage := lastError,
         blocker := NoBlocker, trace := [])
    case Complete(_, nodeId, at, page, trace, now) =>
      r.(status := Completed, nodeId := TrimSpace(nodeId), page := TrimPage(page), trace := trace, errorMessage := "",
         blocker := NoBlocker, nextRetryAt := None, completedAt := Some(NormalizeTime(at, now)))
    case Fail(_, nodeId, at, error, page, blocker, trace, now) =>
      r.(status := Failed, nodeId := TrimSpace(nodeId), page := TrimPage(page), blocker := TrimBlocker(blocker),
         errorMessage := error, trace := trace, nextRetryAt := None, completedAt := Some(NormalizeTime(at, now)))
    case Cancel(_, at, reason, now) =>
      r.(status := Canceled, nodeId := "",
         errorMessage := CancelMessage(reason),
         blocker := NoBlocker, nextRetryAt := None, completedAt := Some(NormalizeTime(at, now)))
  }

  /** RETURNING + scanTask: the outputs are recomputed from the stored trace. */
  function Scan(id: string, r: Row): Task {
    Task(id, r.sourceId, r.sessionId, r.url, r.goal, r.actions, r.trace, Outputs(r.trace), r.status, r.attempt,
         r.maxRetries, r.nextRetryAt, r.nodeId, r.page, r.blocker, r.errorMessage, r.createdAt, r.startedAt,
         r.completedAt)
  }

  function Execute(db: Db, st: Statement): Db
    requires WellFormed(st)
  {
    match st
    case Insert(id, input, now) =>
      if id in db || CreateError(input).Some? then db
      else
        db[id := Row(TrimSpace(input.sourceId), input.sessionId, input.url, input.goal, input.actions, [], Queued, 0,
                     input.maxRetries, None, "", NoPage, NoBlocker, "", now, None, None)]
    case Write(call) =>
      if Selects(db, call) then db[call.id := Assigned(db[call.id], call)] else db
  }

  function ExecuteAll(db: Db, sts: seq<Statement>): Db
    requires forall st :: st in sts ==> WellFormed(st)
    decreases |sts|
  {
    if sts == [] then db else ExecuteAll(Execute(db, sts[0]), sts[1..])
  }

  /** The error derived from the second statement, fetchTaskStatus. */
  function LookupError(db: Db, call: Call): Error
    requires !call.Create?
  {
    if call.id !in db then NotFound
    else
      var status := db[call.id].status;
      match call
      case Start(_, _, _, _) => NotQueued
      case Cancel(_, _, _, _) => if status in {Completed, Failed, Canceled} then NotCancelable else NotFound
      case _ => if status == Canceled then NotCancelable else NotFound
  }

  /** The whole call, with the statements `others` of other clients between its two statements. */
  function PostgresCall(db: Db, call: Call, others: seq<Statement>): (Db, Reply)
    requires !call.Create? && forall st :: st in others ==> WellFormed(st)
  {
    if Selects(db, call) then
      var after := Execute(db, Write(call));
      (after, Ok(Scan(call.id, after[call.id])))
    else
      var later := ExecuteAll(db, others);
      (later, Err(LookupError(later, call)))
  }

  /** The service, holding the table. The statements `others` of other clients run between the two
      statements of a call. */
  class PostgresService {
    var rows: Db

    constructor ()
      ensures rows == map[]
    {
      rows := map[];
    }

    /** UPDATE ... WHERE ... RETURNING: one atomic statement. */
    method Update(call: Call) returns (updated: Option<Task>)
      requires !call.Create?
      modifies this
      ensures rows == Execute(old(rows), Write(call))
      ensures updated == if Selects(old(rows), call) then Some(Scan(call.id, rows[call.id])) else None
    {
      if Selects(rows, call) {
        rows := rows[call.id := Assigned(rows[call.id], call)];
        updated := Some(Scan(call.id, rows[call.id]));
      } else {
        updated := None;
      }
    }

    method FetchTaskStatus(id: string) returns (status: Option<Status>)
      ensures status == if id in rows then Some(rows[id].status) else None
    {
      status := if id in rows then Some(rows[id].status) else None;
    }

    method Others(sts: seq<Statement>)
      requires forall st :: st in sts ==> WellFormed(st)
      modifies this
      ensures rows == ExecuteAll(old(rows), sts)
    {
      var i := 0;
      while i < |sts|
        invariant i <= |sts| && ExecuteAll(rows, sts[i..]) == ExecuteAll(old(rows), sts)
      {
        rows := Execute(rows, sts[i]);
        assert sts[i..][1..] == sts[i + 1..];
        i := i + 1;
      }
    }

    method Perform(call: Call, others: seq<Statement>) returns (reply: Reply)
      requires !call.Create? && forall st :: st in others ==> WellFormed(st)
      modifies this
      ensures (rows, reply) == PostgresCall(old(rows), call, others)
    {
      var updated := Update(call);
      if updated.Some? {
        return Ok(updated.value);
      }
      Others(others);
      var status := FetchTaskStatus(call.id);
      if status.None? {
        return Err(NotFound);
      }
      if call.Start? {
        return Err(NotQueued);
      }
      if call.Cancel? {
        if status.value == Completed || status.value == Failed || status.value == Canceled {
          return Err(NotCancelable);
        }
      } else if status.value == Canceled {
        return Err(NotCancelable);
      }
      reply := Err(NotFound);
    }
  }

  // ---------------------------------------------------------------- agreement with the in-memory store

  /** What the two stores agree on: everything except outer white space of the node id, the page, the
      blocker and the source id, and the completion time. */
  function View(t: Task): Task {
    t.(sourceId := TrimSpace(t.sourceId), nodeId := TrimSpace(t.nodeId), page := TrimPage(t.page),
       blocker := TrimBlocker(t.blocker), completedAt := None)
  }

  predicate Same(a: Task, b: Task) {
    View(a) == View(b)
  }

  /** Both stores hold a record `id`, in agreement, or neither does. */
  predicate Agree(db: Db, s: Store, id: string) {
    && (id in db <==> id in s.items)
    && (id in db ==> s.items[id].id == id && Same(Scan(id, db[id]), s.items[id]))
  }

  ghost predicate Matches(db: Db, s: Store) {
    forall id :: Agree(db, s, id)
  }

  lemma TrimTwice(p: Page, b: Blocker)
    ensures TrimPage(TrimPage(p)) == TrimPage(p) && TrimBlocker(TrimBlocker(b)) == TrimBlocker(b)
  {
    TrimSpaceTrims(p.title);
    TrimSpaceTrims(p.finalUrl);
    TrimSpaceTrims(p.screenshotBase64);
    TrimSpaceTrims(p.screenshotUrl);
    TrimSpaceTrims(b.kind);
    TrimSpaceTrims(b.message);
  }

  /** Field by field: the SET clause keeps a row in agreement with the in-memory record. */
  lemma AssignedAgrees(id: string, r: Row, t: Task, call: Call)
    requires !call.Create? && Same(Scan(id, r), t)
    ensures Same(Scan(id, Assigned(r, call)), Updated(t, call)) && Updated(t, call).id == t.id
  {
    assert Outputs([]) == [];
    match call
    case Start(_, nodeId, _, _) =>
      TrimSpaceTrims(nodeId);
    case Complete(_, nodeId, _, page, _, _) =>
      TrimSpaceTrims(nodeId);
      TrimTwice(page, NoBlocker);
    case Fail(_, nodeId, _, _, page, blocker, _, _) =>
      TrimSpaceTrims(nodeId);
      TrimTwice(page, blocker);
    case _ =>
  }

  /** A created row agrees with the record the in-memory store creates from the same input, apart from the id. */
  lemma InsertAgrees(db: Db, id: string, s: Store, input: CreateInput, now: int)
    requires id !in db && Step(s, Create(input, now)).1.Ok?
    ensures var d := Execute(db, Insert(id, input, now));
      && id in d && d.Keys == db.Keys + {id}
      && Same(Scan(id, d[id]), Step(s, Create(input, now)).1.task.(id := id))
      && forall other :: other in db ==> d[other] == db[other]
  {
    TrimSpaceTrims(input.sourceId);
    assert Outputs([]) == [];
  }

  lemma SameStatus(db: Db, s: Store, id: string)
    requires Agree(db, s, id) && id in db
    ensures db[id].status == s.items[id].status
  {
    assert View(Scan(id, db[id])).status == View(s.items[id]).status;
  }

  lemma SelectedIsAccepted(db: Db, s: Store, call: Call)
    requires !call.Create? && Agree(db, s, call.id)
    ensures Selects(db, call) <==> Step(s, call).1.Ok?
  {
    if call.id in db {
      SameStatus(db, s, call.id);
    }
  }

  lemma UpdateAgrees(db: Db, s: Store, call: Call)
    requires !call.Create? && Agree(db, s, call.id) && Selects(db, call) && Step(s, call).1.Ok?
    ensures Same(Scan(call.id, Assigned(db[call.id], call)), Step(s, call).1.task)
    ensures Agree(Execute(db, Write(call)), Step(s, call).0, call.id)
  {
    AssignedAgrees(call.id, db[call.id], s.items[call.id], call);
    assert Execute(db, Write(call))[call.id] == Assigned(db[call.id], call);
  }

  lemma OtherRecordsAgree(db: Db, s: Store, call: Call, id: string)
    requires !call.Create? && Agree(db, s, id) && id != call.id
    ensures Agree(Execute(db, Write(call)), Step(s, call).0, id)
  {
    var d, v := Execute(db, Write(call)), Step(s, call).0;
    assert (id in d <==> id in db) && (id in v.items <==> id in s.items);
  }

  /** One UPDATE does what the atomic in-memory call does: it selects a row exactly when that call is
      accepted, and the stores (and the returned tasks) still agree afterwards. */
  lemma UpdateRefinesStep(db: Db, s: Store, call: Call)
    requires Matches(db, s) && !call.Create?
    ensures Selects(db, call) <==> Step(s, call).1.Ok?
    ensures Selects(db, call) ==> Same(Scan(call.id, Assigned(db[call.id], call)), Step(s, call).1.task)
    ensures Matches(Execute(db, Write(call)), Step(s, call).0)
  {
    assert Agree(db, s, call.id);
    SelectedIsAccepted(db, s, call);
    if Selects(db, call) {
      UpdateAgrees(db, s, call);
      forall id ensures Agree(Execute(db, Write(call)), Step(s, call).0, id) {
        assert Agree(db, s, id);
        if id != call.id {
          OtherRecordsAgree(db, s, call, id);
        }
      }
    } else {
      assert Step(s, call).0 == s && Execute(db, Write(call)) == db;
    }
  }

  /** The error the atomic in-memory call would answer in this state, if any. */
  function AtomicError(db: Db, call: Call): Option<Error>
    requires !call.Create?
  {
    if call.id !in db then Some(NotFound) else Rejection(db[call.id].status, call)
  }

  lemma AtomicErrorIsInMemoryError(db: Db, s: Store, call: Call)
    requires Matches(db, s) && !call.Create?
    ensures Step(s, call).1.Err? <==> AtomicError(db, call).Some?
    ensures Step(s, call).1.Err? ==> Step(s, call) == (s, Err(AtomicError(db, call).value))
  {
    assert Agree(db, s, call.id);
    if call.id in db {
      SameStatus(db, s, call.id);
    }
  }

  /** The answer is one the atomic call gives, without effect, at the UPDATE or at the lookup. */
  predicate AnswersLikeAtomic(db: Db, later: Db, call: Call)
    requires !call.Create?
  {
    || AtomicError(db, call) == Some(LookupError(later, call))
    || AtomicError(later, call) == Some(LookupError(later, call))
  }

  /** Rows are never removed, and only Canceled is absorbing. */
  lemma {:induction false} RowsStay(db: Db, sts: seq<Statement>, id: string)
    requires (forall st :: st in sts ==> WellFormed(st)) && id in db
    ensures id in ExecuteAll(db, sts)
    ensures db[id].status == Canceled ==> ExecuteAll(db, sts)[id] == db[id]
    decreases |sts|
  {
    if sts != [] {
      RowsStay(Execute(db, sts[0]), sts[1..], id);
    }
  }

  /** Retry, Complete and Fail: under every interleaving the two-statement call answers like the atomic
      one, and when the task existed at the UPDATE the answer is exactly the atomic answer there. */
  lemma TwoStatementsRefineAtomic(db: Db, s: Store, call: Call, others: seq<Statement>)
    requires Matches(db, s) && (call.Retry? || call.Complete? || call.Fail?)
    requires forall st :: st in others ==> WellFormed(st)
    ensures var (after, reply) := PostgresCall(db, call, others);
      if Selects(db, call) then
        Step(s, call).1.Ok? && reply.Ok? && Same(reply.task, Step(s, call).1.task) && Matches(after, Step(s, call).0)
      else
        && after == ExecuteAll(db, others) && reply == Err(LookupError(after, call))
        && AnswersLikeAtomic(db, after, call)
        && (call.id in db ==> reply == Step(s, call).1)
  {
    if Selects(db, call) {
      UpdateRefinesStep(db, s, call);
    } else {
      AtomicErrorIsInMemoryError(db, s, call);
      MissedCallAnswersLikeAtomic(db, call, others);
    }
  }

  lemma MissedCallAnswersLikeAtomic(db: Db, call: Call, others: seq<Statement>)
    requires (call.Retry? || call.Complete? || call.Fail?) && !Selects(db, call)
    requires forall st :: st in others ==> WellFormed(st)
    ensures AtomicError(db, call).Some? && AnswersLikeAtomic(db, ExecuteAll(db, others), call)
    ensures call.id in db ==> AtomicError(db, call) == Some(LookupError(ExecuteAll(db, others), call))
  {
    if call.id in db {
      RowsStay(db, others, call.id);
    }
  }

  /** Start: the answer is atomic exactly unless the task appeared, queued, between the statements. */
  lemma StartAnswersLikeAtomicIff(db: Db, call: Call, others: seq<Statement>)
    requires call.Start? && !Selects(db, call) && forall st :: st in others ==> WellFormed(st)
    ensures var later := ExecuteAll(db, others);
      AnswersLikeAtomic(db, later, call) <==> !(call.id !in db && call.id in later && later[call.id].status == Queued)
  {
    if call.id in db {
      RowsStay(db, others, call.id);
    }
  }

  /** Cancel: the answer is atomic exactly unless a finished task was made active again between the
      statements; then an existing task is reported as not found. */
  lemma CancelAnswersLikeAtomicIff(db: Db, call: Call, others: seq<Statement>)
    requires call.Cancel? && !Selects(db, call) && forall st :: st in others ==> WellFormed(st)
    ensures var later := ExecuteAll(db, others);
      var revived := call.id in db && call.id in later && later[call.id].status in {Queued, Running};
      && (AnswersLikeAtomic(db, later, call) <==> !revived)
      && (!AnswersLikeAtomic(db, later, call) ==> LookupError(later, call) == NotFound)
  {
    if call.id in db {
      RowsStay(db, others, call.id);
    }
  }

  /** The failing family is inhabited: a task failed by a late Fail, re-queued by its holder's Retry while Cancel
      is between its statements, is answered with NotFound (`TaskRunner.LateFailLeavesRetriable` is the run that
      gets there). */
  lemma CancelCanReportExistingTaskMissing(db: Db, id: string, now: int)
    requires id in db && db[id].status == Failed
    ensures var retry := Write(Retry(id, now, "late", now));
      PostgresCall(db, Cancel(id, now, "", now), [retry]).1 == Err(NotFound)
  {
    var retry := Write(Retry(id, now, "late", now));
    var d := Execute(db, retry);
    assert [retry][1..] == [];
    assert ExecuteAll(db, [retry]) == ExecuteAll(d, []);
  }

  /** Where the stores differ: Start clears the completion time of the row, the in-memory Start keeps it.
      The completion times agree after Start exactly when the record had none. */
  lemma CompletionTimesAgreeAfterStartIff(id: string, r: Row, t: Task, call: Call)
    requires call.Start?
    ensures Scan(id, Assigned(r, call)).completedAt == Updated(t, call).completedAt <==> t.completedAt == None
  {
  }

  /** Any sequence of statements keeps the stores in agreement when the in-memory store makes the same
      calls (the calls that create tasks excepted: the two stores issue different ids). */
  lemma {:induction false} StatementsRefineSteps(db: Db, s: Store, calls: seq<Call>)
    requires Matches(db, s) && forall c :: c in calls ==> !c.Create?
    ensures Matches(ExecuteAll(db, Writes(calls)), Run(s, calls))
    decreases |calls|
  {
    if calls != [] {
      UpdateRefinesStep(db, s, calls[0]);
      assert Writes(calls)[1..] == Writes(calls[1..]);
      StatementsRefineSteps(Execute(db, Write(calls[0])), Step(s, calls[0]).0, calls[1..]);
    }
  }

  function Writes(calls: seq<Call>): (sts: seq<Statement>)
    requires forall c :: c in calls ==> !c.Create?
    ensures forall st :: st in sts ==> WellFormed(st)
  {
    seq(|calls|, i requires 0 <= i < |calls| => Write(calls[i]))
  }
}
