/** Workers of the task runner (internal/taskrunner/runner.go) on one shared task store.

    Any number of workers, of any number of runner instances, interleave with API calls and with "late"
    Fail calls (a re-enqueue that gave up, a create whose enqueue failed). Every store call is one atomic
    step. Between its Start and its closing call a worker keeps ITS OWN COPY of the task, and decides
    about a retry from that copy. */
module TaskRunner {
  import opened Text
  import opened TaskService
  import opened Wrappers

  datatype Worker =
    | Loaded(id: string)        // read the task as queued, has not called Start yet
    | Executing(copy: Task)     // Start succeeded, the closing call is still to come
    | Closing(id: string)       // Retry or Complete was rejected, a Fail is still to come
    | StartFailing(id: string)  // Start failed otherwise, a Fail is still to come

  /** A worker that is not in the map is idle. */
  datatype World = World(store: Store, workers: map<nat, Worker>)

  const Initial := World(Empty, map[])

  datatype Evidence = Evidence(page: Page, blocker: Blocker, trace: seq<StepTrace>)

  const NoEvidence := Evidence(NoPage, NoBlocker, [])

  datatype Event =
    | ApiCreate(input: CreateInput, now: int)
    | ApiCancel(id: string, reason: string, now: int)
    | LateFail(id: string, error: string, now: int)
    | Load(w: nat, id: string)
    | Begin(w: nat, now: int)
    | Blocked(w: nat, nodeId: string, error: string, evidence: Evidence, now: int)
    | Succeeded(w: nat, nodeId: string, page: Page, trace: seq<StepTrace>, now: int)
    | ExecutionFailed(w: nat, nodeId: string, error: string, retriable: bool, evidence: Evidence, retryAt: int,
                      now: int)
    | GiveUp(w: nat, nodeId: string, error: string, now: int)

  /** shouldRetry, on the worker's copy; whether the error is retriable is left open. */
  predicate ShouldRetry(copy: Task, retriable: bool) {
    copy.maxRetries > 0 && copy.attempt <= copy.maxRetries && retriable
  }

  function FailCall(id: string, nodeId: string, error: string, e: Evidence, now: int): Call {
    Fail(id, nodeId, now, error, e.page, e.blocker, e.trace, now)
  }

  /** The store call an event makes, if it makes one in this state. */
  function CallOf(x: World, e: Event): Option<Call> {
    match e
    case ApiCreate(input, now) => Some(Create(input, now))
    case ApiCancel(id, reason, now) => Some(Cancel(id, now, reason, now))
    case LateFail(id, error, now) => Some(FailCall(id, "", error, NoEvidence, now))
    case Load(_, _) => None
    case Begin(w, now) =>
      if w in x.workers && x.workers[w].Loaded? then Some(Start(x.workers[w].id, "", now, now)) else None
    case Blocked(w, nodeId, error, evidence, now) =>
      if w in x.workers && x.workers[w].Executing? then
        Some(FailCall(x.workers[w].copy.id, nodeId, error, evidence, now))
      else None
    case Succeeded(w, nodeId, page, trace, now) =>
      if w in x.workers && x.workers[w].Executing? then
        Some(Complete(x.workers[w].copy.id, nodeId, now, page, trace, now))
      else None
    case ExecutionFailed(w, nodeId, error, retriable, evidence, retryAt, now) =>
      if w in x.workers && x.workers[w].Executing? then
        var copy := x.workers[w].copy;
        if TrimSpace(evidence.blocker.kind) == "" && ShouldRetry(copy, retriable) then
          Some(Retry(copy.id, retryAt, error, now))
        else Some(FailCall(copy.id, nodeId, error, evidence, now))
      else None
    case GiveUp(w, nodeId, error, now) =>
      if w in x.workers && (x.workers[w].Closing? || x.workers[w].StartFailing?) then
        Some(FailCall(x.workers[w].id, nodeId, error, NoEvidence, now))
      else None
  }

  /** What the worker does with the reply to its call. */
  function AfterReply(x: World, w: nat, call: Call, reply: Reply): map<nat, Worker>
    requires w in x.workers && !call.Create?
  {
    match call
    case Start(id, _, _, _) =>
      if reply.Ok? then x.workers[w := Executing(reply.task)]
      else if reply.error == NotQueued then x.workers - {w}
      else x.workers[w := StartFailing(id)]
    case Retry(id, _, _, _) =>
      if reply.Ok? then x.workers - {w} else x.workers[w := Closing(id)]
    case Complete(id, _, _, _, _, _) =>
      if reply.Ok? || reply.error == NotCancelable then x.workers - {w} else x.workers[w := Closing(id)]
    case _ => x.workers - {w}
  }

  function Next(x: World, e: Event): World {
    var call := CallOf(x, e);
    if e.Load? then
      if e.w !in x.workers && e.id in x.store.items && x.store.items[e.id].status == Queued then
        x.(workers := x.workers[e.w := Loaded(e.id)])
      else x
    else if call.None? then x
    else
      var (store, reply) := Step(x.store, call.value);
      if e.ApiCreate? || e.ApiCancel? || e.LateFail? then World(store, x.workers)
      else World(store, AfterReply(x, e.w, call.value, reply))
  }

  function Run(x: World, events: seq<Event>): World
    decreases |events|
  {
    if events == [] then x else Run(Next(x, events[0]), events[1..])
  }

  /** The store calls of a run, in order. */
  function Calls(x: World, events: seq<Event>): seq<Call>
    decreases |events|
  {
    if events == [] then []
    else
      var call := CallOf(x, events[0]);
      (if call.Some? then [call.value] else []) + Calls(Next(x, events[0]), events[1..])
  }

  /** Worker `w` is between a successful Start of `id` and the end of its closing call. */
  predicate Open(x: World, w: nat, id: string) {
    w in x.workers && ((x.workers[w].Executing? && x.workers[w].copy.id == id) || x.workers[w] == Closing(id))
  }

  // ---------------------------------------------------------------- the invariant

  /** The stored record respects the retry bound, with room for one more Start while it is queued. */
  predicate WithinBound(s: Store, id: string) {
    id in s.items ==>
      var t := s.items[id];
      && 0 <= t.attempt <= t.maxRetries + 1
      && (t.status == Queued ==> t.attempt <= t.maxRetries)
  }

  predicate AgreesWithStore(s: Store, copy: Task) {
    && copy.id in s.items
    && s.items[copy.id].attempt == copy.attempt
    && s.items[copy.id].maxRetries == copy.maxRetries
  }

  /** An executing worker's copy agrees with the store on what the retry decision reads, and the record
      is not queued; a worker whose closing call was rejected deals with a canceled record. */
  predicate CopyOk(x: World, w: nat) {
    w in x.workers ==>
      match x.workers[w]
      case Executing(copy) => AgreesWithStore(x.store, copy) && x.store.items[copy.id].status != Queued
      case Closing(id) => id in x.store.items && x.store.items[id].status == Canceled
      case _ => true
  }

  ghost predicate Inv(x: World) {
    && StoreOk(x.store)
    && (forall id :: WithinBound(x.store, id))
    && (forall w :: CopyOk(x, w))
    && (forall v, w, id :: Open(x, v, id) && Open(x, w, id) ==> v == w)
  }

  /** No call of another worker, and no API call, queues or restarts a record that is not queued; only a
      Retry queues one. */
  lemma CallOnUnqueued(s: Store, call: Call, id: string)
    requires StoreOk(s) && id in s.items && s.items[id].status != Queued
    ensures var v := Step(s, call).0;
      && id in v.items && v.items[id].attempt == s.items[id].attempt && v.items[id].maxRetries == s.items[id].maxRetries
      && (s.items[id].status == Canceled ==> v.items[id].status == Canceled)
      && (v.items[id].status == Queued ==> call.Retry? && call.id == id && Step(s, call).1.Ok?)
  {
    StepOnRecord(s, call, id);
    assert RecordOk(s, TaskId(s.counter + 1));
    FreshId(s);
  }

  lemma CallKeepsBound(s: Store, call: Call, id: string)
    requires StoreOk(s) && WithinBound(s, id)
    requires call.Retry? && call.id == id && id in s.items ==> s.items[id].attempt <= s.items[id].maxRetries
    ensures WithinBound(Step(s, call).0, id)
  {
  }

  lemma CallKeepsStoreOk(s: Store, call: Call)
    requires StoreOk(s)
    ensures StoreOk(Step(s, call).0)
  {
    forall id ensures RecordOk(Step(s, call).0, id) {
      StepKeepsRecord(s, call, id);
    }
  }

  /** A Retry is only ever issued by the executing worker of that record, within the bound of the store. */
  lemma RetryComesFromHolder(x: World, e: Event)
    requires Inv(x) && CallOf(x, e).Some? && CallOf(x, e).value.Retry?
    ensures e.ExecutionFailed? && Open(x, e.w, CallOf(x, e).value.id)
    ensures var id := CallOf(x, e).value.id;
      id in x.store.items && x.store.items[id].attempt <= x.store.items[id].maxRetries
  {
    assert CopyOk(x, e.w);
  }

  lemma NextKeepsBound(x: World, e: Event, id: string)
    requires Inv(x)
    ensures WithinBound(Next(x, e).store, id)
  {
    assert WithinBound(x.store, id);
    var call := CallOf(x, e);
    if call.Some? {
      if call.value.Retry? {
        RetryComesFromHolder(x, e);
      }
      CallKeepsBound(x.store, call.value, id);
    }
  }

  /** The event is worker `w`'s own. */
  predicate ActsFor(e: Event, w: nat) {
    !(e.ApiCreate? || e.ApiCancel? || e.LateFail?) && e.w == w
  }

  lemma OthersKeepCopy(x: World, e: Event, w: nat)
    requires Inv(x) && !ActsFor(e, w)
    ensures CopyOk(Next(x, e), w)
    ensures w in Next(x, e).workers <==> w in x.workers
    ensures w in x.workers ==> Next(x, e).workers[w] == x.workers[w]
  {
    assert CopyOk(x, w);
    var call := CallOf(x, e);
    if call.Some? && w in x.workers && (x.workers[w].Executing? || x.workers[w].Closing?) {
      var id := if x.workers[w].Executing? then x.workers[w].copy.id else x.workers[w].id;
      CallOnUnqueued(x.store, call.value, id);
      if call.value.Retry? {
        RetryComesFromHolder(x, e);
        assert Open(x, w, id);
      }
    }
  }

  lemma OwnStepKeepsCopy(x: World, e: Event, w: nat)
    requires Inv(x) && ActsFor(e, w)
    ensures CopyOk(Next(x, e), w)
  {
    assert CopyOk(x, w);
    if CallOf(x, e).Some? && !e.Begin? {
      var call := CallOf(x, e).value;
      assert call.id in x.store.items && Step(x.store, call).1.Err? ==> x.store.items[call.id].status == Canceled;
    }
    if e.Begin? && CallOf(x, e).Some? {
      assert RecordOk(x.store, CallOf(x, e).value.id);
    }
  }

  /** An attempt opens only by a Start, which needs a queued record, and an open record is not queued. */
  lemma OpenOnlyByStart(x: World, e: Event, w: nat, id: string)
    requires Inv(x) && Open(Next(x, e), w, id) && !Open(x, w, id)
    ensures ActsFor(e, w) && e.Begin? && id in x.store.items && x.store.items[id].status == Queued
  {
    if !ActsFor(e, w) {
      OthersKeepCopy(x, e, w);
    } else if CallOf(x, e).Some? && CallOf(x, e).value.Start? {
      assert RecordOk(x.store, CallOf(x, e).value.id);
    }
  }

  lemma NextKeepsOneOpen(x: World, e: Event, v: nat, w: nat, id: string)
    requires Inv(x) && Open(Next(x, e), v, id) && Open(Next(x, e), w, id)
    ensures v == w
  {
    assert CopyOk(x, v) && CopyOk(x, w);
    if !Open(x, v, id) {
      OpenOnlyByStart(x, e, v, id);
    }
    if !Open(x, w, id) {
      OpenOnlyByStart(x, e, w, id);
    }
  }

  lemma NextKeepsInv(x: World, e: Event)
    requires Inv(x)
    ensures Inv(Next(x, e))
  {
    var y := Next(x, e);
    if CallOf(x, e).Some? {
      CallKeepsStoreOk(x.store, CallOf(x, e).value);
    }
    forall id ensures WithinBound(y.store, id) {
      NextKeepsBound(x, e, id);
    }
    forall w ensures CopyOk(y, w) {
      if ActsFor(e, w) {
        OwnStepKeepsCopy(x, e, w);
      } else {
        OthersKeepCopy(x, e, w);
      }
    }
    forall v, w, id | Open(y, v, id) && Open(y, w, id) ensures v == w {
      NextKeepsOneOpen(x, e, v, w, id);
    }
  }

  lemma {:induction false} RunKeepsInv(x: World, events: seq<Event>)
    requires Inv(x)
    ensures Inv(Run(x, events))
    decreases |events|
  {
    if events != [] {
      NextKeepsInv(x, events[0]);
      RunKeepsInv(Next(x, events[0]), events[1..]);
    }
  }

  lemma InitialInv()
    ensures Inv(Initial)
  {
  }

  // ---------------------------------------------------------------- the theorems

  /** One open attempt: over all interleavings, at most one worker is between Start and the end of its
      closing call for a task; a queued task has none; the worker's copied attempt and retry limit are
      the stored ones. */
  lemma OneOpenAttempt(events: seq<Event>)
    ensures var x := Run(Initial, events);
      && (forall v, w, id :: Open(x, v, id) && Open(x, w, id) ==> v == w)
      && (forall w, id :: Open(x, w, id) ==> id in x.store.items && x.store.items[id].status != Queued)
      && (forall w :: w in x.workers && x.workers[w].Executing? ==> AgreesWithStore(x.store, x.workers[w].copy))
  {
    InitialInv();
    RunKeepsInv(Initial, events);
    var x := Run(Initial, events);
    forall w, id | Open(x, w, id)
      ensures id in x.store.items && x.store.items[id].status != Queued
    {
      assert CopyOk(x, w);
    }
    forall w | w in x.workers && x.workers[w].Executing?
      ensures AgreesWithStore(x.store, x.workers[w].copy)
    {
      assert CopyOk(x, w);
    }
  }

  lemma {:induction false} RunIsStoreRun(x: World, events: seq<Event>)
    ensures Run(x, events).store == TaskService.Run(x.store, Calls(x, events))
    decreases |events|
  {
    if events != [] {
      var y, call := Next(x, events[0]), CallOf(x, events[0]);
      RunIsStoreRun(y, events[1..]);
      if call.Some? {
        assert Calls(x, events)[0] == call.value && Calls(x, events)[1..] == Calls(y, events[1..]);
      } else {
        assert y.store == x.store && Calls(x, events) == Calls(y, events[1..]);
      }
    }
  }

  /** Retry bound: over all interleavings a task is started at most `maxRetries + 1` times. */
  lemma RetryBound(events: seq<Event>, id: string)
    requires id in Run(Initial, events).store.items
    ensures var t := Run(Initial, events).store.items[id];
      && Starts(Empty, Calls(Initial, events), id) == t.attempt <= t.maxRetries + 1
      && (t.status == Queued ==> t.attempt <= t.maxRetries)
  {
    InitialInv();
    RunKeepsInv(Initial, events);
    RunIsStoreRun(Initial, events);
    AttemptCountsStarts(Empty, Calls(Initial, events), id);
    assert WithinBound(Run(Initial, events).store, id);
  }

  /** The measure: every successful Start uses up one of the remaining attempts, no event gives one back. */
  lemma RemainingAttemptsShrink(x: World, e: Event, id: string)
    requires Inv(x) && id in x.store.items
    ensures var y := Next(x, e);
      && id in y.store.items
      && 0 <= y.store.items[id].maxRetries + 1 - y.store.items[id].attempt
           <= x.store.items[id].maxRetries + 1 - x.store.items[id].attempt
      && (e.Begin? && CallOf(x, e).Some? && CallOf(x, e).value.id == id && Step(x.store, CallOf(x, e).value).1.Ok? ==>
            y.store.items[id].attempt == x.store.items[id].attempt + 1)
  {
    NextKeepsBound(x, e, id);
    if CallOf(x, e).Some? {
      StepOnRecord(x.store, CallOf(x, e).value, id);
    }
  }

  /** The bound rests on the worker's copy being fresh: with a stale copy of an earlier attempt the same
      decision would queue a record that has used up its attempts. */
  lemma StaleCopyWouldOverrun(s: Store, id: string, error: string, now: int)
    requires id in s.items && s.items[id].status == Running
    requires s.items[id].attempt == s.items[id].maxRetries + 1 && s.items[id].maxRetries > 0
    ensures var stale := s.items[id].(attempt := s.items[id].maxRetries);
      var v := Step(s, Retry(id, now, error, now)).0;
      ShouldRetry(stale, true) && !ShouldRetry(s.items[id], true)
      && id in v.items && Step(v, Start(id, "", now, now)).1.Ok?
      && Step(v, Start(id, "", now, now)).1.task.attempt == s.items[id].maxRetries + 2
  {
  }

  // ---------------------------------------------------------------- finished tasks

  predicate Finished(x: World, id: string) {
    id in x.store.items && x.store.items[id].status in {Completed, Failed, Canceled}
  }

  /** Only the holder completes a record, and that ends its attempt: a completed record has no open worker. */
  predicate CompletedIsClosed(x: World, w: nat, id: string) {
    Open(x, w, id) && id in x.store.items ==> x.store.items[id].status != Completed
  }

  lemma CompleteComesFromHolder(x: World, e: Event)
    requires Inv(x) && CallOf(x, e).Some? && CallOf(x, e).value.Complete?
    ensures e.Succeeded? && Open(x, e.w, CallOf(x, e).value.id)
  {
  }

  /** Only a Complete makes a record completed. */
  lemma CallCompletes(s: Store, call: Call, id: string)
    requires StoreOk(s) && id in Step(s, call).0.items && Step(s, call).0.items[id].status == Completed
    ensures id in s.items && (s.items[id].status == Completed || (call.Complete? && call.id == id))
  {
  }

  /** The call of an event that ends an attempt is the last of that worker, unless it was rejected. */
  lemma HolderCloses(x: World, e: Event, w: nat, id: string)
    requires Inv(x) && Open(x, w, id) && ActsFor(e, w) && Open(Next(x, e), w, id)
    ensures Next(x, e).store == x.store
  {
    assert CopyOk(x, w);
  }

  lemma NextKeepsClosed(x: World, e: Event, w: nat, id: string)
    requires Inv(x) && (forall v :: CompletedIsClosed(x, v, id))
    ensures CompletedIsClosed(Next(x, e), w, id)
  {
    var y := Next(x, e);
    assert CompletedIsClosed(x, w, id);
    if Open(y, w, id) && id in y.store.items && y.store.items[id].status == Completed {
      if !Open(x, w, id) {
        OpenOnlyByStart(x, e, w, id);
        var call := CallOf(x, e).value;
        CallCompletes(x.store, call, id);
      } else {
        CallCompletes(x.store, CallOf(x, e).value, id);
        CompleteComesFromHolder(x, e);
        assert e.w == w;
        HolderCloses(x, e, w, id);
      }
    }
  }

  ghost predicate ReachedInv(x: World) {
    Inv(x) && forall w, id :: CompletedIsClosed(x, w, id)
  }

  lemma {:induction false} RunKeepsReached(x: World, events: seq<Event>)
    requires ReachedInv(x)
    ensures ReachedInv(Run(x, events))
    decreases |events|
  {
    if events != [] {
      NextKeepsInv(x, events[0]);
      forall w, id ensures CompletedIsClosed(Next(x, events[0]), w, id) {
        NextKeepsClosed(x, events[0], w, id);
      }
      RunKeepsReached(Next(x, events[0]), events[1..]);
    }
  }

  lemma Reachable(events: seq<Event>)
    ensures ReachedInv(Run(Initial, events))
  {
    InitialInv();
    RunKeepsReached(Initial, events);
  }

  /** In every run, a Retry meets a running, failed or canceled record, never a completed one. */
  lemma RetryNeverMeetsCompleted(events: seq<Event>, e: Event)
    requires var x := Run(Initial, events); CallOf(x, e).Some? && CallOf(x, e).value.Retry?
    ensures var x := Run(Initial, events);
      var id := CallOf(x, e).value.id;
      id in x.store.items && x.store.items[id].status in {Running, Failed, Canceled}
  {
    Reachable(events);
    var x := Run(Initial, events);
    RetryComesFromHolder(x, e);
    assert CopyOk(x, e.w) && CompletedIsClosed(x, e.w, CallOf(x, e).value.id);
  }

  /** Worker `w` is still executing `id` and its copy leaves it an attempt. */
  predicate HolderMayRetry(x: World, w: nat, id: string) {
    w in x.workers && x.workers[w].Executing? && x.workers[w].copy.id == id && ShouldRetry(x.workers[w].copy, true)
  }

  /** A failed record (by a late Fail) whose holder may still retry it. */
  ghost predicate MayRestart(x: World, id: string) {
    id in x.store.items && x.store.items[id].status == Failed && exists w :: HolderMayRetry(x, w, id)
  }

  lemma CallOnFinished(s: Store, call: Call, id: string)
    requires StoreOk(s) && id in s.items && s.items[id].status in {Completed, Failed, Canceled}
    ensures id in Step(s, call).0.items
    ensures Step(s, call).0.items[id].status in {Completed, Failed, Canceled} || (call.Retry? && call.id == id)
    ensures call.Start? && call.id == id ==> Step(s, call).1.Err?
    ensures Step(s, call).0.items[id].attempt == s.items[id].attempt
    ensures s.items[id].status == Canceled ==> Step(s, call).0.items[id].status == Canceled
  {
    StepOnRecord(s, call, id);
    assert RecordOk(s, TaskId(s.counter + 1));
    FreshId(s);
  }

  /** A finished record that nobody may retry stays finished, and nobody may retry it later. */
  lemma NextKeepsFinished(x: World, e: Event, id: string)
    requires ReachedInv(x) && Finished(x, id) && !MayRestart(x, id)
    ensures Finished(Next(x, e), id) && Next(x, e).store.items[id].attempt == x.store.items[id].attempt
    ensures CallOf(x, e).Some? && CallOf(x, e).value.Start? && CallOf(x, e).value.id == id ==>
      Step(x.store, CallOf(x, e).value).1.Err?
  {
    if CallOf(x, e).Some? {
      var call := CallOf(x, e).value;
      CallOnFinished(x.store, call, id);
      if call.Retry? && call.id == id {
        RetryComesFromHolder(x, e);
        assert HolderMayRetry(x, e.w, id);
        assert CompletedIsClosed(x, e.w, id);
      }
    }
  }

  lemma NextKeepsUnretriable(x: World, e: Event, id: string)
    requires ReachedInv(x) && Finished(x, id) && !MayRestart(x, id)
    ensures !MayRestart(Next(x, e), id)
  {
    var y := Next(x, e);
    forall w | HolderMayRetry(y, w, id) && id in y.store.items ensures y.store.items[id].status != Failed {
      if !Open(x, w, id) {
        OpenOnlyByStart(x, e, w, id);
      } else {
        StillExecuting(x, e, w, id);
        assert HolderMayRetry(x, w, id);
        assert CompletedIsClosed(x, w, id);
        if CallOf(x, e).Some? {
          CallOnFinished(x.store, CallOf(x, e).value, id);
        }
      }
    }
  }

  /** A worker that goes on executing keeps its copy. */
  lemma StillExecuting(x: World, e: Event, w: nat, id: string)
    requires Inv(x) && Open(x, w, id) && HolderMayRetry(Next(x, e), w, id)
    ensures w in x.workers && x.workers[w] == Next(x, e).workers[w]
  {
    if !ActsFor(e, w) {
      OthersKeepCopy(x, e, w);
    }
  }

  lemma {:induction false} FinishedStaysFinished(x: World, events: seq<Event>, id: string)
    requires ReachedInv(x) && Finished(x, id) && !MayRestart(x, id)
    ensures Finished(Run(x, events), id) && Starts(x.store, Calls(x, events), id) == 0
    decreases |events|
  {
    if events != [] {
      var e, y := events[0], Next(x, events[0]);
      NextKeepsFinished(x, e, id);
      NextKeepsUnretriable(x, e, id);
      RunKeepsReached(x, [e]);
      assert Run(x, [e]) == Run(y, []);
      FinishedStaysFinished(y, events[1..], id);
      CallsStep(x, events);
    }
  }

  lemma CallsStep(x: World, events: seq<Event>)
    requires events != []
    ensures var call, rest := CallOf(x, events[0]), Calls(Next(x, events[0]), events[1..]);
      && Calls(x, events) == (if call.Some? then [call.value] else []) + rest
      && forall id :: Starts(x.store, Calls(x, events), id) ==
           (if call.Some? && call.value.Start? && call.value.id == id && Step(x.store, call.value).1.Ok? then 1 else 0)
           + Starts(Next(x, events[0]).store, rest, id)
  {
    var call, rest := CallOf(x, events[0]), Calls(Next(x, events[0]), events[1..]);
    if call.Some? {
      assert ([call.value] + rest)[1..] == rest;
    } else {
      assert [] + rest == rest;
    }
  }

  /** The holder of a failed record with an attempt left can queue it again, and it can be started again. */
  lemma RetriableRestarts(x: World, w: nat, id: string)
    requires ReachedInv(x) && id in x.store.items && x.store.items[id].status == Failed && HolderMayRetry(x, w, id)
    ensures exists more :: Starts(x.store, Calls(x, more), id) > 0
  {
    var retry := ExecutionFailed(w, "", "", true, NoEvidence, 0, 0);
    var more := [retry, Load(w, id), Begin(w, 0)];
    assert TrimSpace("") == "";
    assert CallOf(x, retry) == Some(Retry(id, 0, "", 0));
    var y := Next(x, retry);
    assert y.store.items[id].status == Queued && w !in y.workers;
    var z := Next(y, Load(w, id));
    assert CallOf(z, Begin(w, 0)) == Some(Start(id, "", 0, 0)) && Step(z.store, Start(id, "", 0, 0)).1.Ok?;
    CallsStep(x, more);
    assert more[1..] == [Load(w, id), Begin(w, 0)];
    CallsStep(y, more[1..]);
    assert more[1..][1..] == [Begin(w, 0)];
    CallsStep(z, [Begin(w, 0)]);
    assert Starts(x.store, Calls(x, more), id) > 0;
  }

  /** Restarts, exactly: a completed, failed or canceled record can be started again by some further events if
      and only if it is failed and its holder is still executing with an attempt left. In particular none
      without an open worker ever is. */
  lemma FinishedRestartsIff(events: seq<Event>, id: string)
    requires Finished(Run(Initial, events), id)
    ensures var x := Run(Initial, events);
      (exists more :: Starts(x.store, Calls(x, more), id) > 0) <==> MayRestart(x, id)
  {
    Reachable(events);
    var x := Run(Initial, events);
    if MayRestart(x, id) {
      var w :| HolderMayRetry(x, w, id);
      RetriableRestarts(x, w, id);
    } else {
      forall more ensures Starts(x.store, Calls(x, more), id) == 0 {
        FinishedStaysFinished(x, more, id);
      }
    }
  }

  /** Such a record exists: a task is created, a worker starts it, and the enqueuer that gave up fails it while
      it is executing. */
  lemma LateFailLeavesRetriable()
    ensures exists events, id :: MayRestart(Run(Initial, events), id)
  {
    var id, input := TaskId(1), CreateInput("", "session", "url", "goal", [], 1);
    var create := ApiCreate(input, 0);
    var a := Next(Initial, create);
    assert CreateError(input) == None;
    assert a.store.items == map[id := Created(1, input, 0)];
    FailedWhileExecuting(a, id, 0);
    RunOfFour(Initial, create, Load(0, id), Begin(0, 0), LateFail(id, "re-enqueue failed", 0));
  }

  /** An idle worker loads and starts a queued task, and a late Fail hits it. */
  lemma FailedWhileExecuting(a: World, id: string, w: nat)
    requires w !in a.workers && id in a.store.items && a.store.items[id].id == id && a.store.items[id].status == Queued
    requires a.store.items[id].maxRetries == 1 && a.store.items[id].attempt == 0
    ensures MayRestart(Next(Next(Next(a, Load(w, id)), Begin(w, 0)), LateFail(id, "re-enqueue failed", 0)), id)
  {
    var c := Next(Next(a, Load(w, id)), Begin(w, 0));
    assert c.workers[w].Executing? && c.workers[w].copy.attempt == 1;
    assert HolderMayRetry(Next(c, LateFail(id, "re-enqueue failed", 0)), w, id);
  }

  lemma RunOfFour(x: World, a: Event, b: Event, c: Event, d: Event)
    ensures Run(x, [a, b, c, d]) == Next(Next(Next(Next(x, a), b), c), d)
  {
    var y := Next(x, a);
    assert [a, b, c, d][1..] == [b, c, d];
    assert Run(x, [a, b, c, d]) == Run(y, [b, c, d]);
    assert [b, c, d][1..] == [c, d];
    assert Run(y, [b, c, d]) == Run(Next(y, b), [c, d]);
    assert [c, d][1..] == [d] && [d][1..] == [];
    assert Run(Next(y, b), [c, d]) == Run(Next(Next(y, b), c), [d]);
  }

  // ---------------------------------------------------------------- what a worker reports

  /** A worker that has loaded a task finds it in the store, and none ever fails to start an existing task for
      another reason than its status. */
  predicate LoadedOk(x: World, w: nat) {
    w in x.workers ==>
      match x.workers[w]
      case Loaded(id) => id in x.store.items
      case StartFailing(_) => false
      case _ => true
  }

  lemma NextKeepsLoaded(x: World, e: Event, w: nat)
    requires Inv(x) && LoadedOk(x, w)
    ensures LoadedOk(Next(x, e), w)
  {
    if CallOf(x, e).Some? && w in x.workers && x.workers[w].Loaded? {
      StepOnRecord(x.store, CallOf(x, e).value, x.workers[w].id);
    }
  }

  lemma {:induction false} RunKeepsLoaded(x: World, events: seq<Event>)
    requires Inv(x) && forall w :: LoadedOk(x, w)
    ensures forall w :: LoadedOk(Run(x, events), w)
    decreases |events|
  {
    if events != [] {
      NextKeepsInv(x, events[0]);
      forall w ensures LoadedOk(Next(x, events[0]), w) {
        NextKeepsLoaded(x, events[0], w);
      }
      RunKeepsLoaded(Next(x, events[0]), events[1..]);
    }
  }

  /** A worker fails only the task it holds: every Fail of a run is a late one or comes from the worker whose
      attempt is open. */
  lemma WorkersFailTheirOwn(events: seq<Event>, e: Event)
    requires var x := Run(Initial, events); CallOf(x, e).Some? && CallOf(x, e).value.Fail?
    ensures e.LateFail? || Open(Run(Initial, events), e.w, CallOf(Run(Initial, events), e).value.id)
  {
    InitialInv();
    RunKeepsLoaded(Initial, events);
    assert e.GiveUp? ==> LoadedOk(Run(Initial, events), e.w);
  }

  /** The decision after a failed execution, in every reachable world and in terms of the stored record: it is a
      Retry if and only if the error is retriable, no blocker was found, and the record allows retries and has an
      attempt left; otherwise it is the Fail with this error and evidence. */
  lemma RetriedIff(events: seq<Event>, w: nat, nodeId: string, error: string, retriable: bool, evidence: Evidence,
                   retryAt: int, now: int)
    requires var x := Run(Initial, events); w in x.workers && x.workers[w].Executing?
    ensures var x := Run(Initial, events);
      var id := x.workers[w].copy.id;
      var call := CallOf(x, ExecutionFailed(w, nodeId, error, retriable, evidence, retryAt, now));
      && id in x.store.items
      && (call == Some(Retry(id, retryAt, error, now)) <==>
            && retriable && TrimSpace(evidence.blocker.kind) == ""
            && x.store.items[id].maxRetries > 0 && x.store.items[id].attempt <= x.store.items[id].maxRetries)
      && (call == Some(Retry(id, retryAt, error, now)) ||
            call == Some(Fail(id, nodeId, now, error, evidence.page, evidence.blocker, evidence.trace, now)))
  {
    InitialInv();
    RunKeepsInv(Initial, events);
    assert CopyOk(Run(Initial, events), w);
  }

  /** What becomes of the record: after a failed execution it waits in the queue with its retry time when it is
      retried, and is failed with the error and the evidence when it is not, unless it was canceled. The worker is
      idle then; only when its Retry was rejected does it still owe a Fail, which changes nothing. */
  lemma AfterFailedExecution(events: seq<Event>, w: nat, nodeId: string, error: string, retriable: bool,
                             evidence: Evidence, retryAt: int, now: int)
    requires var x := Run(Initial, events); w in x.workers && x.workers[w].Executing?
    requires retryAt != 0 && now != 0
    ensures var x := Run(Initial, events);
      var id := x.workers[w].copy.id;
      var e := ExecutionFailed(w, nodeId, error, retriable, evidence, retryAt, now);
      var y, retried := Next(x, e), CallOf(x, e).Some? && CallOf(x, e).value.Retry?;
      && id in x.store.items && id in y.store.items
      && var t, u := x.store.items[id], y.store.items[id];
        && (t.status == Canceled ==> u == t)
        && (t.status != Canceled && retried ==>
              u.status == Queued && u.nextRetryAt == Some(retryAt) && u.errorMessage == error)
        && (t.status != Canceled && !retried ==>
              && u.status == Failed && u.errorMessage == error && u.nodeId == nodeId && u.page == evidence.page
              && u.blocker == evidence.blocker && u.trace == evidence.trace && u.completedAt == Some(now))
        && (if t.status == Canceled && retried then y.workers == x.workers[w := Closing(id)]
            else y.workers == x.workers - {w})
  {
    RetriedIff(events, w, nodeId, error, retriable, evidence, retryAt, now);
  }

  /** A successful execution completes the record with its page and trace unless it was canceled; the worker is idle
      then. */
  lemma AfterSuccess(events: seq<Event>, w: nat, nodeId: string, page: Page, trace: seq<StepTrace>, now: int)
    requires var x := Run(Initial, events); w in x.workers && x.workers[w].Executing?
    requires now != 0
    ensures var x := Run(Initial, events);
      var id, y := x.workers[w].copy.id, Next(x, Succeeded(w, nodeId, page, trace, now));
      && id in x.store.items && id in y.store.items && y.workers == x.workers - {w}
      && var t, u := x.store.items[id], y.store.items[id];
        && (t.status == Canceled ==> u == t)
        && (t.status != Canceled ==>
              && u.status == Completed && u.nodeId == nodeId && u.page == page && u.trace == trace
              && u.errorMessage == "" && u.completedAt == Some(now))
  {
    InitialInv();
    RunKeepsInv(Initial, events);
    assert CopyOk(Run(Initial, events), w);
  }

  /** A blocked execution fails the record with its evidence unless it was canceled; the worker is idle then. */
  lemma AfterBlocked(events: seq<Event>, w: nat, nodeId: string, error: string, evidence: Evidence, now: int)
    requires var x := Run(Initial, events); w in x.workers && x.workers[w].Executing?
    requires now != 0
    ensures var x := Run(Initial, events);
      var id, y := x.workers[w].copy.id, Next(x, Blocked(w, nodeId, error, evidence, now));
      && id in x.store.items && id in y.store.items && y.workers == x.workers - {w}
      && var t, u := x.store.items[id], y.store.items[id];
        && (t.status == Canceled ==> u == t)
        && (t.status != Canceled ==>
              && u.status == Failed && u.nodeId == nodeId && u.errorMessage == error && u.page == evidence.page
              && u.blocker == evidence.blocker && u.trace == evidence.trace && u.completedAt == Some(now))
  {
    InitialInv();
    RunKeepsInv(Initial, events);
    assert CopyOk(Run(Initial, events), w);
  }

  /** A worker takes on a task exactly when it is idle and the task is queued; looking at it changes nothing else. */
  lemma LoadMeaning(x: World, w: nat, id: string)
    ensures var y := Next(x, Load(w, id));
      && y.store == x.store
      && (w !in x.workers && id in x.store.items && x.store.items[id].status == Queued ==>
            y.workers == x.workers[w := Loaded(id)])
      && (!(w !in x.workers && id in x.store.items && x.store.items[id].status == Queued) ==> y.workers == x.workers)
  {
  }

  /** A cancel of the API cancels a queued or running task and no other; it touches no worker. */
  lemma CancelMeaning(x: World, id: string, reason: string, now: int)
    ensures var y := Next(x, ApiCancel(id, reason, now));
      && y.workers == x.workers
      && (id in x.store.items && x.store.items[id].status in {Queued, Running} ==>
            id in y.store.items && y.store.items[id].status == Canceled)
      && (!(id in x.store.items && x.store.items[id].status in {Queued, Running}) ==> y.store == x.store)
  {
  }

  /** A late Fail fails any task that is not canceled; it touches no worker. */
  lemma LateFailMeaning(x: World, id: string, error: string, now: int)
    ensures var y := Next(x, LateFail(id, error, now));
      && y.workers == x.workers
      && (id in x.store.items && x.store.items[id].status != Canceled ==>
            id in y.store.items && y.store.items[id].status == Failed && y.store.items[id].errorMessage == error)
      && (!(id in x.store.items && x.store.items[id].status != Canceled) ==> y.store == x.store)
  {
  }

  /** A create adds one queued task; it touches no other and no worker. */
  lemma CreateAddsOne(x: World, input: CreateInput, now: int)
    requires StoreOk(x.store) && CreateError(input) == None
    ensures var y, id := Next(x, ApiCreate(input, now)), TaskId(x.store.counter + 1);
      && y.workers == x.workers && id !in x.store.items
      && id in y.store.items && y.store.items == x.store.items[id := y.store.items[id]]
      && y.store.items[id].status == Queued
  {
    assert RecordOk(x.store, TaskId(x.store.counter + 1));
    FreshId(x.store);
  }
}
