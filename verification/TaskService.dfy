/** The in-memory task store (internal/task/service.go): every operation is atomic under one lock. */
module TaskService {
  import opened Text
  import opened Wrappers
  import opened Sequences

  datatype Status = Queued | Running | Completed | Failed | Canceled

  datatype Action = Action(kind: string, selector: string, text: string, pixels: int, timeoutMs: int, delayMs: int)

  datatype StepTrace = StepTrace(index: int, action: Action, status: string, error: string, outputText: string)

  /** What a run of the task left behind on the page it ended on. */
  datatype Page = Page(title: string, finalUrl: string, screenshotBase64: string, screenshotUrl: string)

  datatype Blocker = Blocker(kind: string, message: string)

  const NoPage := Page("", "", "", "")
  const NoBlocker := Blocker("", "")

  /** Times are integers; 0 is Go's zero time. */
  datatype Task = Task(
    id: string, sourceId: string, sessionId: string, url: string, goal: string, actions: seq<Action>,
    trace: seq<StepTrace>, outputs: seq<string>, status: Status, attempt: int, maxRetries: int,
    nextRetryAt: Option<int>, nodeId: string, page: Page, blocker: Blocker, errorMessage: string,
    createdAt: int, startedAt: Option<int>, completedAt: Option<int>)

  datatype Error =
    | NotFound | NotQueued | NotCancelable
    | SessionRequired | UrlRequired | GoalRequired | NegativeRetries

  datatype Reply = Ok(task: Task) | Err(error: Error)

  datatype CreateInput = CreateInput(
    sourceId: string, sessionId: string, url: string, goal: string, actions: seq<Action>, maxRetries: int)

  /** The state-changing calls, with their inputs. `now` is the clock reading of the call. */
  datatype Call =
    | Create(input: CreateInput, now: int)
    | Start(id: string, nodeId: string, at: int, now: int)
    | Retry(id: string, retryAt: int, lastError: string, now: int)
    | Complete(id: string, nodeId: string, at: int, page: Page, trace: seq<StepTrace>, now: int)
    | Fail(id: string, nodeId: string, at: int, error: string, page: Page, blocker: Blocker,
           trace: seq<StepTrace>, now: int)
    | Cancel(id: string, at: int, reason: string, now: int)

  datatype Store = Store(counter: nat, items: map<string, Task>)

  const Empty := Store(0, map[])

  function TaskId(n: nat): string {
    "task_" + Pad6(n)
  }

  function NormalizeTime(t: int, now: int): int {
    if t == 0 then now else t
  }

  // ---------------------------------------------------------------- extracted outputs

  function NonBlank(trace: seq<StepTrace>): seq<string> {
    if trace == [] then []
    else
      var rest, last := NonBlank(trace[..|trace| - 1]), TrimSpace(trace[|trace| - 1].outputText);
      if last == "" then rest else rest + [last]
  }

  /** First occurrences, in order. */
  function Distinct(values: seq<string>): seq<string> {
    if values == [] then []
    else
      var rest, last := Distinct(values[..|values| - 1]), values[|values| - 1];
      if last in rest then rest else rest + [last]
  }

  function Take(values: seq<string>, n: nat): seq<string> {
    if |values| <= n then values else values[..n]
  }

  const MaxOutputs: nat := 20

  /** What ExtractedOutputs means: the first twenty distinct non-blank trimmed outputs of the trace. */
  function Outputs(trace: seq<StepTrace>): seq<string> {
    Take(Distinct(NonBlank(trace)), MaxOutputs)
  }

  predicate NoRepeats(d: seq<string>) {
    forall i, j :: 0 <= i < j < |d| ==> d[i] != d[j]
  }

  lemma NoRepeatsAppend(d: seq<string>, v: string)
    requires NoRepeats(d)
    ensures v !in d ==> NoRepeats(d + [v])
  {
  }

  lemma {:induction false} DistinctHasNoRepeats(values: seq<string>)
    ensures NoRepeats(Distinct(values))
    ensures forall v :: v in Distinct(values) <==> v in values
  {
    if values != [] {
      DistinctHasNoRepeats(values[..|values| - 1]);
      var rest, last := Distinct(values[..|values| - 1]), values[|values| - 1];
      assert values == values[..|values| - 1] + [last];
      NoRepeatsAppend(rest, last);
    }
  }

  lemma OutputsStep(trace: seq<StepTrace>, i: nat)
    requires i < |trace|
    ensures var before, value := Distinct(NonBlank(trace[..i])), TrimSpace(trace[i].outputText);
      Distinct(NonBlank(trace[..i + 1])) == if value == "" || value in before then before else before + [value]
  {
    var upTo := trace[..i + 1];
    assert upTo[..|upTo| - 1] == trace[..i];
    var rest, value := NonBlank(trace[..i]), TrimSpace(trace[i].outputText);
    if value != "" {
      assert NonBlank(upTo) == rest + [value];
      assert (rest + [value])[..|rest + [value]| - 1] == rest;
    }
  }

  lemma {:induction false} OutputsPrefix(trace: seq<StepTrace>, n: nat)
    requires n <= |trace|
    ensures Distinct(NonBlank(trace[..n])) <= Distinct(NonBlank(trace))
    decreases |trace| - n
  {
    if n == |trace| {
      assert trace[..n] == trace;
    } else {
      OutputsPrefix(trace, n + 1);
      OutputsGrow(trace, n);
      PrefixOfPrefix(Distinct(NonBlank(trace[..n])), Distinct(NonBlank(trace[..n + 1])), Distinct(NonBlank(trace)));
    }
  }

  lemma OutputsGrow(trace: seq<StepTrace>, n: nat)
    requires n < |trace|
    ensures Distinct(NonBlank(trace[..n])) <= Distinct(NonBlank(trace[..n + 1]))
  {
    OutputsStep(trace, n);
  }

  lemma PrefixOfPrefix(a: seq<string>, b: seq<string>, c: seq<string>)
    requires a <= b && b <= c
    ensures a <= c
  {
  }

  /** The trimmed outputs of the steps. */
  function Trims(trace: seq<StepTrace>): (t: seq<string>)
    ensures |t| == |trace|
  {
    if trace == [] then [] else Trims(trace[..|trace| - 1]) + [TrimSpace(trace[|trace| - 1].outputText)]
  }

  lemma {:induction false} TrimsAt(trace: seq<StepTrace>, i: nat)
    requires i < |trace|
    ensures Trims(trace)[i] == TrimSpace(trace[i].outputText)
    decreases |trace|
  {
    if i < |trace| - 1 {
      TrimsAt(trace[..|trace| - 1], i);
    }
  }

  /** Every element of `d` is not blank, occurs in `t`, and only after the elements before it. */
  ghost predicate InOrderOf(t: seq<string>, d: seq<string>) {
    && (forall k :: 0 <= k < |d| ==> d[k] != "" && d[k] in t)
    && (forall a, b, i :: 0 <= a < b < |d| && 0 <= i < |t| && t[i] == d[b] ==> d[a] in t[..i])
  }

  ghost predicate Covers(t: seq<string>, d: seq<string>) {
    forall v :: v in t && v != "" ==> v in d
  }

  lemma OrderAppend(t: seq<string>, v: string, d: seq<string>)
    requires InOrderOf(t, d) && Covers(t, d)
    ensures InOrderOf(t + [v], if v == "" || v in d then d else d + [v])
  {
    var longer := t + [v];
    var d' := if v == "" || v in d then d else d + [v];
    forall a, b, i | 0 <= a < b < |d'| && 0 <= i < |longer| && longer[i] == d'[b] ensures d'[a] in longer[..i] {
      if i < |t| {
        assert longer[..i] == t[..i] && t[i] in d;
      } else {
        assert longer[..i] == t;
      }
    }
  }

  lemma CoverAppend(t: seq<string>, v: string, d: seq<string>)
    requires Covers(t, d)
    ensures Covers(t + [v], if v == "" || v in d then d else d + [v])
  {
  }

  lemma {:induction false} DistinctOutputs(trace: seq<StepTrace>)
    ensures var t, d := Trims(trace), Distinct(NonBlank(trace));
      InOrderOf(t, d) && Covers(t, d)
  {
    if trace != [] {
      var n := |trace| - 1;
      DistinctOutputs(trace[..n]);
      OutputsStep(trace, n);
      assert trace[..n + 1] == trace;
      var t, d, v := Trims(trace[..n]), Distinct(NonBlank(trace[..n])), TrimSpace(trace[n].outputText);
      OrderAppend(t, v, d);
      CoverAppend(t, v, d);
    }
  }

  lemma OrderOfTwenty(t: seq<string>, d: seq<string>, i: nat)
    requires InOrderOf(t, d) && Covers(t, d) && i < |t| && t[i] != "" && t[i] !in Take(d, 20)
    ensures |d| > 20 && forall k :: 0 <= k < 20 ==> d[k] in t[..i]
  {
    assert t[i] in d;
    var b :| 0 <= b < |d| && d[b] == t[i];
    TakeHas(d, b);
  }

  lemma TakeHas(d: seq<string>, b: nat)
    requires b < |d|
    ensures b < 20 || |d| <= 20 ==> d[b] in Take(d, 20)
  {
    assert forall k :: 0 <= k < |Take(d, 20)| ==> Take(d, 20)[k] == d[k];
  }

  lemma TakeKeepsOrder(t: seq<string>, d: seq<string>)
    requires InOrderOf(t, d) && NoRepeats(d)
    ensures InOrderOf(t, Take(d, 20)) && NoRepeats(Take(d, 20))
  {
  }

  /** The outputs of a trace: no repeats, each the non-blank trimmed output of some step, in the order of their first
      occurrences, at most twenty; a non-blank output that is not among them comes after twenty others. */
  lemma OutputsMeaning(trace: seq<StepTrace>)
    ensures var t, o := Trims(trace), Outputs(trace);
      && NoRepeats(o) && |o| <= 20 && InOrderOf(t, o)
      && forall i :: 0 <= i < |t| && t[i] != "" && t[i] !in o ==>
           |o| == 20 && forall k :: 0 <= k < 20 ==> o[k] in t[..i]
  {
    DistinctOutputs(trace);
    DistinctHasNoRepeats(NonBlank(trace));
    var t, d, o := Trims(trace), Distinct(NonBlank(trace)), Outputs(trace);
    TakeKeepsOrder(t, d);
    forall i | 0 <= i < |t| && t[i] != "" && t[i] !in o
      ensures |o| == 20 && forall k :: 0 <= k < 20 ==> o[k] in t[..i]
    {
      OrderOfTwenty(t, d, i);
    }
  }

  /** The loop may stop at the end of the trace or with the twentieth output. */
  lemma OutputsAreComplete(trace: seq<StepTrace>, n: nat, outputs: seq<string>)
    requires n <= |trace| && outputs == Distinct(NonBlank(trace[..n])) && |outputs| <= MaxOutputs
    requires n == |trace| || |outputs| == MaxOutputs
    ensures outputs == Outputs(trace)
  {
    OutputsPrefix(trace, n);
    assert trace[..|trace|] == trace;
  }

  /** The loop of the source: one pass, a seen-set, and an exit at the twentieth output. */
  method DeriveExtractedOutputs(trace: seq<StepTrace>) returns (outputs: seq<string>)
    ensures outputs == Outputs(trace)
  {
    outputs := [];
    var seen: set<string> := {};
    for i := 0 to |trace|
      invariant outputs == Distinct(NonBlank(trace[..i])) && |outputs| < MaxOutputs
      invariant seen == Elements(outputs)
    {
      OutputsStep(trace, i);
      var value := TrimSpace(trace[i].outputText);
      if value != "" && value !in seen {
        ElementsAppend(outputs, value);
        seen := seen + {value};
        outputs := outputs + [value];
        if |outputs| >= MaxOutputs {
          OutputsAreComplete(trace, i + 1, outputs);
          return;
        }
      }
    }
    OutputsAreComplete(trace, |trace|, outputs);
  }

  // ---------------------------------------------------------------- the record transitions

  function Created(n: nat, input: CreateInput, now: int): Task {
    Task(TaskId(n), input.sourceId, input.sessionId, input.url, input.goal, input.actions, [], [], Queued, 0,
         input.maxRetries, None, "", NoPage, NoBlocker, "", now, None, None)
  }

  function CreateError(input: CreateInput): Option<Error> {
    if input.sessionId == "" then Some(SessionRequired)
    else if input.url == "" then Some(UrlRequired)
    else if input.goal == "" && input.actions == [] then Some(GoalRequired)
    else if input.maxRetries < 0 then Some(NegativeRetries)
    else None
  }

  /** Which error, if any, a call on an existing record of status `s` gets. */
  function Rejection(s: Status, call: Call): Option<Error>
    requires !call.Create?
  {
    match call
    case Start(_, _, _, _) => if s == Queued then None else Some(NotQueued)
    case Cancel(_, _, _, _) => if s == Queued || s == Running then None else Some(NotCancelable)
    case _ => if s == Canceled then Some(NotCancelable) else None
  }

  function CancelMessage(reason: string): string {
    if TrimSpace(reason) == "" then "task canceled" else TrimSpace(reason)
  }

  /** The record after an accepted call. */
  function Updated(t: Task, call: Call): Task
    requires !call.Create?
  {
    match call
    case Start(_, nodeId, at, now) =>
      t.(status := Running, attempt := t.attempt + 1, nodeId := nodeId, startedAt := Some(NormalizeTime(at, now)),
         nextRetryAt := None, errorMessage := "", blocker := NoBlocker, trace := [], outputs := [])
    case Retry(_, retryAt, lastError, now) =>
      t.(status := Queued, nodeId := "", nextRetryAt := Some(NormalizeTime(retryAt, now)), errorMessage := lastError,
         blocker := NoBlocker, trace := [], outputs := [])
    case Complete(_, nodeId, at, page, trace, now) =>
      t.(status := Completed, nodeId := nodeId, page := page, blocker := NoBlocker, errorMessage := "",
         nextRetryAt := None, trace := trace, outputs := Outputs(trace), completedAt := Some(NormalizeTime(at, now)))
    case Fail(_, nodeId, at, error, page, blocker, trace, now) =>
      t.(status := Failed, nodeId := nodeId, page := page, blocker := blocker, errorMessage := error,
         nextRetryAt := None, trace := trace, outputs := Outputs(trace), completedAt := Some(NormalizeTime(at, now)))
    case Cancel(_, at, reason, now) =>
      t.(status := Canceled, nodeId := "", nextRetryAt := None, blocker := NoBlocker,
         errorMessage := CancelMessage(reason),
         completedAt := Some(NormalizeTime(at, now)))
  }

  /** One atomic call on the whole store. */
  function Step(s: Store, call: Call): (Store, Reply) {
    if call.Create? then
      var error := CreateError(call.input);
      if error.Some? then (s, Err(error.value))
      else
        var t := Created(s.counter + 1, call.input, call.now);
        (Store(s.counter + 1, s.items[t.id := t]), Ok(t))
    else if call.id !in s.items then (s, Err(NotFound))
    else
      var t := s.items[call.id];
      var error := Rejection(t.status, call);
      if error.Some? then (s, Err(error.value))
      else (s.(items := s.items[call.id := Updated(t, call)]), Ok(Updated(t, call)))
  }

  // ---------------------------------------------------------------- the service object

  class InMemoryService {
    var counter: nat
    var items: map<string, Task>

    constructor ()
      ensures State() == Empty
    {
      counter := 0;
      items := map[];
    }

    function State(): Store
      reads this
    {
      Store(counter, items)
    }

    method CreateTask(input: CreateInput, now: int) returns (reply: Reply)
      modifies this
      ensures (State(), reply) == Step(old(State()), Create(input, now))
    {
      if input.sessionId == "" {
        return Err(SessionRequired);
      }
      if input.url == "" {
        return Err(UrlRequired);
      }
      if input.goal == "" && |input.actions| == 0 {
        return Err(GoalRequired);
      }
      if input.maxRetries < 0 {
        return Err(NegativeRetries);
      }
      counter := counter + 1;
      var id := "task_" + Pad6(counter);
      var created := Task(id, input.sourceId, input.sessionId, input.url, input.goal, input.actions, [], [], Queued, 0,
                          input.maxRetries, None, "", NoPage, NoBlocker, "", now, None, None);
      items := items[id := created];
      reply := Ok(created);
    }

    method StartTask(id: string, nodeId: string, at: int, now: int) returns (reply: Reply)
      modifies this
      ensures (State(), reply) == Step(old(State()), Start(id, nodeId, at, now))
    {
      if id !in items {
        return Err(NotFound);
      }
      var task := items[id];
      if task.status != Queued {
        return Err(NotQueued);
      }
      task := task.(status := Running, attempt := task.attempt + 1, nodeId := nodeId);
      task := task.(startedAt := Some(NormalizeTime(at, now)), nextRetryAt := None, errorMessage := "");
      task := task.(blocker := NoBlocker, trace := [], outputs := []);
      items := items[id := task];
      reply := Ok(task);
    }

    method RetryTask(id: string, retryAt: int, lastError: string, now: int) returns (reply: Reply)
      modifies this
      ensures (State(), reply) == Step(old(State()), Retry(id, retryAt, lastError, now))
    {
      if id !in items {
        return Err(NotFound);
      }
      var task := items[id];
      if task.status == Canceled {
        return Err(NotCancelable);
      }
      task := task.(status := Queued, nodeId := "", nextRetryAt := Some(NormalizeTime(retryAt, now)));
      task := task.(errorMessage := lastError, blocker := NoBlocker, trace := [], outputs := []);
      items := items[id := task];
      reply := Ok(task);
    }

    method CompleteTask(id: string, nodeId: string, at: int, page: Page, trace: seq<StepTrace>, now: int)
      returns (reply: Reply)
      modifies this
      ensures (State(), reply) == Step(old(State()), Complete(id, nodeId, at, page, trace, now))
    {
      if id !in items {
        return Err(NotFound);
      }
      var task := items[id];
      if task.status == Canceled {
        return Err(NotCancelable);
      }
      var outputs := DeriveExtractedOutputs(trace);
      task := task.(status := Completed, nodeId := nodeId, page := page, blocker := NoBlocker, errorMessage := "");
      task := task.(nextRetryAt := None, trace := trace, outputs := outputs,
                    completedAt := Some(NormalizeTime(at, now)));
      items := items[id := task];
      reply := Ok(task);
    }

    method FailTask(id: string, nodeId: string, at: int, error: string, page: Page, blocker: Blocker,
                    trace: seq<StepTrace>, now: int)
      returns (reply: Reply)
      modifies this
      ensures (State(), reply) == Step(old(State()), Fail(id, nodeId, at, error, page, blocker, trace, now))
    {
      if id !in items {
        return Err(NotFound);
      }
      var task := items[id];
      if task.status == Canceled {
        return Err(NotCancelable);
      }
      var outputs := DeriveExtractedOutputs(trace);
      task := task.(status := Failed, nodeId := nodeId, page := page, blocker := blocker, errorMessage := error);
      task := task.(nextRetryAt := None, trace := trace, outputs := outputs,
                    completedAt := Some(NormalizeTime(at, now)));
      items := items[id := task];
      reply := Ok(task);
    }

    method WhyCanceled(reason: string) returns (why: string)
      ensures why == CancelMessage(reason)
    {
      why := TrimSpace(reason);
      if why == "" {
        why := "task canceled";
      }
    }

    method CancelTask(id: string, at: int, reason: string, now: int) returns (reply: Reply)
      modifies this
      ensures (State(), reply) == Step(old(State()), Cancel(id, at, reason, now))
    {
      if id !in items {
        return Err(NotFound);
      }
      var task := items[id];
      if task.status == Completed || task.status == Failed || task.status == Canceled {
        return Err(NotCancelable);
      }
      var why := WhyCanceled(reason);
      task := task.(status := Canceled, nodeId := "", nextRetryAt := None, errorMessage := why);
      task := task.(blocker := NoBlocker, completedAt := Some(NormalizeTime(at, now)));
      items := items[id := task];
      reply := Ok(task);
    }
  }

  // ---------------------------------------------------------------- whole runs

  function Run(s: Store, calls: seq<Call>): Store
    decreases |calls|
  {
    if calls == [] then s else Run(Step(s, calls[0]).0, calls[1..])
  }

  /** How many of the calls were successful Starts of `id`. */
  function Starts(s: Store, calls: seq<Call>, id: string): nat
    decreases |calls|
  {
    if calls == [] then 0
    else
      (if calls[0].Start? && calls[0].id == id && Step(s, calls[0]).1.Ok? then 1 else 0)
      + Starts(Step(s, calls[0]).0, calls[1..], id)
  }

  /** The record is stored under its own id, issued by the counter; `nextRetryAt` only while queued;
      the cached outputs are those of the trace. */
  predicate RecordOk(s: Store, id: string) {
    id in s.items ==>
      var t := s.items[id];
      && t.id == id
      && (exists n :: 1 <= n <= s.counter && id == TaskId(n))
      && t.maxRetries >= 0
      && (t.nextRetryAt.Some? ==> t.status == Queued)
      && t.outputs == Outputs(t.trace)
  }

  ghost predicate StoreOk(s: Store) {
    forall id :: RecordOk(s, id)
  }

  lemma TaskIdInjective(m: nat, n: nat)
    requires TaskId(m) == TaskId(n)
    ensures m == n
  {
    assert TaskId(m)[5..] == Pad6(m) && TaskId(n)[5..] == Pad6(n);
    ValueOfPad6(m);
    ValueOfPad6(n);
  }

  lemma FreshId(s: Store)
    requires RecordOk(s, TaskId(s.counter + 1))
    ensures TaskId(s.counter + 1) !in s.items
  {
    if TaskId(s.counter + 1) in s.items {
      var n :| 1 <= n <= s.counter && TaskId(s.counter + 1) == TaskId(n);
      TaskIdInjective(s.counter + 1, n);
    }
  }

  lemma StepKeepsRecord(s: Store, call: Call, id: string)
    requires RecordOk(s, id)
    ensures RecordOk(Step(s, call).0, id)
  {
    assert Outputs([]) == [];
  }

  lemma {:induction false} RunKeepsStore(s: Store, calls: seq<Call>)
    requires StoreOk(s)
    ensures StoreOk(Run(s, calls))
    decreases |calls|
  {
    if calls != [] {
      forall id ensures RecordOk(Step(s, calls[0]).0, id) {
        StepKeepsRecord(s, calls[0], id);
      }
      RunKeepsStore(Step(s, calls[0]).0, calls[1..]);
    }
  }

  /** Over every run from the empty store: `NextRetryAt` is set only while the task is queued, and the
      cached outputs are exactly those recomputed from the stored trace. */
  lemma RecordInvariants(calls: seq<Call>, id: string)
    ensures var s := Run(Empty, calls);
      id in s.items ==>
        && (s.items[id].nextRetryAt.Some? ==> s.items[id].status == Queued)
        && s.items[id].outputs == Outputs(s.items[id].trace)
  {
    RunKeepsStore(Empty, calls);
    assert RecordOk(Run(Empty, calls), id);
  }

  lemma StepOnRecord(s: Store, call: Call, id: string)
    requires StoreOk(s) && id in s.items
    ensures var v := Step(s, call).0;
      && id in v.items
      && (s.items[id].status == Canceled ==> v.items[id] == s.items[id])
      && v.items[id].attempt == s.items[id].attempt
           + (if call.Start? && call.id == id && Step(s, call).1.Ok? then 1 else 0)
      && v.items[id].sourceId == s.items[id].sourceId && v.items[id].maxRetries == s.items[id].maxRetries
  {
    assert RecordOk(s, TaskId(s.counter + 1));
    FreshId(s);
  }

  /** Only Canceled is final: from any reachable store, no run changes or restarts a canceled record.
      Records are never removed. */
  lemma {:induction false} CanceledIsAbsorbing(s: Store, calls: seq<Call>, id: string)
    requires StoreOk(s) && id in s.items
    ensures id in Run(s, calls).items
    ensures s.items[id].status == Canceled ==> Run(s, calls).items[id] == s.items[id] && Starts(s, calls, id) == 0
    ensures Run(s, calls).items[id].sourceId == s.items[id].sourceId
    ensures Run(s, calls).items[id].maxRetries == s.items[id].maxRetries
    decreases |calls|
  {
    if calls != [] {
      StepOnRecord(s, calls[0], id);
      RunKeepsStore(s, calls[..1]);
      assert Run(s, calls[..1]) == Step(s, calls[0]).0 by {
        assert calls[..1][0] == calls[0] && calls[..1][1..] == [];
      }
      CanceledIsAbsorbing(Step(s, calls[0]).0, calls[1..], id);
    }
  }

  /** A record's attempt is the number of successful Starts it went through. */
  lemma {:induction false} AttemptCountsStarts(s: Store, calls: seq<Call>, id: string)
    requires StoreOk(s)
    ensures id in Run(s, calls).items ==>
      Run(s, calls).items[id].attempt == (if id in s.items then s.items[id].attempt else 0) + Starts(s, calls, id)
    decreases |calls|
  {
    if calls != [] {
      var v := Step(s, calls[0]).0;
      forall i ensures RecordOk(v, i) {
        StepKeepsRecord(s, calls[0], i);
      }
      if id in s.items {
        StepOnRecord(s, calls[0], id);
      }
      AttemptCountsStarts(v, calls[1..], id);
    }
  }

  /** What the store lets a late client do: Retry and Start restart a record exactly unless it is canceled.
      Completed and Failed are not final in the store. */
  lemma RestartAcceptedIff(s: Store, id: string, now: int)
    requires id in s.items
    ensures var again := [Retry(id, now, "late", now), Start(id, "", now, now)];
      && (Starts(s, again, id) == 1 <==> s.items[id].status != Canceled)
      && id in Run(s, again).items
      && (s.items[id].status != Canceled ==> Run(s, again).items[id].status == Running)
  {
    var again := [Retry(id, now, "late", now), Start(id, "", now, now)];
    var v := Step(s, again[0]).0;
    assert again[1..][0] == again[1] && again[1..][1..] == [];
    assert Run(v, again[1..]) == Run(Step(v, again[1]).0, []);
    assert Starts(v, again[1..], id) ==
      (if Step(v, again[1]).1.Ok? then 1 else 0) + Starts(Step(v, again[1]).0, [], id);
  }

  // ---------------------------------------------------------------- what a call records

  /** A created record carries its input and waits in the queue; the argument errors, in order. */
  lemma CreateMeaning(s: Store, input: CreateInput, now: int)
    ensures var (v, reply) := Step(s, Create(input, now));
      if input.sessionId == "" then v == s && reply == Err(SessionRequired)
      else if input.url == "" then v == s && reply == Err(UrlRequired)
      else if input.goal == "" && input.actions == [] then v == s && reply == Err(GoalRequired)
      else if input.maxRetries < 0 then v == s && reply == Err(NegativeRetries)
      else
        && reply.Ok? && reply.task.id == "task_" + Pad6(s.counter + 1)
        && v.counter == s.counter + 1 && v.items == s.items[reply.task.id := reply.task]
        && var t := reply.task;
          && t.sourceId == input.sourceId && t.sessionId == input.sessionId && t.url == input.url
          && t.goal == input.goal && t.actions == input.actions && t.maxRetries == input.maxRetries
          && t.status == Queued && t.attempt == 0 && t.createdAt == now
          && t.nextRetryAt == None && t.startedAt == None && t.completedAt == None && t.nodeId == ""
          && t.trace == [] && t.outputs == [] && t.page == NoPage && t.blocker == NoBlocker && t.errorMessage == ""
  {
  }

  /** The time an accepted call records is the one it was given, or the clock when that is the zero time. */
  lemma TimeOfCall(s: Store, call: Call)
    requires !call.Create? && Step(s, call).1.Ok?
    ensures var given := if call.Retry? then call.retryAt else call.at;
      var time := Some(if given == 0 then call.now else given);
      match call
      case Start(_, _, _, _) => Step(s, call).1.task.startedAt == time
      case Retry(_, _, _, _) => Step(s, call).1.task.nextRetryAt == time
      case _ => Step(s, call).1.task.completedAt == time
  {
  }

  /** Which calls the store accepts, by the status of the record. */
  lemma AcceptedIff(s: Store, call: Call)
    requires !call.Create?
    ensures Step(s, call).1.Ok? <==>
      && call.id in s.items
      && match call
         case Start(_, _, _, _) => s.items[call.id].status == Queued
         case Cancel(_, _, _, _) => s.items[call.id].status in {Queued, Running}
         case _ => s.items[call.id].status != Canceled
    ensures Step(s, call).1 == Err(NotFound) <==> call.id !in s.items
    ensures Step(s, call).1 == Err(NotQueued) ==> call.Start?
    ensures Step(s, call).1.Err? ==> Step(s, call).0 == s
  {
  }

  /** A canceled record names the trimmed reason, or a default when that is blank, and no blocker or node. */
  lemma CancelRecords(s: Store, id: string, at: int, reason: string, now: int)
    requires Step(s, Cancel(id, at, reason, now)).1.Ok?
    ensures var t := Step(s, Cancel(id, at, reason, now)).1.task;
      && t.status == Canceled && t.blocker == NoBlocker && t.nodeId == "" && t.nextRetryAt == None
      && t.errorMessage != ""
      && (TrimSpace(reason) != "" ==> t.errorMessage == TrimSpace(reason))
      && (TrimSpace(reason) == "" ==> t.errorMessage == "task canceled")
  {
  }
}
