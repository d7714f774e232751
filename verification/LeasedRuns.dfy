/** Workers and their node leases together (internal/taskrunner/runner.go, processTask): between Start and the
    closing call a worker takes a node, renews its lease and gives the node back when it is done. The store
    does not know about leases, and a successful execution is reported without a look at the lease. */
module LeasedRuns {
  import opened TaskService
  import opened Wrappers
  import TaskRunner
  import Lease

  /** `tokens` are the lease tokens of the workers that have a node. */
  datatype World = World(tasks: TaskRunner.World, leases: Lease.World, tokens: map<nat, nat>)

  const Initial := World(TaskRunner.Initial, Lease.Start, map[])

  datatype Event =
    | Work(e: TaskRunner.Event)
    | Tick(to: int)
    | Take(w: nat, r: string, o: string, ttl: int, reading: int)
    | KeepAlive(w: nat, ttl: int, reading: int)
    | GiveBack(w: nat)

  predicate Executing(x: World, w: nat) {
    w in x.tasks.workers && x.tasks.workers[w].Executing?
  }

  /** The worker has a lease on the node `r`. */
  predicate OnNode(x: World, w: nat, r: string) {
    w in x.tokens && x.tokens[w] in x.leases.holdings && x.leases.holdings[x.tokens[w]].resource == r
  }

  /** A worker takes a node while it executes, reports success from a node only, and gives the node back when its
      closing call is done, before it takes the next task. No clock reading comes from the future. */
  predicate Enabled(x: World, e: Event) {
    match e
    case Work(t) => (t.Load? ==> t.w !in x.tokens) && (t.Succeeded? ==> t.w in x.tokens)
    case Tick(to) => x.leases.clock <= to
    case Take(w, _, _, _, reading) => Executing(x, w) && w !in x.tokens && reading <= x.leases.clock
    case KeepAlive(w, _, reading) => w in x.tokens && reading <= x.leases.clock
    case GiveBack(w) => w in x.tokens && w !in x.tasks.workers
  }

  /** What the event does to the leases. */
  function OpOf(x: World, e: Event): Option<Lease.Op> {
    match e
    case Tick(to) => Some(Lease.Tick(to))
    case Take(_, r, o, ttl, reading) => Some(Lease.Acquire(r, o, ttl, reading))
    case KeepAlive(w, ttl, reading) =>
      if w in x.tokens && x.tokens[w] in x.leases.holdings then
        var h := x.leases.holdings[x.tokens[w]];
        Some(Lease.Renew(h.resource, h.owner, x.tokens[w], ttl, reading))
      else None
    case GiveBack(w) =>
      if w in x.tokens && x.tokens[w] in x.leases.holdings then
        var h := x.leases.holdings[x.tokens[w]];
        Some(Lease.Release(h.resource, h.owner, x.tokens[w]))
      else None
    case Work(_) => None
  }

  function TokensNext(x: World, e: Event): map<nat, nat> {
    match e
    case Take(w, r, o, ttl, reading) =>
      var out := Lease.OutcomeOf(x.leases, Lease.Acquire(r, o, ttl, reading));
      if out.Granted? then x.tokens[w := out.token] else x.tokens
    case GiveBack(w) => x.tokens - {w}
    case _ => x.tokens
  }

  function Next(x: World, e: Event): World {
    var op := OpOf(x, e);
    World(if e.Work? then TaskRunner.Next(x.tasks, e.e) else x.tasks,
          if op.Some? then Lease.Next(x.leases, op.value) else x.leases,
          TokensNext(x, e))
  }

  predicate Valid(x: World, events: seq<Event>)
    decreases |events|
  {
    events != [] ==> Enabled(x, events[0]) && Valid(Next(x, events[0]), events[1..])
  }

  function Run(x: World, events: seq<Event>): World
    decreases |events|
  {
    if events == [] then x else Run(Next(x, events[0]), events[1..])
  }

  ghost predicate Reachable(x: World) {
    exists events :: Valid(Initial, events) && Run(Initial, events) == x
  }

  // ---------------------------------------------------------------- the invariant

  /** Every worker's token is of a lease it has not released. */
  predicate TokenOk(x: World, w: nat) {
    w in x.tokens ==> x.tokens[w] in x.leases.holdings && !x.leases.holdings[x.tokens[w]].released
  }

  /** No two workers have one token. */
  predicate TokensDiffer(x: World, v: nat, w: nat) {
    v in x.tokens && w in x.tokens && x.tokens[v] == x.tokens[w] ==> v == w
  }

  ghost predicate Inv(x: World) {
    && TaskRunner.Inv(x.tasks) && Lease.Inv(x.leases)
    && (forall w :: TokenOk(x, w)) && (forall v, w :: TokensDiffer(x, v, w))
  }

  lemma OpIsEnabled(x: World, e: Event)
    requires Inv(x) && Enabled(x, e) && OpOf(x, e).Some?
    ensures Lease.Enabled(x.leases, OpOf(x, e).value)
  {
  }

  lemma NextKeepsToken(x: World, e: Event, w: nat)
    requires Inv(x) && Enabled(x, e)
    ensures TokenOk(Next(x, e), w)
  {
    assert TokenOk(x, w);
    if e.GiveBack? {
      assert TokenOk(x, e.w) && TokensDiffer(x, e.w, w);
    }
  }

  lemma NextKeepsDifferent(x: World, e: Event, v: nat, w: nat)
    requires Inv(x) && Enabled(x, e)
    ensures TokensDiffer(Next(x, e), v, w)
  {
    assert TokensDiffer(x, v, w) && TokenOk(x, v) && TokenOk(x, w);
  }

  lemma NextKeepsInv(x: World, e: Event)
    requires Inv(x) && Enabled(x, e)
    ensures Inv(Next(x, e))
  {
    if e.Work? {
      TaskRunner.NextKeepsInv(x.tasks, e.e);
    }
    if OpOf(x, e).Some? {
      OpIsEnabled(x, e);
      Lease.NextKeepsInv(x.leases, OpOf(x, e).value);
    }
    forall w ensures TokenOk(Next(x, e), w) {
      NextKeepsToken(x, e, w);
    }
    forall v, w ensures TokensDiffer(Next(x, e), v, w) {
      NextKeepsDifferent(x, e, v, w);
    }
  }

  lemma {:induction false} RunKeepsInv(x: World, events: seq<Event>)
    requires Inv(x) && Valid(x, events)
    ensures Inv(Run(x, events))
    decreases |events|
  {
    if events != [] {
      NextKeepsInv(x, events[0]);
      RunKeepsInv(Next(x, events[0]), events[1..]);
    }
  }

  lemma ReachableInv(x: World)
    requires Reachable(x)
    ensures Inv(x)
  {
    TaskRunner.InitialInv();
    var events :| Valid(Initial, events) && Run(Initial, events) == x;
    RunKeepsInv(Initial, events);
  }

  lemma {:induction false} RunOneMore(x: World, events: seq<Event>, e: Event)
    requires Valid(x, events) && Enabled(Run(x, events), e)
    ensures Valid(x, events + [e]) && Run(x, events + [e]) == Next(Run(x, events), e)
    decreases |events|
  {
    if events == [] {
      assert [] + [e] == [e] && [e][1..] == [];
    } else {
      RunOneMore(Next(x, events[0]), events[1..], e);
      assert (events + [e])[1..] == events[1..] + [e];
    }
  }

  lemma ReachNext(x: World, e: Event)
    requires Reachable(x) && Enabled(x, e)
    ensures Reachable(Next(x, e))
  {
    var events :| Valid(Initial, events) && Run(Initial, events) == x;
    RunOneMore(Initial, events, e);
  }

  // ---------------------------------------------------------------- results and leases

  /** The lease table names another lease, or none, for the worker's node. */
  predicate Overtaken(x: World, w: nat) {
    && w in x.tokens && x.tokens[w] in x.leases.holdings
    && var r := x.leases.holdings[x.tokens[w]].resource;
      r !in x.leases.table.entries || x.leases.table.entries[r].token != x.tokens[w]
  }

  /** In every reachable state a result is accepted exactly unless its task has been canceled, whatever has
      become of the lease of its worker. */
  lemma ResultAcceptedIff(x: World, success: TaskRunner.Event)
    requires Reachable(x) && success.Succeeded? && Executing(x, success.w)
    ensures var id := x.tasks.workers[success.w].copy.id;
      && TaskRunner.CallOf(x.tasks, success).Some? && id in x.tasks.store.items
      && (Step(x.tasks.store, TaskRunner.CallOf(x.tasks, success).value).1.Ok? <==>
          x.tasks.store.items[id].status != Canceled)
  {
    ReachableInv(x);
    assert TaskRunner.CopyOk(x.tasks, success.w);
  }

  /** The positive half, at any moment of any run: a worker whose last returned expiry is in the future is not
      overtaken, and no other such worker is on its node. */
  lemma LiveWorkersExclude(x: World, w: nat)
    requires Reachable(x) && w in x.tokens && Lease.Live(x.leases, x.tokens[w])
    ensures !Overtaken(x, w)
    ensures forall v :: v in x.tokens && v != w && Lease.Live(x.leases, x.tokens[v]) ==>
      x.leases.holdings[x.tokens[v]].resource != x.leases.holdings[x.tokens[w]].resource
  {
    ReachableInv(x);
    forall v | v in x.tokens && v != w && Lease.Live(x.leases, x.tokens[v])
      ensures x.leases.holdings[x.tokens[v]].resource != x.leases.holdings[x.tokens[w]].resource
    {
      assert TokensDiffer(x, v, w);
    }
  }

  /** The lease operations of a run, in order. */
  function Ops(x: World, events: seq<Event>): seq<Lease.Op>
    decreases |events|
  {
    if events == [] then []
    else
      var op := OpOf(x, events[0]);
      (if op.Some? then [op.value] else []) + Ops(Next(x, events[0]), events[1..])
  }

  /** Nobody new came onto the node. */
  ghost predicate NobodyNew(x: World, y: World, w: nat, r: string) {
    forall v :: v != w && OnNode(y, v, r) ==> OnNode(x, v, r)
  }

  lemma TimelyEvent(x: World, e: Event, w: nat, r: string, o: string, k: nat, ttl: int, last: int)
    requires Inv(x) && Enabled(x, e) && r != "" && o != "" && k > 0 && ttl > 0
    requires w in x.tokens && x.tokens[w] == k && Lease.Held(x.leases, r, o, k, ttl, last)
    requires OpOf(x, e).Some? ==> Lease.Timely(x.leases, [OpOf(x, e).value], r, o, k, ttl, last)
    ensures var renewed := OpOf(x, e).Some? && Lease.RenewsOwn(OpOf(x, e).value, r, o, k);
      Lease.Held(Next(x, e).leases, r, o, k, ttl, if renewed then OpOf(x, e).value.reading else last)
    ensures w in Next(x, e).tokens && Next(x, e).tokens[w] == k && NobodyNew(x, Next(x, e), w, r)
  {
    assert TokenOk(x, w);
    assert x.leases.holdings[k] == Lease.Holding(r, o, last + ttl, false);
    if OpOf(x, e).Some? {
      Lease.TimelyStep(x.leases, OpOf(x, e).value, r, o, k, ttl, last);
    }
    forall v | v != w && OnNode(Next(x, e), v, r) ensures OnNode(x, v, r) {
      assert TokenOk(x, v);
    }
  }

  lemma OpsStep(x: World, events: seq<Event>, r: string, o: string, k: nat, ttl: int, last: int)
    requires events != [] && Lease.Timely(x.leases, Ops(x, events), r, o, k, ttl, last)
    ensures var op, y := OpOf(x, events[0]), Next(x, events[0]);
      && (op.Some? ==> Lease.Timely(x.leases, [op.value], r, o, k, ttl, last))
      && Lease.Timely(y.leases, Ops(y, events[1..]), r, o, k, ttl,
                      if op.Some? && Lease.RenewsOwn(op.value, r, o, k) then op.value.reading else last)
  {
    var op, rest := OpOf(x, events[0]), Ops(Next(x, events[0]), events[1..]);
    if op.Some? {
      assert ([op.value] + rest)[1..] == rest;
      assert [op.value][1..] == [];
    } else {
      assert [] + rest == rest;
    }
  }

  /** The positive half, over time: while the renewals of worker `w` are timely, its lease is the one in the table
      (so its result is not of an overtaken worker), and no other worker comes onto its node. Workers that were on
      the node already, with expired leases, are all that can be there. */
  lemma {:induction false} TimelyWorkerKeepsItsNode(x: World, events: seq<Event>, w: nat, r: string, o: string, k: nat,
                                                    ttl: int, last: int)
    requires Inv(x) && Valid(x, events) && r != "" && o != "" && k > 0 && ttl > 0
    requires w in x.tokens && x.tokens[w] == k && Lease.Held(x.leases, r, o, k, ttl, last)
    requires Lease.Timely(x.leases, Ops(x, events), r, o, k, ttl, last)
    ensures var y := Run(x, events);
      && w in y.tokens && y.tokens[w] == k && OnNode(y, w, r) && !Overtaken(y, w)
      && NobodyNew(x, y, w, r)
    decreases |events|
  {
    if events == [] {
      assert TokenOk(x, w);
    } else {
      var y, op := Next(x, events[0]), OpOf(x, events[0]);
      OpsStep(x, events, r, o, k, ttl, last);
      TimelyEvent(x, events[0], w, r, o, k, ttl, last);
      NextKeepsInv(x, events[0]);
      var last' := if op.Some? && Lease.RenewsOwn(op.value, r, o, k) then op.value.reading else last;
      TimelyWorkerKeepsItsNode(y, events[1..], w, r, o, k, ttl, last');
    }
  }

  /** Taking a node starts such a period, when the clock is still within the lease time of the reading. */
  lemma TakeHoldsNode(x: World, w: nat, r: string, o: string, ttl: int, reading: int)
    requires Inv(x) && Enabled(x, Take(w, r, o, ttl, reading)) && ttl > 0 && x.leases.clock < reading + ttl
    requires Lease.OutcomeOf(x.leases, Lease.Acquire(r, o, ttl, reading)).Granted?
    ensures var y := Next(x, Take(w, r, o, ttl, reading));
      r != "" && o != "" && w in y.tokens && y.tokens[w] > 0 && Lease.Held(y.leases, r, o, y.tokens[w], ttl, reading)
  {
    var op := Lease.Acquire(r, o, ttl, reading);
    Lease.GrantIsHeld(x.leases, r, o, ttl, reading);
    assert OpOf(x, Take(w, r, o, ttl, reading)) == Some(op);
  }

  // ---------------------------------------------------------------- a stale result is accepted

  /** A new task of the API is created, loaded and started by the idle worker `w`. */
  lemma WorkerStarts(x: World, w: nat)
    requires Reachable(x) && w !in x.tasks.workers && w !in x.tokens
    ensures exists y :: Started(x, y, w)
  {
    ReachableInv(x);
    var id := TaskId(x.tasks.store.counter + 1);
    var create, load, begin := TaskRunner.ApiCreate(NewTask, 0), TaskRunner.Load(w, id), TaskRunner.Begin(w, 0);
    var c := ThreeSteps(x, create, load, begin);
    TaskStarts(x.tasks, w);
    assert Started(x, c, w);
  }

  /** Events of workers leave leases and tokens alone. */
  lemma ThreeSteps(x: World, create: TaskRunner.Event, load: TaskRunner.Event, begin: TaskRunner.Event)
    returns (c: World)
    requires Reachable(x) && create.ApiCreate? && load.Load? && load.w !in x.tokens && begin.Begin?
    ensures Reachable(c) && c.leases == x.leases && c.tokens == x.tokens
    ensures c.tasks == TaskRunner.Next(TaskRunner.Next(TaskRunner.Next(x.tasks, create), load), begin)
  {
    var a := Next(x, Work(create));
    ReachNext(x, Work(create));
    var b := Next(a, Work(load));
    ReachNext(a, Work(load));
    c := Next(b, Work(begin));
    ReachNext(b, Work(begin));
  }

  const NewTask := CreateInput("", "session", "url", "goal", [], 0)

  lemma TaskStarts(x: TaskRunner.World, w: nat)
    requires TaskRunner.Inv(x) && w !in x.workers
    ensures var id := TaskId(x.store.counter + 1);
      var a := TaskRunner.Next(x, TaskRunner.ApiCreate(NewTask, 0));
      var b := TaskRunner.Next(a, TaskRunner.Load(w, id));
      TaskStarted(x, TaskRunner.Next(b, TaskRunner.Begin(w, 0)), w)
  {
    var id := TaskId(x.store.counter + 1);
    assert RecordOk(x.store, id);
    FreshId(x.store);
    var a := TaskRunner.Next(x, TaskRunner.ApiCreate(NewTask, 0));
    assert a.store.items == x.store.items[id := Created(x.store.counter + 1, NewTask, 0)];
  }

  /** Worker `w` has started a task that was not there before. */
  predicate TaskStarted(x: TaskRunner.World, y: TaskRunner.World, w: nat) {
    && w in y.workers && y.workers[w].Executing?
    && var copy := y.workers[w].copy;
      && y.workers == x.workers[w := TaskRunner.Executing(copy)]
      && copy.id !in x.store.items && copy.status == Running
      && y.store.items == x.store.items[copy.id := copy]
  }

  ghost predicate Started(x: World, y: World, w: nat) {
    Reachable(y) && y.leases == x.leases && y.tokens == x.tokens && TaskStarted(x.tasks, y.tasks, w)
  }

  /** The lease in the table for the node of `v` is that of `w`. */
  predicate OvertakenBy(x: World, v: nat, w: nat) {
    && v in x.tokens && w in x.tokens && x.tokens[v] in x.leases.holdings && x.tokens[v] != x.tokens[w]
    && var r := x.leases.holdings[x.tokens[v]].resource;
      r in x.leases.table.entries && x.leases.table.entries[r].token == x.tokens[w]
  }

  /** Worker `v` is executing on a node whose lease now is the other worker's, and its result is accepted. */
  ghost predicate StaleResultAccepted(x: World, v: nat, w: nat, success: TaskRunner.Event) {
    && Reachable(x) && v != w && Executing(x, v) && Executing(x, w)
    && OvertakenBy(x, v, w)
    && success.Succeeded? && success.w == v && Enabled(x, Work(success))
    && var id := x.tasks.workers[v].copy.id;
      && id in Next(x, Work(success)).tasks.store.items
      && Next(x, Work(success)).tasks.store.items[id].status == Completed
  }

  /** Two executing workers, none of which has a node, in a world without leases. */
  ghost predicate TwoExecuting(x: World) {
    && Reachable(x) && x.leases == Lease.Start && x.tokens == map[]
    && Executing(x, 0) && Executing(x, 1)
    && x.tasks.workers[0].copy.id in x.tasks.store.items
    && x.tasks.store.items[x.tasks.workers[0].copy.id].status == Running
  }

  lemma TwoWorkersStart()
    ensures exists x :: TwoExecuting(x)
  {
    assert Valid(Initial, []) && Run(Initial, []) == Initial;
    assert Reachable(Initial);
    WorkerStarts(Initial, 0);
    var y :| Started(Initial, y, 0);
    WorkerStarts(y, 1);
    var z :| Started(y, z, 1);
    assert TwoExecuting(z);
  }

  /** The lease of worker 0 runs out while it executes, and worker 1 takes the node. */
  lemma Overtake(x: World) returns (y: World)
    requires TwoExecuting(x)
    ensures Reachable(y) && y.tasks == x.tasks && y.tokens == map[0 := 1, 1 := 2]
    ensures 1 in y.leases.holdings && y.leases.holdings[1].resource == "node:a"
    ensures "node:a" in y.leases.table.entries && y.leases.table.entries["node:a"].token == 2
  {
    var first, second := Take(0, "node:a", "runner-1", 1, 0), Take(1, "node:a", "runner-2", 1, 1);
    var a := Next(x, first);
    ReachNext(x, first);
    assert a.leases.table == Lease.Table(1, map["node:a" := Lease.Entry("runner-1", 1, 1)]);
    var b := Next(a, Tick(1));
    ReachNext(a, Tick(1));
    y := Next(b, second);
    ReachNext(b, second);
  }

  /** The code does not keep stale results out: there is a run in which the node of an executing worker has already
      been leased to another worker, and the first worker's result is accepted all the same. */
  lemma StaleResultIsAccepted()
    ensures exists x, v, w, success :: StaleResultAccepted(x, v, w, success)
  {
    TwoWorkersStart();
    var x :| TwoExecuting(x);
    var y := Overtake(x);
    var success := TaskRunner.Succeeded(0, "a", NoPage, [], 0);
    ResultAcceptedIff(y, success);
    assert StaleResultAccepted(y, 0, 1, success);
  }
}
