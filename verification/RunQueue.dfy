/** The runner's queue (internal/taskrunner/runner.go): a bounded channel and a dedup set.

    Enqueue is not atomic. It puts the id into `enqueued` under a lock, then tries to send without
    blocking, and removes the id again under the lock when the send did not happen. A worker receives an
    id first and removes it from the set afterwards. Any number of enqueuers and workers interleave
    between these steps. */
module RunQueue {
  import opened Text
  import opened Wrappers

  datatype Queue = Queue(
    capacity: nat,
    enqueued: set<string>,
    channel: seq<string>,
    sending: multiset<string>,    // put into the set, not yet tried to send
    aborting: multiset<string>,   // not sent, not yet removed from the set
    received: multiset<string>,   // taken by a worker, not yet removed from the set
    sent: seq<string>,            // everything ever sent, in order
    taken: seq<string>)           // everything ever received, in order

  datatype Step =
    | Reserve(id: string)
    | Send(id: string)
    | FindFull(id: string)
    | FindDone(id: string)
    | Abort(id: string)
    | Receive
    | Clear(id: string)

  function Fresh(capacity: nat): Queue {
    Queue(capacity, {}, [], multiset{}, multiset{}, multiset{}, [], [])
  }

  /** When a step can happen. A send that cannot proceed falls through to the default branch, so an
      enqueuer finds the queue full only when it is full. */
  predicate Enabled(q: Queue, s: Step) {
    match s
    case Reserve(id) => id != ""
    case Send(id) => id in q.sending && |q.channel| < q.capacity
    case FindFull(id) => id in q.sending && |q.channel| >= q.capacity
    case FindDone(id) => id in q.sending
    case Abort(id) => id in q.aborting
    case Receive => q.channel != []
    case Clear(id) => id in q.received
  }

  function Next(q: Queue, s: Step): Queue
    requires Enabled(q, s)
  {
    match s
    case Reserve(id) =>
      if id in q.enqueued then q else q.(enqueued := q.enqueued + {id}, sending := q.sending + multiset{id})
    case Send(id) => q.(channel := q.channel + [id], sending := q.sending - multiset{id}, sent := q.sent + [id])
    case FindFull(id) => q.(sending := q.sending - multiset{id}, aborting := q.aborting + multiset{id})
    case FindDone(id) => q.(sending := q.sending - multiset{id}, aborting := q.aborting + multiset{id})
    case Abort(id) => q.(enqueued := q.enqueued - {id}, aborting := q.aborting - multiset{id})
    case Receive =>
      q.(channel := q.channel[1..], received := q.received + multiset{q.channel[0]}, taken := q.taken + [q.channel[0]])
    case Clear(id) => q.(enqueued := q.enqueued - {id}, received := q.received - multiset{id})
  }

  predicate Valid(q: Queue, steps: seq<Step>)
    decreases |steps|
  {
    steps != [] ==> Enabled(q, steps[0]) && Valid(Next(q, steps[0]), steps[1..])
  }

  function Run(q: Queue, steps: seq<Step>): Queue
    requires Valid(q, steps)
    decreases |steps|
  {
    if steps == [] then q else Run(Next(q, steps[0]), steps[1..])
  }

  /** How often an id is on its way through the queue. */
  function InTransit(q: Queue, id: string): nat {
    multiset(q.channel)[id] + q.sending[id] + q.aborting[id] + q.received[id]
  }

  /** The dedup set is exactly the ids in transit, each in transit once; the channel is first-in
      first-out, loses nothing and stays within its capacity. */
  ghost predicate Inv(q: Queue) {
    && (forall id :: InTransit(q, id) == if id in q.enqueued then 1 else 0)
    && |q.channel| <= q.capacity
    && q.sent == q.taken + q.channel
  }

  /** Each step moves one id from one place to another; only Reserve adds one and Abort and Clear drop one. */
  lemma NextInTransit(q: Queue, s: Step, id: string)
    requires Enabled(q, s)
    ensures InTransit(Next(q, s), id) ==
      match s
      case Reserve(i) => InTransit(q, id) + (if i == id && i !in q.enqueued then 1 else 0)
      case Abort(i) => InTransit(q, id) - (if i == id then 1 else 0)
      case Clear(i) => InTransit(q, id) - (if i == id then 1 else 0)
      case _ => InTransit(q, id)
  {
    if s.Receive? {
      assert q.channel == [q.channel[0]] + q.channel[1..];
    }
  }

  lemma NextKeepsInv(q: Queue, s: Step)
    requires Inv(q) && Enabled(q, s)
    ensures Inv(Next(q, s)) && Next(q, s).capacity == q.capacity
  {
    forall id ensures InTransit(Next(q, s), id) == if id in Next(q, s).enqueued then 1 else 0 {
      NextInTransit(q, s, id);
      assert InTransit(q, id) == if id in q.enqueued then 1 else 0;
    }
    NextKeepsOrder(q, s);
  }

  lemma NextKeepsOrder(q: Queue, s: Step)
    requires q.sent == q.taken + q.channel && |q.channel| <= q.capacity && Enabled(q, s)
    ensures var v := Next(q, s); v.sent == v.taken + v.channel && |v.channel| <= v.capacity == q.capacity
  {
    if s.Receive? {
      assert q.channel == [q.channel[0]] + q.channel[1..];
    }
  }

  lemma {:induction false} RunKeepsInv(q: Queue, steps: seq<Step>)
    requires Inv(q) && Valid(q, steps)
    ensures Inv(Run(q, steps)) && Run(q, steps).capacity == q.capacity
    decreases |steps|
  {
    if steps != [] {
      NextKeepsInv(q, steps[0]);
      RunKeepsInv(Next(q, steps[0]), steps[1..]);
    }
  }

  /** In every reachable state the dedup set is the union of the ids in the channel, being sent, being
      given up and received but not yet cleared. These four never share an id, no id is twice in any of
      them, the channel never exceeds its capacity, and what workers took is exactly the beginning of
      what was sent, in order. */
  lemma QueueAgreesWithSet(capacity: nat, steps: seq<Step>)
    requires Valid(Fresh(capacity), steps)
    ensures var q := Run(Fresh(capacity), steps);
      && (forall id :: id in q.enqueued <==> id in q.channel || id in q.sending || id in q.aborting || id in q.received)
      && (forall id :: q.sending[id] + q.aborting[id] + q.received[id] <= 1)
      && (forall id :: id in q.channel ==> id !in q.sending && id !in q.aborting && id !in q.received)
      && (forall i, j :: 0 <= i < j < |q.channel| ==> q.channel[i] != q.channel[j])
      && |q.channel| <= capacity
      && q.sent == q.taken + q.channel
  {
    RunKeepsInv(Fresh(capacity), steps);
    var q := Run(Fresh(capacity), steps);
    forall id
      ensures multiset(q.channel)[id] + q.sending[id] + q.aborting[id] + q.received[id] ==
        if id in q.enqueued then 1 else 0
    {
      assert InTransit(q, id) == if id in q.enqueued then 1 else 0;
    }
    forall i, j | 0 <= i < j < |q.channel|
      ensures q.channel[i] != q.channel[j]
    {
      CountTwice(q.channel, i, j);
      assert multiset(q.channel)[q.channel[i]] <= 1;
    }
  }

  lemma CountTwice(s: seq<string>, i: nat, j: nat)
    requires i < j < |s|
    ensures s[i] == s[j] ==> multiset(s)[s[i]] >= 2
  {
    assert s == s[..j] + [s[j]] + s[j + 1..];
    assert s[i] in s[..j];
  }

  /** An id that is on its way is not taken in a second time, and one that has been cleared can be. */
  lemma ReserveIsIdempotentInTransit(q: Queue, id: string)
    requires Inv(q) && id != ""
    ensures Next(q, Reserve(id)) == q <==> InTransit(q, id) == 1
  {
    assert InTransit(q, id) == if id in q.enqueued then 1 else 0;
    assert id !in q.enqueued ==> id in Next(q, Reserve(id)).enqueued;
  }

  /** An enqueuer that gives up leaves no trace. */
  lemma GivingUpChangesNothing(q: Queue, id: string, give: Step)
    requires id != "" && id !in q.enqueued && (give == FindFull(id) || give == FindDone(id))
    requires Enabled(Next(q, Reserve(id)), give)
    ensures Next(Next(Next(q, Reserve(id)), give), Abort(id)) == q
  {
    var v := Next(Next(Next(q, Reserve(id)), give), Abort(id));
    assert v.sending == q.sending && v.aborting == q.aborting && v.enqueued == q.enqueued;
  }

  // ---------------------------------------------------------------- accepted ids that are lost

  /** The step with which an id on its way leaves the queue: a worker's Clear, or an enqueuer's Abort. */
  function FirstExit(q: Queue, steps: seq<Step>, id: string): Option<Step>
    requires Valid(q, steps)
    decreases |steps|
  {
    if steps == [] then None
    else if steps[0] == Abort(id) || steps[0] == Clear(id) then Some(steps[0])
    else FirstExit(Next(q, steps[0]), steps[1..], id)
  }

  /** The id has been sent: it is in the channel or with a worker. */
  predicate IsSent(q: Queue, id: string) {
    id in q.channel || id in q.received
  }

  lemma SentStaysSent(q: Queue, s: Step, id: string)
    requires Inv(q) && Enabled(q, s) && IsSent(q, id)
    ensures s != Abort(id) && (s != Clear(id) ==> IsSent(Next(q, s), id))
  {
    assert InTransit(q, id) == if id in q.enqueued then 1 else 0;
    if s.Receive? {
      assert q.channel == [q.channel[0]] + q.channel[1..];
    }
  }

  /** What has been sent is handled by a worker, never given up. */
  lemma {:induction false} SentIsNotLost(q: Queue, steps: seq<Step>, id: string)
    requires Inv(q) && Valid(q, steps) && IsSent(q, id)
    ensures FirstExit(q, steps, id) in {None, Some(Clear(id))}
    decreases |steps|
  {
    if steps != [] {
      SentStaysSent(q, steps[0], id);
      NextKeepsInv(q, steps[0]);
      if steps[0] != Clear(id) {
        SentIsNotLost(Next(q, steps[0]), steps[1..], id);
      }
    }
  }

  /** Some further steps end with the id given up. */
  ghost predicate CanBeLost(q: Queue, id: string) {
    exists steps :: LostBy(q, steps, id)
  }

  predicate LostBy(q: Queue, steps: seq<Step>, id: string) {
    Valid(q, steps) && FirstExit(q, steps, id) == Some(Abort(id))
  }

  /** An accepted Enqueue can be lost, exactly: when the id is accepted as a duplicate at `q`, some further steps
      end with its Abort if and only if it had not been sent at that moment, that is, its first enqueuer is still
      sending it or already giving it up. */
  lemma AcceptedDuplicateCanBeLostIff(q: Queue, id: string)
    requires Inv(q) && id in q.enqueued
    ensures CanBeLost(q, id) <==> !IsSent(q, id)
    ensures !IsSent(q, id) <==> id in q.sending || id in q.aborting
  {
    assert InTransit(q, id) == 1;
    if IsSent(q, id) {
      forall steps ensures !LostBy(q, steps, id) {
        if Valid(q, steps) {
          SentIsNotLost(q, steps, id);
        }
      }
    } else if id in q.aborting {
      LostAfter(q, id);
    } else {
      LostWhileSending(q, id);
    }
  }

  /** After an Abort the id is nowhere. */
  lemma AbortLeavesNothing(q: Queue, id: string)
    requires Inv(q) && Enabled(q, Abort(id))
    ensures InTransit(Next(q, Abort(id)), id) == 0 && id !in Next(q, Abort(id)).enqueued
  {
    assert InTransit(q, id) == if id in q.enqueued then 1 else 0;
    NextInTransit(q, Abort(id), id);
  }

  lemma LostAfter(q: Queue, id: string)
    requires id in q.aborting
    ensures LostBy(q, [Abort(id)], id)
  {
    assert [Abort(id)][1..] == [];
  }

  lemma LostWhileSending(q: Queue, id: string)
    requires id in q.sending
    ensures LostBy(q, [FindDone(id), Abort(id)], id)
  {
    LostAfter(Next(q, FindDone(id)), id);
    assert [FindDone(id), Abort(id)][1..] == [Abort(id)];
  }

  // ---------------------------------------------------------------- the object, one method per atomic step

  datatype EnqueueError = IdRequired | ContextDone | QueueFull

  class Runner {
    const capacity: nat
    var enqueued: set<string>
    var queue: seq<string>
    ghost var sending: multiset<string>
    ghost var aborting: multiset<string>
    ghost var received: multiset<string>
    ghost var sent: seq<string>
    ghost var taken: seq<string>

    ghost function State(): Queue
      reads this
    {
      Queue(capacity, enqueued, queue, sending, aborting, received, sent, taken)
    }

    /** A non-positive configured size becomes 256. */
    constructor (queueSize: int)
      ensures State() == Fresh(if queueSize <= 0 then 256 else queueSize)
    {
      capacity := if queueSize <= 0 then 256 else queueSize;
      enqueued, queue := {}, [];
      sending, aborting, received, sent, taken := multiset{}, multiset{}, multiset{}, [], [];
    }

    method ReserveId(id: string) returns (isNew: bool)
      requires id != ""
      modifies this
      ensures State() == Next(old(State()), Reserve(id)) && (isNew <==> id !in old(enqueued))
    {
      isNew := id !in enqueued;
      if isNew {
        enqueued := enqueued + {id};
        sending := sending + multiset{id};
      }
    }

    /** The select statement: `takeDone` resolves the choice when the context is done as well. */
    method TrySend(id: string, contextDone: bool, takeDone: bool) returns (error: Option<EnqueueError>)
      requires id in sending
      modifies this
      ensures State() == Next(old(State()),
        if contextDone && (takeDone || |old(queue)| >= capacity) then FindDone(id)
        else if |old(queue)| < capacity then Send(id) else FindFull(id))
      ensures error == if contextDone && (takeDone || |old(queue)| >= capacity) then Some(ContextDone)
        else if |old(queue)| < capacity then None else Some(QueueFull)
    {
      sending := sending - multiset{id};
      if contextDone && (takeDone || |queue| >= capacity) {
        aborting := aborting + multiset{id};
        error := Some(ContextDone);
      } else if |queue| < capacity {
        queue := queue + [id];
        sent := sent + [id];
        error := None;
      } else {
        aborting := aborting + multiset{id};
        error := Some(QueueFull);
      }
    }

    /** clearEnqueued, called by an enqueuer whose send did not happen. */
    method ClearAborted(id: string)
      requires id in aborting
      modifies this
      ensures State() == Next(old(State()), Abort(id))
    {
      enqueued := enqueued - {id};
      aborting := aborting - multiset{id};
    }

    /** clearEnqueued, called by the worker that received the id. */
    method ClearReceived(id: string)
      requires id in received
      modifies this
      ensures State() == Next(old(State()), Clear(id))
    {
      enqueued := enqueued - {id};
      received := received - multiset{id};
    }

    method ReceiveId() returns (id: string)
      requires queue != []
      modifies this
      ensures State() == Next(old(State()), Receive) && id == old(queue)[0]
    {
      id := queue[0];
      queue := queue[1..];
      received := received + multiset{id};
      taken := taken + [id];
    }

    /** The whole of Enqueue when nobody else acts in between: accepted exactly when the id was on its way
        already or there was room; otherwise nothing has changed. */
    method Enqueue(taskId: string, contextDone: bool, takeDone: bool) returns (error: Option<EnqueueError>)
      modifies this
      ensures var id := TrimSpace(taskId);
        var isDone := contextDone && (takeDone || |old(queue)| >= capacity);
        if id == "" then error == Some(IdRequired) && State() == old(State())
        else if id in old(enqueued) then error == None && State() == old(State())
        else if isDone || |old(queue)| >= capacity then
          error == Some(if isDone then ContextDone else QueueFull) && State() == old(State())
        else error == None && queue == old(queue) + [id] && enqueued == old(enqueued) + {id}
    {
      var id := TrimSpace(taskId);
      if id == "" {
        return Some(IdRequired);
      }
      ghost var before := State();
      var isNew := ReserveId(id);
      if !isNew {
        return None;
      }
      error := TrySend(id, contextDone, takeDone);
      if error != None {
        ClearAborted(id);
        GivingUpChangesNothing(before, id, if error == Some(ContextDone) then FindDone(id) else FindFull(id));
      }
    }
  }
}
