/** Idempotent requests: the in-memory store (internal/idempotency/inmemory.go) and the request handler
    (internal/api/idempotency.go).

    The handler is a sequence of separate store calls: Get, then Claim, then the execution, then Save (only
    for a response below 500), then Release. Any number of requests interleave between these steps. Every
    store call takes its clock reading before the lock, so a reading may be older than the call's effect. */
module Idempotency {
  import opened Text

  datatype Entry = Entry(status: int, contentType: string, body: string)

  /** Scope and idempotency key, trimmed; the store hashes the pair. */
  datatype Key = Key(scope: string, key: string)

  datatype Item = Item(entry: Entry, expiresAt: int)

  datatype Claim = Claim(owner: string, expiresAt: int)

  datatype Store = Store(items: map<Key, Item>, claims: map<Key, Claim>)

  datatype Lookup = Miss | Hit(entry: Entry)

  const Second: int := 1_000_000_000

  function ClaimTtl(ttl: int): int {
    if ttl <= 0 then 30 * Second else ttl
  }

  function SaveTtl(ttl: int): int {
    if ttl <= 0 then 24 * 3600 * Second else ttl
  }

  // ---------------------------------------------------------------- the store operations as functions

  function Got(s: Store, k: Key, now: int): (Store, Lookup) {
    if k !in s.items then (s, Miss)
    else if now > s.items[k].expiresAt then (s.(items := s.items - {k}), Miss)
    else (s, Hit(s.items[k].entry))
  }

  function Claimed(s: Store, k: Key, owner: string, ttl: int, now: int): (Store, bool) {
    if k in s.claims && now < s.claims[k].expiresAt then (s, false)
    else (s.(claims := s.claims[k := Claim(owner, now + ClaimTtl(ttl))]), true)
  }

  function Saved(s: Store, k: Key, entry: Entry, ttl: int, now: int): Store {
    s.(items := s.items[k := Item(entry, now + SaveTtl(ttl))])
  }

  function Released(s: Store, k: Key, owner: string): Store {
    if k in s.claims && s.claims[k].owner == owner then s.(claims := s.claims - {k}) else s
  }

  // ---------------------------------------------------------------- the store object and the handler

  datatype Response =
    | NotHandled              // no key: the request is executed without protection
    | InProgress              // 409
    | Replayed(entry: Entry)  // a saved response
    | Executed(entry: Entry)  // this request executed

  class InMemoryStore {
    var items: map<Key, Item>
    var claims: map<Key, Claim>

    constructor ()
      ensures State() == Store(map[], map[])
    {
      items, claims := map[], map[];
    }

    function State(): Store
      reads this
    {
      Store(items, claims)
    }

    method Get(k: Key, now: int) returns (found: Lookup)
      modifies this
      ensures (State(), found) == Got(old(State()), k, now)
    {
      if k !in items {
        return Miss;
      }
      if now > items[k].expiresAt {
        items := items - {k};
        return Miss;
      }
      found := Hit(items[k].entry);
    }

    method TryClaim(k: Key, owner: string, ttl: int, now: int) returns (claimed: bool)
      modifies this
      ensures (State(), claimed) == Claimed(old(State()), k, owner, ttl, now)
    {
      var life := if ttl <= 0 then 30 * Second else ttl;
      if k in claims && now < claims[k].expiresAt {
        return false;
      }
      claims := claims[k := Claim(owner, now + life)];
      claimed := true;
    }

    method Save(k: Key, entry: Entry, ttl: int, now: int)
      modifies this
      ensures State() == Saved(old(State()), k, entry, ttl, now)
    {
      var life := if ttl <= 0 then 24 * 3600 * Second else ttl;
      items := items[k := Item(entry, now + life)];
    }

    method Release(k: Key, owner: string)
      modifies this
      ensures State() == Released(old(State()), k, owner)
    {
      if k in claims && claims[k].owner == owner {
        claims := claims - {k};
      }
    }

    /** handleIdempotentRequest when nobody else acts in between; `outcome` is what the wrapped handler
        would answer if it is executed, `now` the time throughout. A claim that somebody else holds is not
        released while this request waits. */
    method HandleRequest(scope: string, header: string, owner: string, lockTtl: int, ttl: int, now: int, outcome: Entry)
      returns (r: Response)
      modifies this
      ensures TrimSpace(header) == "" ==> r == NotHandled && State() == old(State())
      ensures TrimSpace(header) != "" ==>
        (State(), r) ==
          Handled(old(State()), Key(TrimSpace(scope), TrimSpace(header)), owner, lockTtl, ttl, now, outcome)
    {
      var header := TrimSpace(header);
      if header == "" {
        return NotHandled;
      }
      var k := Key(TrimSpace(scope), header);
      var cached := Get(k, now);
      if cached.Hit? {
        return Replayed(cached.entry);
      }
      var claimed := TryClaim(k, owner, lockTtl, now);
      if !claimed {
        return InProgress;
      }
      if outcome.status < 500 {
        Save(k, outcome, ttl, now);
      }
      Release(k, owner);
      r := Executed(outcome);
    }
  }

  function Handled(s: Store, k: Key, owner: string, lockTtl: int, ttl: int, now: int, outcome: Entry)
    : (Store, Response)
  {
    var (s1, found) := Got(s, k, now);
    if found.Hit? then (s1, Replayed(found.entry))
    else
      var (s2, claimed) := Claimed(s1, k, owner, lockTtl, now);
      if !claimed then (s2, InProgress)
      else
        var s3 := if outcome.status < 500 then Saved(s2, k, outcome, ttl, now) else s2;
        (Released(s3, k, owner), Executed(outcome))
  }

  // ---------------------------------------------------------------- requests one after another

  /** One request: when it runs, and what the wrapped handler would answer. */
  datatype Request = Request(owner: string, at: int, outcome: Entry)

  function Responses(s: Store, k: Key, lockTtl: int, ttl: int, requests: seq<Request>): seq<Response>
    decreases |requests|
  {
    if requests == [] then []
    else
      var q := requests[0];
      var (v, r) := Handled(s, k, q.owner, lockTtl, ttl, q.at, q.outcome);
      [r] + Responses(v, k, lockTtl, ttl, requests[1..])
  }

  /** Index of the first request whose own outcome is below 500, or their number. */
  function FirstGood(requests: seq<Request>): (n: nat)
    ensures n <= |requests|
    ensures n < |requests| ==> requests[n].outcome.status < 500
    ensures forall i :: 0 <= i < n ==> requests[i].outcome.status >= 500
  {
    if requests == [] then 0
    else if requests[0].outcome.status < 500 then 0
    else 1 + FirstGood(requests[1..])
  }

  /** Non-overlapping requests with one key execute up to and including the first response below 500; while
      that response is retained every later request replays it and executes nothing. */
  lemma {:induction false} SequentialRequestsExecuteOnce(s: Store, k: Key, lockTtl: int, ttl: int,
                                                         requests: seq<Request>)
    requires k !in s.items && k !in s.claims
    requires var n := FirstGood(requests); n < |requests| ==>
      forall i :: n < i < |requests| ==> requests[i].at <= requests[n].at + SaveTtl(ttl)
    ensures var rs, n := Responses(s, k, lockTtl, ttl, requests), FirstGood(requests);
      && |rs| == |requests|
      && forall i :: 0 <= i < |rs| ==>
           rs[i] == if i <= n then Executed(requests[i].outcome) else Replayed(requests[n].outcome)
    decreases |requests|
  {
    if requests != [] {
      var q := requests[0];
      var v := Handled(s, k, q.owner, lockTtl, ttl, q.at, q.outcome).0;
      if q.outcome.status < 500 {
        RetainedResponseIsReplayed(v, k, lockTtl, ttl, requests[1..], Item(q.outcome, q.at + SaveTtl(ttl)));
      } else {
        SequentialRequestsExecuteOnce(v, k, lockTtl, ttl, requests[1..]);
      }
    }
  }

  lemma {:induction false} RetainedResponseIsReplayed(s: Store, k: Key, lockTtl: int, ttl: int,
                                                      requests: seq<Request>, item: Item)
    requires k in s.items && s.items[k] == item
    requires forall i :: 0 <= i < |requests| ==> requests[i].at <= item.expiresAt
    ensures var rs := Responses(s, k, lockTtl, ttl, requests);
      |rs| == |requests| && forall i :: 0 <= i < |rs| ==> rs[i] == Replayed(item.entry)
    decreases |requests|
  {
    if requests != [] {
      RetainedResponseIsReplayed(s, k, lockTtl, ttl, requests[1..], item);
    }
  }

  // ---------------------------------------------------------------- interleaved requests

  /** Where a request with key `k` stands. */
  datatype Phase =
    | Missed(k: Key)                                          // its Get found nothing
    | Waiting(k: Key)                                         // its Claim was refused
    | Executing(k: Key, owner: string, until: int, saved: seq<Entry>) // its claim lasts `until`; what it saved
    | Done(response: Response)

  /** `owners` are the owner names used so far, `latest` the last response ever saved under each key. */
  datatype World = World(
    clock: int, store: Store, requests: map<nat, Phase>, owners: set<string>, latest: map<Key, Item>)

  const Start := World(0, Store(map[], map[]), map[], {}, map[])

  datatype Step =
    | Tick(to: int)
    | DoGet(r: nat, k: Key, reading: int)
    | DoClaim(r: nat, owner: string, ttl: int, reading: int)
    | Poll(r: nat, reading: int)
    | TimeOut(r: nat)
    | DoSave(r: nat, entry: Entry, ttl: int, reading: int)
    | DoRelease(r: nat, entry: Entry)

  /** Readings never come from the future; every claim is made under an owner name never used before. */
  predicate Enabled(w: World, s: Step) {
    match s
    case Tick(to) => w.clock <= to
    case DoGet(r, _, reading) => r !in w.requests && reading <= w.clock
    case DoClaim(r, owner, _, reading) =>
      r in w.requests && w.requests[r].Missed? && owner !in w.owners && reading <= w.clock
    case Poll(r, reading) => r in w.requests && w.requests[r].Waiting? && reading <= w.clock
    case TimeOut(r) => r in w.requests && w.requests[r].Waiting?
    case DoSave(r, entry, _, reading) =>
      && r in w.requests && w.requests[r].Executing? && w.requests[r].saved == []
      && entry.status < 500 && reading <= w.clock
    case DoRelease(r, entry) =>
      && r in w.requests && w.requests[r].Executing?
      && w.requests[r].saved == if entry.status < 500 then [entry] else []
  }

  function Next(w: World, s: Step): World
    requires Enabled(w, s)
  {
    match s
    case Tick(to) => w.(clock := to)
    case DoGet(r, k, reading) =>
      var (store, found) := Got(w.store, k, reading);
      w.(store := store, requests := w.requests[r := if found.Hit? then Done(Replayed(found.entry)) else Missed(k)])
    case DoClaim(r, owner, ttl, reading) =>
      var k := w.requests[r].k;
      var (store, claimed) := Claimed(w.store, k, owner, ttl, reading);
      w.(store := store, owners := w.owners + {owner},
         requests := w.requests[
           r := if claimed then Executing(k, owner, store.claims[k].expiresAt, []) else Waiting(k)])
    case Poll(r, reading) =>
      var (store, found) := Got(w.store, w.requests[r].k, reading);
      w.(store := store, requests := if found.Hit? then w.requests[r := Done(Replayed(found.entry))] else w.requests)
    case TimeOut(r) => w.(requests := w.requests[r := Done(InProgress)])
    case DoSave(r, entry, ttl, reading) =>
      w.(store := Saved(w.store, w.requests[r].k, entry, ttl, reading),
         latest := w.latest[w.requests[r].k := Item(entry, reading + SaveTtl(ttl))],
         requests := w.requests[r := w.requests[r].(saved := [entry])])
    case DoRelease(r, entry) =>
      w.(store := Released(w.store, w.requests[r].k, w.requests[r].owner),
         requests := w.requests[r := Done(Executed(entry))])
  }

  predicate Valid(w: World, steps: seq<Step>)
    decreases |steps|
  {
    steps != [] ==> Enabled(w, steps[0]) && Valid(Next(w, steps[0]), steps[1..])
  }

  function Run(w: World, steps: seq<Step>): World
    requires Valid(w, steps)
    decreases |steps|
  {
    if steps == [] then w else Run(Next(w, steps[0]), steps[1..])
  }

  /** The request is executing and its claim has not run out. */
  predicate Covered(w: World, r: nat) {
    r in w.requests && w.requests[r].Executing? && w.clock < w.requests[r].until
  }

  predicate OwnerOk(w: World, r: nat) {
    r in w.requests && w.requests[r].Executing? ==>
      && w.requests[r].owner in w.owners
      && (forall q :: q in w.requests && w.requests[q].Executing? && w.requests[q].owner == w.requests[r].owner ==>
          q == r)
  }

  /** A covered request's claim is the one in the store. */
  predicate CoverOk(w: World, r: nat) {
    Covered(w, r) ==>
      var p := w.requests[r];
      p.k in w.store.claims && w.store.claims[p.k] == Claim(p.owner, p.until)
  }

  predicate ClaimOk(w: World, k: Key) {
    k in w.store.claims ==> w.store.claims[k].owner in w.owners
  }

  /** The store holds the latest saved response at least until it expires, and never an older one. */
  predicate ItemOk(w: World, k: Key) {
    && (k in w.store.items ==> k in w.latest && w.store.items[k] == w.latest[k])
    && (k in w.latest && w.clock <= w.latest[k].expiresAt ==> k in w.store.items)
  }

  ghost predicate Inv(w: World) {
    && (forall k :: ItemOk(w, k))
    && (forall r :: OwnerOk(w, r))
    && (forall r :: CoverOk(w, r))
    && (forall k :: ClaimOk(w, k))
  }

  lemma NextKeepsCover(w: World, s: Step, r: nat)
    requires Inv(w) && Enabled(w, s)
    ensures CoverOk(Next(w, s), r)
  {
    assert CoverOk(w, r) && OwnerOk(w, r);
    if s.DoRelease? {
      assert OwnerOk(w, s.r);
    }
  }

  lemma NextKeepsItem(w: World, s: Step, k: Key)
    requires ItemOk(w, k) && Enabled(w, s)
    ensures ItemOk(Next(w, s), k)
  {
  }

  lemma NextKeepsOwner(w: World, s: Step, r: nat)
    requires Inv(w) && Enabled(w, s)
    ensures OwnerOk(Next(w, s), r)
  {
    var v := Next(w, s);
    assert OwnerOk(w, r);
    if r in v.requests && v.requests[r].Executing? {
      forall q | q in v.requests && v.requests[q].Executing? && v.requests[q].owner == v.requests[r].owner
        ensures q == r
      {
        assert OwnerOk(w, q);
      }
    }
  }

  lemma NextKeepsInv(w: World, s: Step)
    requires Inv(w) && Enabled(w, s)
    ensures Inv(Next(w, s))
  {
    var v := Next(w, s);
    forall r ensures OwnerOk(v, r) {
      NextKeepsOwner(w, s, r);
    }
    forall r ensures CoverOk(v, r) {
      NextKeepsCover(w, s, r);
    }
    forall k ensures ClaimOk(v, k) {
      assert ClaimOk(w, k);
    }
    forall k ensures ItemOk(v, k) {
      NextKeepsItem(w, s, k);
    }
  }

  lemma {:induction false} RunKeepsInv(w: World, steps: seq<Step>)
    requires Inv(w) && Valid(w, steps)
    ensures Inv(Run(w, steps))
    decreases |steps|
  {
    if steps != [] {
      NextKeepsInv(w, steps[0]);
      RunKeepsInv(Next(w, steps[0]), steps[1..]);
    }
  }

  /** While claims outlive handlers, executions for one key never overlap: at any moment of any run, two
      executing requests of one key whose claims have not run out are the same request. */
  lemma ExecutionsDoNotOverlap(steps: seq<Step>)
    requires Valid(Start, steps)
    ensures var w := Run(Start, steps);
      forall q, r :: Covered(w, q) && Covered(w, r) && w.requests[q].k == w.requests[r].k ==> q == r
  {
    RunKeepsInv(Start, steps);
    var w := Run(Start, steps);
    forall q, r | Covered(w, q) && Covered(w, r) && w.requests[q].k == w.requests[r].k
      ensures q == r
    {
      assert CoverOk(w, q) && CoverOk(w, r) && OwnerOk(w, q);
    }
  }

  /** A Release frees only the releaser's own claim: whoever else is covered stays covered by its claim. */
  lemma StaleReleaseFreesNobodyElse(w: World, r: nat, entry: Entry, q: nat)
    requires Inv(w) && Enabled(w, DoRelease(r, entry)) && q != r && Covered(w, q)
    ensures var v := Next(w, DoRelease(r, entry));
      && Covered(v, q) && v.requests[q] == w.requests[q]
      && w.requests[q].k in v.store.claims
      && v.store.claims[w.requests[q].k] == Claim(w.requests[q].owner, w.requests[q].until)
  {
    assert CoverOk(w, q) && OwnerOk(w, q) && OwnerOk(w, r);
  }

  /** In every run: a request whose FIRST Get comes while the latest saved response of its key has not
      expired never executes; it is answered with that response, and stays so. */
  lemma LateRequestReplays(before: seq<Step>, r: nat, k: Key, reading: int, after: seq<Step>)
    requires Valid(Start, before) && Enabled(Run(Start, before), DoGet(r, k, reading))
    requires Valid(Next(Run(Start, before), DoGet(r, k, reading)), after)
    requires var w := Run(Start, before); k in w.latest && w.clock <= w.latest[k].expiresAt
    ensures var w := Run(Start, before);
      var v := Run(Next(w, DoGet(r, k, reading)), after);
      r in v.requests && v.requests[r] == Done(Replayed(w.latest[k].entry))
  {
    RunKeepsInv(Start, before);
    var w := Run(Start, before);
    assert ItemOk(w, k);
    DoneStaysDone(Next(w, DoGet(r, k, reading)), after, r);
  }

  /** A request whose Get missed executes exactly when no unexpired claim stands in its way; a response
      saved since its Get makes no difference. */
  lemma ClaimDecidesExecution(w: World, r: nat, owner: string, ttl: int, reading: int)
    requires Enabled(w, DoClaim(r, owner, ttl, reading))
    ensures var k := w.requests[r].k;
      var held := k in w.store.claims && reading < w.store.claims[k].expiresAt;
      Next(w, DoClaim(r, owner, ttl, reading)).requests[r].Executing? <==> !held
  {
  }

  /** A finished request stays as it is. */
  lemma {:induction false} DoneStaysDone(w: World, steps: seq<Step>, r: nat)
    requires Valid(w, steps) && r in w.requests && w.requests[r].Done?
    ensures r in Run(w, steps).requests && Run(w, steps).requests[r] == w.requests[r]
    decreases |steps|
  {
    if steps != [] {
      DoneStaysDone(Next(w, steps[0]), steps[1..], r);
    }
  }

  /** A saved response of the key is unexpired in every state of the run. */
  predicate RetainedAlong(w: World, steps: seq<Step>, k: Key)
    requires Valid(w, steps)
    decreases |steps|
  {
    && k in w.latest && w.clock <= w.latest[k].expiresAt
    && (steps != [] ==> RetainedAlong(Next(w, steps[0]), steps[1..], k))
  }

  predicate HasMissed(w: World, r: nat, k: Key) {
    r in w.requests && w.requests[r] == Missed(k)
  }

  lemma NoNewMiss(w: World, s: Step, r: nat, k: Key)
    requires Inv(w) && Enabled(w, s) && k in w.latest && w.clock <= w.latest[k].expiresAt
    ensures HasMissed(Next(w, s), r, k) ==> HasMissed(w, r, k)
  {
    assert ItemOk(w, k);
  }

  lemma {:induction false} MissIsOlder(w: World, steps: seq<Step>, r: nat, k: Key)
    requires Inv(w) && Valid(w, steps) && RetainedAlong(w, steps, k)
    ensures HasMissed(Run(w, steps), r, k) ==> HasMissed(w, r, k)
    decreases |steps|
  {
    if steps != [] {
      NoNewMiss(w, steps[0], r, k);
      NextKeepsInv(w, steps[0]);
      MissIsOlder(Next(w, steps[0]), steps[1..], r, k);
    }
  }

  /** When a request executes although a response has been saved, in terms of the order of the steps: request q
      saves at `w`, further steps follow while a saved response is retained, and then r claims. Then the Get of r
      came before the Save of q. It executes exactly when no unexpired claim is in its way, and if it does, q has
      released its claim in between or let it run out. */
  lemma DoubleExecutionOrder(before: seq<Step>, q: nat, save: Step, after: seq<Step>, r: nat, claim: Step)
    requires Valid(Start, before) && save.DoSave? && save.r == q && Enabled(Run(Start, before), save)
    requires Valid(Next(Run(Start, before), save), after) && q != r
    requires claim.DoClaim? && claim.r == r && Enabled(Run(Next(Run(Start, before), save), after), claim)
    requires var k := Run(Start, before).requests[q].k;
      && Run(Next(Run(Start, before), save), after).requests[r].k == k
      && RetainedAlong(Next(Run(Start, before), save), after, k)
    ensures var w := Run(Start, before);
      var v, k := Run(Next(w, save), after), w.requests[q].k;
      var executes := Next(v, claim).requests[r].Executing?;
      && HasMissed(w, r, k)
      && (executes <==> !(k in v.store.claims && claim.reading < v.store.claims[k].expiresAt))
      && (executes && q in v.requests && v.requests[q].Executing? && v.requests[q].k == k ==>
            v.requests[q].until <= v.clock)
  {
    var w := Run(Start, before);
    var k := w.requests[q].k;
    RunKeepsInv(Start, before);
    NextKeepsInv(w, save);
    MissIsOlder(Next(w, save), after, r, k);
    RunKeepsInv(Next(w, save), after);
    var v := Run(Next(w, save), after);
    assert CoverOk(v, q);
  }

  /** Execution at most once does not hold for overlapping requests: the handler does not look again after
      its Claim, so a request whose Get came before another's Save can execute after that one's Release. */
  lemma OverlappingRequestsCanExecuteTwice(k: Key, e: Entry)
    requires e.status < 500
    ensures exists steps :: Valid(Start, steps) && BothExecuted(Run(Start, steps), e)
  {
    var w1 := Next(Start, DoGet(1, k, 0));
    var w2 := Next(w1, DoGet(2, k, 0));
    OneExecutes(w2, k, e, 1, "a");
    var w3 := Run(w2, OneTurn(1, "a", e));
    OneExecutes(w3, k, e, 2, "b");
    RunsInTurn(w2, OneTurn(1, "a", e), OneTurn(2, "b", e));
    var t2 := OneTurn(1, "a", e) + OneTurn(2, "b", e);
    PrependStep(w1, DoGet(2, k, 0), t2);
    PrependStep(Start, DoGet(1, k, 0), [DoGet(2, k, 0)] + t2);
    assert BothExecuted(Run(w2, t2), e);
  }

  predicate BothExecuted(w: World, e: Entry) {
    1 in w.requests && 2 in w.requests && w.requests[1] == Done(Executed(e)) && w.requests[2] == Done(Executed(e))
  }

  /** A request claims, saves and releases without interruption. */
  function OneTurn(r: nat, owner: string, e: Entry): seq<Step> {
    [DoClaim(r, owner, 1, 0), DoSave(r, e, 1, 0), DoRelease(r, e)]
  }

  lemma OneExecutes(w: World, k: Key, e: Entry, r: nat, owner: string)
    requires e.status < 500 && w.clock == 0 && r in w.requests && w.requests[r] == Missed(k)
    requires owner !in w.owners && k !in w.store.claims
    ensures Valid(w, OneTurn(r, owner, e))
    ensures var v := Run(w, OneTurn(r, owner, e));
      && v.requests == w.requests[r := Done(Executed(e))] && v.owners == w.owners + {owner}
      && v.clock == 0 && k !in v.store.claims
  {
    var steps := OneTurn(r, owner, e);
    var w1 := Next(w, steps[0]);
    var w2 := Next(w1, steps[1]);
    var v := Next(w2, steps[2]);
    assert v.requests == w.requests[r := Done(Executed(e))];
    assert Valid(v, []) && Run(v, []) == v;
    PrependStep(w2, steps[2], []);
    PrependStep(w1, steps[1], [steps[2]]);
    PrependStep(w, steps[0], [steps[1], steps[2]]);
    assert steps == [steps[0]] + [steps[1], steps[2]];
    assert [steps[1], steps[2]] == [steps[1]] + [steps[2]] && [steps[2]] == [steps[2]] + [];
  }

  lemma PrependStep(w: World, step: Step, rest: seq<Step>)
    requires Enabled(w, step) && Valid(Next(w, step), rest)
    ensures Valid(w, [step] + rest) && Run(w, [step] + rest) == Run(Next(w, step), rest)
  {
    assert ([step] + rest)[1..] == rest;
  }

  lemma {:induction false} RunsInTurn(w: World, a: seq<Step>, b: seq<Step>)
    requires Valid(w, a) && Valid(Run(w, a), b)
    ensures Valid(w, a + b) && Run(w, a + b) == Run(Run(w, a), b)
    decreases |a|
  {
    if a == [] {
      assert a + b == b;
    } else {
      RunsInTurn(Next(w, a[0]), a[1..], b);
      assert (a + b)[1..] == a[1..] + b;
    }
  }

  // ---------------------------------------------------------------- what the store does, by its times

  /** A response is found until its expiry, and removed by a look at it after that. */
  lemma GetMeaning(s: Store, k: Key, now: int)
    ensures var (v, found) := Got(s, k, now);
      && (found.Hit? <==> k in s.items && now <= s.items[k].expiresAt)
      && (found.Hit? ==> found.entry == s.items[k].entry)
      && v.claims == s.claims && v.items == if found.Hit? then s.items else s.items - {k}
  {
  }

  /** A claim is granted exactly when none is unexpired at the reading. It lasts as long as asked, half a minute when
      nothing sensible is asked. */
  lemma ClaimMeaning(s: Store, k: Key, owner: string, ttl: int, now: int)
    ensures var (v, granted) := Claimed(s, k, owner, ttl, now);
      && (granted <==> !(k in s.claims && now < s.claims[k].expiresAt))
      && v.items == s.items
      && v.claims ==
           if granted then s.claims[k := Claim(owner, now + if ttl > 0 then ttl else 30_000_000_000)] else s.claims
  {
  }

  /** A response is kept as long as asked, a day when nothing sensible is asked; a claim is freed by its owner alone. */
  lemma SaveAndReleaseMeaning(s: Store, k: Key, entry: Entry, owner: string, ttl: int, now: int)
    ensures Saved(s, k, entry, ttl, now) ==
      s.(items := s.items[k := Item(entry, now + if ttl > 0 then ttl else 86_400_000_000_000)])
    ensures var v := Released(s, k, owner);
      && v.items == s.items
      && (k in v.claims <==> k in s.claims && s.claims[k].owner != owner)
      && (forall q :: q in v.claims ==> q in s.claims && v.claims[q] == s.claims[q])
      && (forall q :: q in s.claims && q != k ==> q in v.claims)
  {
  }

  /** Only responses below 500 are saved. */
  predicate GoodItem(w: World, k: Key) {
    && (k in w.latest ==> w.latest[k].entry.status < 500)
    && (k in w.store.items ==> w.store.items[k].entry.status < 500)
  }

  /** What a request has been answered: a replayed response is below 500; what an executing request has saved is. */
  predicate GoodRequest(w: World, r: nat) {
    r in w.requests ==>
      match w.requests[r]
      case Done(Replayed(entry)) => entry.status < 500
      case Executing(_, _, _, saved) => forall i :: 0 <= i < |saved| ==> saved[i].status < 500
      case _ => true
  }

  lemma NextKeepsGood(w: World, s: Step, k: Key, r: nat)
    requires Enabled(w, s) && (forall q :: GoodItem(w, q)) && GoodRequest(w, r)
    ensures GoodItem(Next(w, s), k) && GoodRequest(Next(w, s), r)
  {
    assert GoodItem(w, k);
    if s.DoGet? {
      assert GoodItem(w, s.k);
    }
    if s.Poll? {
      assert GoodItem(w, w.requests[s.r].k);
    }
  }

  lemma {:induction false} RunKeepsGood(w: World, steps: seq<Step>)
    requires Valid(w, steps) && (forall k :: GoodItem(w, k)) && forall r :: GoodRequest(w, r)
    ensures forall k :: GoodItem(Run(w, steps), k)
    ensures forall r :: GoodRequest(Run(w, steps), r)
    decreases |steps|
  {
    if steps != [] {
      var v := Next(w, steps[0]);
      forall k ensures GoodItem(v, k) {
        NextKeepsGood(w, steps[0], k, 0);
      }
      forall r ensures GoodRequest(v, r) {
        NextKeepsGood(w, steps[0], Key("", ""), r);
      }
      RunKeepsGood(v, steps[1..]);
    }
  }

  /** In every run, a response of 500 or above is never saved and never replayed. */
  lemma ServerErrorsAreNotReplayed(steps: seq<Step>)
    requires Valid(Start, steps)
    ensures forall k :: GoodItem(Run(Start, steps), k)
    ensures forall r :: GoodRequest(Run(Start, steps), r)
  {
    RunKeepsGood(Start, steps);
  }
}
