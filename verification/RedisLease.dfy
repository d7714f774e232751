/** Node leases held in Redis (internal/lease/redis.go).

    Acquire is two commands, INCR of a per-resource counter and SET-if-absent with an expiry; other clients
    may run anything in between, including a whole Acquire and Release. Release and Renew are one Lua
    script each, which compares the stored value `owner|token` first. Scripts and single commands are
    atomic. The clock is the server's, in milliseconds; lease durations are in nanoseconds. */
module RedisLease {
  import opened Text
  import opened Wrappers
  import Lease

  const Millisecond: int := 1_000_000

  datatype Hold = Hold(value: string, expiresAt: int)

  /** The two key spaces of the manager, without their prefixes. */
  datatype Server = Server(clock: int, counters: map<string, nat>, holds: map<string, Hold>)

  /** The stored value: owner, bar, decimal token. */
  function LeaseValue(owner: string, token: nat): string {
    owner + "|" + Itoa(token)
  }

  lemma LeaseValueInjective(o1: string, t1: nat, o2: string, t2: nat)
    requires LeaseValue(o1, t1) == LeaseValue(o2, t2)
    ensures o1 == o2 && t1 == t2
  {
    BarNumberInjective(o1, t1, o2, t2);
  }

  // ---------------------------------------------------------------- atomic server steps

  /** A key exists while its deadline has not been reached. */
  predicate Present(s: Server, r: string) {
    r in s.holds && s.clock < s.holds[r].expiresAt
  }

  function Count(s: Server, r: string): nat {
    if r in s.counters then s.counters[r] else 0
  }

  function Incr(s: Server, r: string): (Server, nat) {
    (s.(counters := s.counters[r := Count(s, r) + 1]), Count(s, r) + 1)
  }

  /** SET NX PX; the Redis driver never asks for less than one millisecond. */
  function SetNx(s: Server, r: string, value: string, ttl: int): (Server, bool)
    requires ttl > 0
  {
    if Present(s, r) then (s, false)
    else
      var ms := if ttl < Millisecond then 1 else ttl / Millisecond;
      (s.(holds := s.holds[r := Hold(value, s.clock + ms)]), true)
  }

  /** Compare-and-delete. */
  function ReleaseScript(s: Server, r: string, value: string): (Server, nat) {
    if Present(s, r) && s.holds[r].value == value then (s.(holds := s.holds - {r}), 1) else (s, 0)
  }

  /** Compare-and-expire: PEXPIRE with a non-positive time deletes the key, and still answers 1. */
  function RenewScript(s: Server, r: string, value: string, ms: int): (Server, nat) {
    if Present(s, r) && s.holds[r].value == value then
      (s.(holds := if ms <= 0 then s.holds - {r} else s.holds[r := Hold(value, s.clock + ms)]), 1)
    else (s, 0)
  }

  function RenewMs(ttl: int): int
    requires ttl > 0
  {
    ttl / Millisecond
  }

  // ---------------------------------------------------------------- the manager, calling one server

  class RedisManager {
    var server: Server

    constructor (s: Server)
      ensures server == s
    {
      server := s;
    }

    /** An Acquire that no other client interrupts; `now` is the client's clock after the reply. */
    method Acquire(resource: string, owner: string, ttl: int, now: int) returns (outcome: Lease.Outcome)
      modifies this
      ensures var r, o := TrimSpace(resource), TrimSpace(owner);
        if r == "" then outcome == Lease.Invalid(Lease.ResourceRequired) && server == old(server)
        else if o == "" then outcome == Lease.Invalid(Lease.OwnerRequired) && server == old(server)
        else
          var (counted, token) := Incr(old(server), r);
          && server == SetNx(counted, r, LeaseValue(o, token), Lease.EffectiveTtl(ttl)).0
          && outcome ==
               if Present(old(server), r) then Lease.Refused else Lease.Granted(token, now + Lease.EffectiveTtl(ttl))
    {
      var r, o := TrimSpace(resource), TrimSpace(owner);
      if r == "" {
        return Lease.Invalid(Lease.ResourceRequired);
      }
      if o == "" {
        return Lease.Invalid(Lease.OwnerRequired);
      }
      var life := if ttl <= 0 then Lease.DefaultTtl else ttl;
      var (counted, token) := Incr(server, r);
      server := counted;
      var (after, acquired) := SetNx(server, r, o + "|" + Itoa(token), life);
      server := after;
      outcome := if acquired then Lease.Granted(token, now + life) else Lease.Refused;
    }

    method Release(resource: string, owner: string, token: nat) returns (error: Option<Lease.Error>)
      modifies this
      ensures var r, o := TrimSpace(resource), TrimSpace(owner);
        && error == Lease.ArgumentError(r, o, token)
        && server == if error.Some? then old(server) else ReleaseScript(old(server), r, LeaseValue(o, token)).0
    {
      var r, o := TrimSpace(resource), TrimSpace(owner);
      if r == "" {
        return Some(Lease.ResourceRequired);
      }
      if o == "" {
        return Some(Lease.OwnerRequired);
      }
      if token == 0 {
        return Some(Lease.TokenRequired);
      }
      var (after, _) := ReleaseScript(server, r, o + "|" + Itoa(token));
      server := after;
      error := None;
    }

    method Renew(resource: string, owner: string, token: nat, ttl: int, now: int) returns (outcome: Lease.Outcome)
      modifies this
      ensures var r, o := TrimSpace(resource), TrimSpace(owner);
        var error := Lease.ArgumentError(r, o, token);
        if error.Some? then outcome == Lease.Invalid(error.value) && server == old(server)
        else
          var (after, n) := RenewScript(old(server), r, LeaseValue(o, token), RenewMs(Lease.EffectiveTtl(ttl)));
          && server == after
          && outcome == if n == 0 then Lease.Refused else Lease.Granted(token, now + Lease.EffectiveTtl(ttl))
    {
      var r, o := TrimSpace(resource), TrimSpace(owner);
      if r == "" {
        return Lease.Invalid(Lease.ResourceRequired);
      }
      if o == "" {
        return Lease.Invalid(Lease.OwnerRequired);
      }
      if token == 0 {
        return Lease.Invalid(Lease.TokenRequired);
      }
      var life := if ttl <= 0 then Lease.DefaultTtl else ttl;
      var (after, renewed) := RenewScript(server, r, o + "|" + Itoa(token), life / Millisecond);
      server := after;
      outcome := if renewed == 0 then Lease.Refused else Lease.Granted(token, now + life);
    }
  }

  /** A renewal that reports success keeps the key exactly when it asks for at least one millisecond. */
  lemma RenewKeepsKeyIff(s: Server, r: string, value: string, ttl: int)
    requires ttl > 0 && RenewScript(s, r, value, RenewMs(ttl)).1 == 1
    ensures Present(RenewScript(s, r, value, RenewMs(ttl)).0, r) <==> ttl >= Millisecond
  {
  }

  // ---------------------------------------------------------------- many clients

  datatype GrantId = GrantId(resource: string, token: nat)

  /** A grant, with the server-side deadline it was last given. */
  datatype Grant = Grant(owner: string, expiresAt: int, released: bool)

  /** An Acquire between its INCR and its SET. */
  datatype Pending = Pending(id: GrantId, owner: string, ttl: int)

  datatype World = World(
    server: Server,
    pending: map<nat, Pending>,
    grants: map<GrantId, Grant>,
    holder: map<string, nat>,      // token of the grant that made the hold key
    order: seq<GrantId>)           // grants in the order of their SETs

  datatype Step =
    | Tick(to: int)
    | BeginAcquire(client: nat, r: string, o: string, ttl: int)
    | EndAcquire(client: nat)
    | Renew(r: string, o: string, token: nat, ttl: int)
    | Release(r: string, o: string, token: nat)

  const Start := World(Server(0, map[], map[]), map[], map[], map[], [])

  predicate Enabled(w: World, s: Step) {
    match s
    case Tick(to) => w.server.clock <= to
    case BeginAcquire(client, _, _, ttl) => client !in w.pending && ttl > 0
    case EndAcquire(client) => client in w.pending && w.pending[client].ttl > 0
    case Renew(_, _, _, ttl) => ttl > 0
    case Release(_, _, _) => true
  }

  function Next(w: World, s: Step): World
    requires Enabled(w, s)
  {
    match s
    case Tick(to) => w.(server := w.server.(clock := to))
    case BeginAcquire(client, r, o, ttl) =>
      var (server, token) := Incr(w.server, r);
      w.(server := server, pending := w.pending[client := Pending(GrantId(r, token), o, ttl)])
    case EndAcquire(client) =>
      var p := w.pending[client];
      var (server, acquired) := SetNx(w.server, p.id.resource, LeaseValue(p.owner, p.id.token), p.ttl);
      if acquired then
        World(server, w.pending - {client},
              w.grants[p.id := Grant(p.owner, server.holds[p.id.resource].expiresAt, false)],
              w.holder[p.id.resource := p.id.token], w.order + [p.id])
      else w.(pending := w.pending - {client})
    case Renew(r, o, token, ttl) =>
      var (server, n) := RenewScript(w.server, r, LeaseValue(o, token), RenewMs(ttl));
      var id := GrantId(r, token);
      if n == 1 && id in w.grants then
        w.(server := server, grants := w.grants[id := w.grants[id].(expiresAt := w.server.clock + RenewMs(ttl))])
      else w.(server := server)
    case Release(r, o, token) =>
      var (server, _) := ReleaseScript(w.server, r, LeaseValue(o, token));
      var id := GrantId(r, token);
      if id in w.grants && w.grants[id].owner == o then
        w.(server := server, grants := w.grants[id := w.grants[id].(released := true)])
      else w.(server := server)
  }

  predicate Valid(w: World, steps: seq<Step>)
    decreases |steps|
  {
    steps != [] ==> Enabled(w, steps[0]) && Valid(Next(w, steps[0]), steps[1..])
  }

  function Run(w: World, steps: seq<Step>): World
    requires Valid(w, steps)
    decreases |steps|
  {
    if steps == [] then w else Run(Next(w, steps[0]), steps[1..])
  }

  predicate Live(w: World, id: GrantId) {
    id in w.grants && !w.grants[id].released && w.server.clock < w.grants[id].expiresAt
  }

  // ---------------------------------------------------------------- invariant

  /** A waiting token has been counted, is not granted yet, and no other client waits with it. */
  ghost predicate PendingOk(w: World, c: nat) {
    c in w.pending ==>
      var id := w.pending[c].id;
      && 1 <= id.token <= Count(w.server, id.resource)
      && id !in w.grants
      && forall d :: d in w.pending && w.pending[d].id == id ==> c == d
  }

  ghost predicate TokensOk(w: World) {
    && (forall c :: PendingOk(w, c))
    && (forall id :: id in w.grants ==> 1 <= id.token <= Count(w.server, id.resource))
  }

  /** A present hold key was made by a grant, carries its value and deadline, and that grant is not released. */
  predicate HoldOk(w: World, r: string) {
    Present(w.server, r) ==>
      && r in w.holder
      && var id := GrantId(r, w.holder[r]);
      && id in w.grants && !w.grants[id].released
      && w.server.holds[r] == Hold(LeaseValue(w.grants[id].owner, id.token), w.grants[id].expiresAt)
  }

  predicate GrantOk(w: World, id: GrantId) {
    Live(w, id) ==> Present(w.server, id.resource) && id.resource in w.holder && w.holder[id.resource] == id.token
  }

  ghost predicate Inv(w: World) {
    TokensOk(w) && (forall r :: HoldOk(w, r)) && (forall id :: GrantOk(w, id))
  }

  lemma NextCounts(w: World, s: Step, r: string)
    requires Enabled(w, s)
    ensures Count(Next(w, s).server, r) == Count(w.server, r) + if s.BeginAcquire? && s.r == r then 1 else 0
  {
  }

  lemma NextKeepsPending(w: World, s: Step, c: nat)
    requires TokensOk(w) && Enabled(w, s)
    ensures PendingOk(Next(w, s), c)
  {
    var v := Next(w, s);
    if c in v.pending {
      var id := v.pending[c].id;
      NextCounts(w, s, id.resource);
      assert PendingOk(w, c);
      if s.EndAcquire? {
        assert PendingOk(w, s.client);
      }
      forall d | d in v.pending && v.pending[d].id == id ensures c == d {
        assert PendingOk(w, d);
      }
    }
  }

  lemma NextKeepsTokens(w: World, s: Step)
    requires TokensOk(w) && Enabled(w, s)
    ensures TokensOk(Next(w, s))
  {
    var v := Next(w, s);
    forall c ensures PendingOk(v, c) {
      NextKeepsPending(w, s, c);
    }
    forall id | id in v.grants ensures 1 <= id.token <= Count(v.server, id.resource) {
      NextCounts(w, s, id.resource);
      if s.EndAcquire? {
        assert PendingOk(w, s.client);
      }
    }
  }

  /** A compare script takes effect only on the caller's own, present lease: this is where `owner|token`
      must be injective. */
  lemma ScriptMatchIsOwn(w: World, r: string, o: string, token: nat)
    requires HoldOk(w, r) && Present(w.server, r) && w.server.holds[r].value == LeaseValue(o, token)
    ensures w.holder[r] == token && w.grants[GrantId(r, token)].owner == o
  {
    LeaseValueInjective(w.grants[GrantId(r, w.holder[r])].owner, w.holder[r], o, token);
  }

  lemma NextKeepsHold(w: World, s: Step, r: string)
    requires TokensOk(w) && HoldOk(w, r) && Enabled(w, s)
    ensures HoldOk(Next(w, s), r)
  {
    if (s.Renew? || s.Release?) && s.r == r && Present(w.server, r)
       && w.server.holds[r].value == LeaseValue(s.o, s.token) {
      ScriptMatchIsOwn(w, r, s.o, s.token);
    }
  }

  lemma NextKeepsGrant(w: World, s: Step, id: GrantId)
    requires TokensOk(w) && HoldOk(w, id.resource) && GrantOk(w, id) && Enabled(w, s)
    ensures GrantOk(Next(w, s), id)
  {
    var r := id.resource;
    if (s.Renew? || s.Release?) && s.r == r && Present(w.server, r)
       && w.server.holds[r].value == LeaseValue(s.o, s.token) {
      ScriptMatchIsOwn(w, r, s.o, s.token);
    }
  }

  lemma NextKeepsInv(w: World, s: Step)
    requires Inv(w) && Enabled(w, s)
    ensures Inv(Next(w, s))
  {
    NextKeepsTokens(w, s);
    forall r ensures HoldOk(Next(w, s), r) {
      NextKeepsHold(w, s, r);
    }
    forall id ensures GrantOk(Next(w, s), id) {
      NextKeepsGrant(w, s, id);
    }
  }

  lemma {:induction false} RunKeepsInv(w: World, steps: seq<Step>)
    requires Inv(w) && Valid(w, steps)
    ensures Inv(Run(w, steps))
    decreases |steps|
  {
    if steps != [] {
      NextKeepsInv(w, steps[0]);
      RunKeepsInv(Next(w, steps[0]), steps[1..]);
    }
  }

  // ---------------------------------------------------------------- theorems

  /** The hold key exists and carries this grant's value and deadline. */
  predicate StoredExactly(w: World, id: GrantId)
    requires id in w.grants
  {
    && Present(w.server, id.resource)
    && w.server.holds[id.resource] == Hold(LeaseValue(w.grants[id].owner, id.token), w.grants[id].expiresAt)
  }

  /** Exclusion on the server: with INCRs and SETs of any number of clients interleaved in any way and keys
      expiring, two grants of one resource never store the same value, at most one is live, and the stored
      value is exactly that one's. */
  lemma RedisExclusion(steps: seq<Step>)
    requires Valid(Start, steps)
    ensures var w := Run(Start, steps);
      && (forall i, j :: i in w.grants && j in w.grants && i.resource == j.resource && i != j ==>
            LeaseValue(w.grants[i].owner, i.token) != LeaseValue(w.grants[j].owner, j.token))
      && (forall i, j :: Live(w, i) && Live(w, j) && i.resource == j.resource ==> i == j)
      && (forall i :: Live(w, i) ==> StoredExactly(w, i))
  {
    RunKeepsInv(Start, steps);
    var w := Run(Start, steps);
    forall i, j | i in w.grants && j in w.grants && i.resource == j.resource && i != j
      ensures LeaseValue(w.grants[i].owner, i.token) != LeaseValue(w.grants[j].owner, j.token)
    {
      if LeaseValue(w.grants[i].owner, i.token) == LeaseValue(w.grants[j].owner, j.token) {
        LeaseValueInjective(w.grants[i].owner, i.token, w.grants[j].owner, j.token);
      }
    }
    forall i, j | Live(w, i) && Live(w, j) && i.resource == j.resource
      ensures i == j
    {
      assert GrantOk(w, i) && GrantOk(w, j);
    }
    forall i | Live(w, i)
      ensures StoredExactly(w, i)
    {
      assert GrantOk(w, i) && HoldOk(w, i.resource);
    }
  }

  /** In every reachable state, a Release or Renew that is not the live holder's own leaves a live lease
      exactly as it is, and no SET replaces it. */
  lemma OnlyHolderTouchesLease(w: World, id: GrantId, s: Step)
    requires Inv(w) && Live(w, id) && Enabled(w, s) && !s.Tick?
    requires (s.Renew? || s.Release?) && s.r == id.resource ==> !(s.o == w.grants[id].owner && s.token == id.token)
    ensures Live(Next(w, s), id) && Next(w, s).grants[id] == w.grants[id]
    ensures StoredExactly(w, id) && StoredExactly(Next(w, s), id)
    ensures Next(w, s).order == w.order || Next(w, s).order[|w.order|].resource != id.resource
  {
    assert GrantOk(w, id) && HoldOk(w, id.resource);
    if (s.Renew? || s.Release?) && s.r == id.resource && w.server.holds[s.r].value == LeaseValue(s.o, s.token) {
      ScriptMatchIsOwn(w, s.r, s.o, s.token);
    }
  }

  /** Tokens do not grow in the order of the grants: a client that is overtaken between its INCR and its
      SET by a whole Acquire and Release of another is granted the smaller token last. */
  lemma GrantOrderIsNotTokenOrder(r: string, a: string, b: string)
    ensures var steps := [BeginAcquire(1, r, a, Millisecond), BeginAcquire(2, r, b, Millisecond), EndAcquire(2),
                          Release(r, b, 2), EndAcquire(1)];
      Valid(Start, steps) && Run(Start, steps).order == [GrantId(r, 2), GrantId(r, 1)]
  {
    var w1 := Next(Start, BeginAcquire(1, r, a, Millisecond));
    var w2 := Next(w1, BeginAcquire(2, r, b, Millisecond));
    var w3 := Next(w2, EndAcquire(2));
    var w4 := Next(w3, Release(r, b, 2));
    assert !Present(w4.server, r);
    var w5 := Next(w4, EndAcquire(1));
    assert w5.order == [GrantId(r, 2)] + [GrantId(r, 1)];
    RunOfFive(Start, BeginAcquire(1, r, a, Millisecond), BeginAcquire(2, r, b, Millisecond), EndAcquire(2),
              Release(r, b, 2), EndAcquire(1));
  }

  lemma RunOfFive(w: World, a: Step, b: Step, c: Step, d: Step, e: Step)
    requires Enabled(w, a) && Enabled(Next(w, a), b) && Enabled(Next(Next(w, a), b), c)
    requires Enabled(Next(Next(Next(w, a), b), c), d)
    requires Enabled(Next(Next(Next(Next(w, a), b), c), d), e)
    ensures Valid(w, [a, b, c, d, e])
    ensures Run(w, [a, b, c, d, e]) == Next(Next(Next(Next(Next(w, a), b), c), d), e)
  {
    var w1 := Next(w, a);
    var w2 := Next(w1, b);
    var w3 := Next(w2, c);
    var w4 := Next(w3, d);
    PrependStep(w4, e, []);
    PrependStep(w3, d, [e]);
    PrependStep(w2, c, [d, e]);
    PrependStep(w1, b, [c, d, e]);
    PrependStep(w, a, [b, c, d, e]);
    assert [e] + [] == [e] && [d] + [e] == [d, e] && [c] + [d, e] == [c, d, e];
    assert [b] + [c, d, e] == [b, c, d, e] && [a] + [b, c, d, e] == [a, b, c, d, e];
  }

  lemma PrependStep(w: World, step: Step, rest: seq<Step>)
    requires Enabled(w, step) && Valid(Next(w, step), rest)
    ensures Valid(w, [step] + rest) && Run(w, [step] + rest) == Run(Next(w, step), rest)
  {
    assert ([step] + rest)[1..] == rest;
  }

  /** A grant whose INCR is still the resource's latest gets a larger token than every grant before it. */
  lemma UninterruptedGrantIsLargest(w: World, client: nat)
    requires Inv(w) && Enabled(w, EndAcquire(client))
    requires w.pending[client].id.token == Count(w.server, w.pending[client].id.resource)
    ensures forall id :: id in w.grants && id.resource == w.pending[client].id.resource ==>
        id.token < w.pending[client].id.token
  {
    assert PendingOk(w, client);
  }

  ghost predicate HasLarger(w: World, id: GrantId) {
    exists g :: g in w.grants && g.resource == id.resource && g.token > id.token
  }

  /** The step grants the resource to a client with a larger token. */
  predicate Overtakes(w: World, s: Step, id: GrantId)
    requires Enabled(w, s)
  {
    && s.EndAcquire? && w.pending[s.client].id in Next(w, s).grants
    && w.pending[s.client].id.resource == id.resource && w.pending[s.client].id.token > id.token
  }

  predicate OvertakenIn(w: World, steps: seq<Step>, id: GrantId)
    requires Valid(w, steps)
    decreases |steps|
  {
    steps != [] && (Overtakes(w, steps[0], id) || OvertakenIn(Next(w, steps[0]), steps[1..], id))
  }

  lemma LargerNext(w: World, s: Step, id: GrantId)
    requires Inv(w) && Enabled(w, s)
    ensures HasLarger(Next(w, s), id) <==> HasLarger(w, id) || Overtakes(w, s, id)
  {
    if s.EndAcquire? {
      assert PendingOk(w, s.client);
    }
    forall g | g in w.grants ensures g in Next(w, s).grants {
    }
    forall g | g in Next(w, s).grants && g !in w.grants ensures s.EndAcquire? && g == w.pending[s.client].id {
    }
    if Overtakes(w, s, id) {
      assert w.pending[s.client].id in Next(w, s).grants;
    }
  }

  lemma {:induction false} LargerIff(w: World, steps: seq<Step>, id: GrantId)
    requires Inv(w) && Valid(w, steps)
    ensures HasLarger(Run(w, steps), id) <==> HasLarger(w, id) || OvertakenIn(w, steps, id)
    decreases |steps|
  {
    if steps != [] {
      LargerNext(w, steps[0], id);
      NextKeepsInv(w, steps[0]);
      LargerIff(Next(w, steps[0]), steps[1..], id);
    }
  }

  /** The order of tokens and grants, exactly: after an Acquire has begun and any further steps, a larger token of
      its resource has been granted if and only if a client that began later was granted in these steps. */
  lemma LargerGrantIffOvertaken(before: seq<Step>, begin: Step, steps: seq<Step>)
    requires Valid(Start, before) && begin.BeginAcquire? && Enabled(Run(Start, before), begin)
    requires Valid(Next(Run(Start, before), begin), steps)
    ensures var w := Next(Run(Start, before), begin);
      var id := w.pending[begin.client].id;
      HasLarger(Run(w, steps), id) <==> OvertakenIn(w, steps, id)
  {
    RunKeepsInv(Start, before);
    var u := Run(Start, before);
    var w := Next(u, begin);
    NextKeepsInv(u, begin);
    NextCounts(u, begin, begin.r);
    LargerIff(w, steps, w.pending[begin.client].id);
  }

  // ---------------------------------------------------------------- how long a lease lasts

  /** `ms` is the number of whole milliseconds in `ttl`. */
  predicate WholeMillis(ms: int, ttl: int) {
    ms * 1_000_000 <= ttl < (ms + 1) * 1_000_000
  }

  /** A granted SET stores the owner and token until the server clock has advanced by the whole milliseconds of the
      requested time, by one when there are none; a Renew of the own value until they have passed once more. Neither
      touches another resource. */
  lemma LeaseLastsAsRequested(s: Server, r: string, o: string, token: nat, ttl: int, ms: int)
    requires ttl > 0 && WholeMillis(ms, ttl)
    ensures var (v, granted) := SetNx(s, r, o + "|" + Itoa(token), ttl);
      && (granted <==> !(r in s.holds && s.clock < s.holds[r].expiresAt))
      && v.clock == s.clock && v.counters == s.counters
      && (granted ==>
            v.holds == s.holds[r := Hold(o + "|" + Itoa(token), s.clock + if ms < 1 then 1 else ms)])
      && (!granted ==> v == s)
    ensures var (v, n) := RenewScript(s, r, o + "|" + Itoa(token), RenewMs(ttl));
      && (n == 1 <==> Present(s, r) && s.holds[r].value == o + "|" + Itoa(token))
      && v.clock == s.clock && v.counters == s.counters
      && (n == 1 && ms >= 1 ==>
            r in v.holds && v.holds == s.holds[r := Hold(o + "|" + Itoa(token), s.clock + ms)])
      && (n == 1 && ms < 1 ==> v.holds == s.holds - {r})
      && (n != 1 ==> v == s)
  {
    WholeMillisAre(ttl, ms);
  }

  lemma WholeMillisAre(ttl: int, ms: int)
    requires ttl > 0 && WholeMillis(ms, ttl)
    ensures ms == ttl / Millisecond && ms >= 0 && (ms < 1 <==> ttl < Millisecond)
  {
  }

  /** The key of `r` carries the value of owner `o` and token `k` until `until`, which is still to come. */
  predicate Held(w: World, r: string, o: string, k: nat, until: int) {
    Present(w.server, r) && w.server.holds[r] == Hold(LeaseValue(o, k), until)
  }

  predicate RenewsOwn(s: Step, r: string, o: string, k: nat) {
    s.Renew? && s.r == r && s.o == o && s.token == k
  }

  predicate ReleasesOwn(s: Step, r: string, o: string, k: nat) {
    s.Release? && s.r == r && s.o == o && s.token == k
  }

  /** A run in which the clock never reaches the deadline `until`, the holder does not release, and its renewals ask
      for `ms` whole milliseconds, which move the deadline. Everybody else may do anything. */
  predicate Timely(w: World, steps: seq<Step>, r: string, o: string, k: nat, ms: int, until: int)
    requires Valid(w, steps)
    decreases |steps|
  {
    steps != [] ==>
      var s := steps[0];
      var renews := RenewsOwn(s, r, o, k);
      && (s.Tick? ==> s.to < until)
      && !ReleasesOwn(s, r, o, k)
      && (renews ==> WholeMillis(ms, s.ttl))
      && Timely(Next(w, s), steps[1..], r, o, k, ms, if renews then w.server.clock + ms else until)
  }

  lemma HeldNext(w: World, s: Step, r: string, o: string, k: nat, ms: int, until: int)
    requires Enabled(w, s) && Held(w, r, o, k, until) && ms >= 1
    requires s.Tick? ==> s.to < until
    requires !ReleasesOwn(s, r, o, k)
    requires RenewsOwn(s, r, o, k) ==> WholeMillis(ms, s.ttl)
    ensures var renews := RenewsOwn(s, r, o, k);
      Held(Next(w, s), r, o, k, if renews then w.server.clock + ms else until)
    ensures RenewsOwn(s, r, o, k) ==>
      RenewScript(w.server, r, LeaseValue(o, k), RenewMs(s.ttl)).1 == 1
    ensures s.EndAcquire? && w.pending[s.client].id.resource == r ==>
      Next(w, s).grants == w.grants && Next(w, s).order == w.order
  {
    if (s.Renew? || s.Release?) && s.r == r && LeaseValue(s.o, s.token) == LeaseValue(o, k) {
      LeaseValueInjective(s.o, s.token, o, k);
    }
    if s.Renew? {
      if s.r == r && s.o == o && s.token == k {
        WholeMillisAre(s.ttl, ms);
      }
    }
  }

  /** Keepalive on Redis: while the deadline is not reached, the holder does not release and renews for at least a
      millisecond, every one of its renewals succeeds and every SET of another client on the resource is refused,
      however many steps there are. */
  lemma {:induction false} RenewalsHoldLease(w: World, steps: seq<Step>, r: string, o: string, k: nat, ms: int,
                                             until: int)
    requires Valid(w, steps) && Held(w, r, o, k, until) && ms >= 1 && Timely(w, steps, r, o, k, ms, until)
    ensures forall i :: 0 <= i < |steps| ==> Valid(w, steps[..i]) && StepOk(Run(w, steps[..i]), steps[i], r, o, k)
    ensures Present(Run(w, steps).server, r) && Run(w, steps).server.holds[r].value == LeaseValue(o, k)
    decreases |steps|
  {
    if steps != [] {
      var s := steps[0];
      var renews := RenewsOwn(s, r, o, k);
      HeldNext(w, s, r, o, k, ms, until);
      RenewalsHoldLease(Next(w, s), steps[1..], r, o, k, ms, if renews then w.server.clock + ms else until);
      forall i | 0 <= i < |steps| ensures Valid(w, steps[..i]) && StepOk(Run(w, steps[..i]), steps[i], r, o, k) {
        if i > 0 {
          assert steps[..i] == [s] + steps[1..][..i - 1];
          PrependStep(w, s, steps[1..][..i - 1]);
          assert steps[i] == steps[1..][i - 1];
        }
      }
    }
  }

  /** A renewal by the holder succeeds; another client's SET is refused. */
  predicate StepOk(w: World, s: Step, r: string, o: string, k: nat) {
    Enabled(w, s) &&
    match s
    case Renew(r', o', k', ttl) =>
      r' == r && o' == o && k' == k ==> RenewScript(w.server, r, LeaseValue(o, k), RenewMs(ttl)).1 == 1
    case EndAcquire(client) =>
      w.pending[client].id.resource == r ==> Next(w, s).grants == w.grants && Next(w, s).order == w.order
    case _ => true
  }

  /** A granted SET starts such a period: for a requested time of `ms` whole milliseconds the lease is held until the
      server clock has advanced by them. */
  lemma GrantIsHeld(w: World, client: nat, ms: int)
    requires Enabled(w, EndAcquire(client)) && WholeMillis(ms, w.pending[client].ttl) && ms >= 1
    requires !Present(w.server, w.pending[client].id.resource)
    ensures var p := w.pending[client];
      Held(Next(w, EndAcquire(client)), p.id.resource, p.owner, p.id.token, w.server.clock + ms)
  {
    WholeMillisAre(w.pending[client].ttl, ms);
  }
}
