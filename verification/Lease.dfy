/** Node leases held in memory (internal/lease/inmemory.go) and the keepalive of the task runner.

    Times and durations are integers (nanoseconds). Every operation receives the clock reading it
    works with; the Go code takes that reading BEFORE it takes the lock, so in the concurrent model a
    reading may be older than the moment the operation commits. */
module Lease {
  import opened Text
  import opened Wrappers

  const Second: int := 1_000_000_000
  const DefaultTtl: int := 90 * Second

  datatype Error = ResourceRequired | OwnerRequired | TokenRequired

  /** What Acquire and Renew answer. */
  datatype Outcome =
    | Granted(token: nat, expiresAt: int)
    | Refused
    | Invalid(error: Error)

  datatype Entry = Entry(owner: string, token: nat, expiresAt: int)

  datatype Table = Table(issued: nat, entries: map<string, Entry>)

  /** The first argument that is missing. */
  function ArgumentError(r: string, o: string, token: nat): Option<Error> {
    if r == "" then Some(ResourceRequired) else if o == "" then Some(OwnerRequired)
    else if token == 0 then Some(TokenRequired) else None
  }

  function EffectiveTtl(ttl: int): int {
    if ttl <= 0 then DefaultTtl else ttl
  }

  // ---------------------------------------------------------------- the operations as functions
  // (on the trimmed names `r` and `o` of the resource and the owner)

  function Acquired(t: Table, r: string, o: string, ttl: int, now: int): (Table, Outcome) {
    if r == "" then (t, Invalid(ResourceRequired))
    else if o == "" then (t, Invalid(OwnerRequired))
    else if r in t.entries && now < t.entries[r].expiresAt then (t, Refused)
    else
      var expiresAt := now + EffectiveTtl(ttl);
      (Table(t.issued + 1, t.entries[r := Entry(o, t.issued + 1, expiresAt)]), Granted(t.issued + 1, expiresAt))
  }

  function Renewed(t: Table, r: string, o: string, token: nat, ttl: int, now: int): (Table, Outcome) {
    if r == "" then (t, Invalid(ResourceRequired))
    else if o == "" then (t, Invalid(OwnerRequired))
    else if token == 0 then (t, Invalid(TokenRequired))
    else if r !in t.entries then (t, Refused)
    else if now > t.entries[r].expiresAt then (t.(entries := t.entries - {r}), Refused)
    else if t.entries[r].owner != o || t.entries[r].token != token then (t, Refused)
    else
      var expiresAt := now + EffectiveTtl(ttl);
      (t.(entries := t.entries[r := t.entries[r].(expiresAt := expiresAt)]), Granted(token, expiresAt))
  }

  function Released(t: Table, r: string, o: string, token: nat): Table {
    if r == "" || o == "" || token == 0 || r !in t.entries then t
    else if t.entries[r].owner != o || t.entries[r].token != token then t
    else t.(entries := t.entries - {r})
  }

  // ---------------------------------------------------------------- the manager object

  class InMemoryManager {
    var issued: nat
    var entries: map<string, Entry>

    constructor ()
      ensures State() == Table(0, map[])
    {
      issued := 0;
      entries := map[];
    }

    function State(): Table
      reads this
    {
      Table(issued, entries)
    }

    method Acquire(resource: string, owner: string, ttl: int, now: int) returns (outcome: Outcome)
      modifies this
      ensures State() == Acquired(old(State()), TrimSpace(resource), TrimSpace(owner), ttl, now).0
      ensures outcome == Acquired(old(State()), TrimSpace(resource), TrimSpace(owner), ttl, now).1
    {
      var r, o := TrimSpace(resource), TrimSpace(owner);
      if r == "" {
        return Invalid(ResourceRequired);
      }
      if o == "" {
        return Invalid(OwnerRequired);
      }
      var life := if ttl <= 0 then DefaultTtl else ttl;
      if r in entries && now < entries[r].expiresAt {
        return Refused;
      }
      issued := issued + 1;
      entries := entries[r := Entry(o, issued, now + life)];
      outcome := Granted(issued, now + life);
    }

    method Release(resource: string, owner: string, token: nat) returns (error: Option<Error>)
      modifies this
      ensures State() == Released(old(State()), TrimSpace(resource), TrimSpace(owner), token)
      ensures error == ArgumentError(TrimSpace(resource), TrimSpace(owner), token)
    {
      var r, o := TrimSpace(resource), TrimSpace(owner);
      if r == "" {
        return Some(ResourceRequired);
      }
      if o == "" {
        return Some(OwnerRequired);
      }
      if token == 0 {
        return Some(TokenRequired);
      }
      error := None;
      if r in entries && entries[r].owner == o && entries[r].token == token {
        entries := entries - {r};
      }
    }

    method Renew(resource: string, owner: string, token: nat, ttl: int, now: int) returns (outcome: Outcome)
      modifies this
      ensures State() == Renewed(old(State()), TrimSpace(resource), TrimSpace(owner), token, ttl, now).0
      ensures outcome == Renewed(old(State()), TrimSpace(resource), TrimSpace(owner), token, ttl, now).1
    {
      var r, o := TrimSpace(resource), TrimSpace(owner);
      if r == "" {
        return Invalid(ResourceRequired);
      }
      if o == "" {
        return Invalid(OwnerRequired);
      }
      if token == 0 {
        return Invalid(TokenRequired);
      }
      var life := if ttl <= 0 then DefaultTtl else ttl;
      if r !in entries {
        return Refused;
      }
      var existing := entries[r];
      if now > existing.expiresAt {
        entries := entries - {r};
        return Refused;
      }
      if existing.owner != o || existing.token != token {
        return Refused;
      }
      existing := existing.(expiresAt := now + life);
      entries := entries[r := existing];
      outcome := Granted(token, now + life);
    }
  }

  // ---------------------------------------------------------------- many clients, stale clocks

  /** What a client knows about a lease it was granted: the last expiry the manager returned for it. */
  datatype Holding = Holding(resource: string, owner: string, expiresAt: int, released: bool)

  datatype Grant = Grant(resource: string, token: nat)

  /** Real time, the manager's table, and the history of grants. */
  datatype World = World(clock: int, table: Table, holdings: map<nat, Holding>, grants: seq<Grant>)

  /** Names are the trimmed ones the operations work with. */
  datatype Op =
    | Tick(to: int)
    | Acquire(r: string, o: string, ttl: int, reading: int)
    | Renew(r: string, o: string, token: nat, ttl: int, reading: int)
    | Release(r: string, o: string, token: nat)

  const Start := World(0, Table(0, map[]), map[], [])

  /** Time moves forward and no reading comes from the future; any client may call anything. */
  predicate Enabled(w: World, op: Op) {
    match op
    case Tick(to) => w.clock <= to
    case Acquire(_, _, _, reading) => reading <= w.clock
    case Renew(_, _, _, _, reading) => reading <= w.clock
    case Release(_, _, _) => true
  }

  function OutcomeOf(w: World, op: Op): Outcome {
    match op
    case Acquire(r, o, ttl, reading) => Acquired(w.table, r, o, ttl, reading).1
    case Renew(r, o, token, ttl, reading) => Renewed(w.table, r, o, token, ttl, reading).1
    case _ => Refused
  }

  function Next(w: World, op: Op): World {
    match op
    case Tick(to) => w.(clock := to)
    case Acquire(r, o, ttl, reading) =>
      var (table, out) := Acquired(w.table, r, o, ttl, reading);
      if out.Granted? then
        w.(table := table,
           holdings := w.holdings[out.token := Holding(r, o, out.expiresAt, false)],
           grants := w.grants + [Grant(r, out.token)])
      else
        w.(table := table)
    case Renew(r, o, token, ttl, reading) =>
      var (table, out) := Renewed(w.table, r, o, token, ttl, reading);
      if out.Granted? then
        w.(table := table,
           holdings := w.holdings[token := Holding(r, o, out.expiresAt, false)])
      else
        w.(table := table)
    case Release(r, o, token) =>
      var given := token in w.holdings && w.holdings[token].resource == r && w.holdings[token].owner == o;
      w.(table := Released(w.table, r, o, token),
         holdings := if given then w.holdings[token := w.holdings[token].(released := true)] else w.holdings)
  }

  function RunFrom(w: World, ops: seq<Op>): World
    decreases |ops|
  {
    if ops == [] then w else RunFrom(Next(w, ops[0]), ops[1..])
  }

  predicate ValidFrom(w: World, ops: seq<Op>)
    decreases |ops|
  {
    ops != [] ==> Enabled(w, ops[0]) && ValidFrom(Next(w, ops[0]), ops[1..])
  }

  /** The holder has not released the lease and its last returned expiry is still in the future. */
  predicate Live(w: World, token: nat) {
    token in w.holdings && !w.holdings[token].released && w.clock < w.holdings[token].expiresAt
  }

  ghost predicate Inv(w: World) {
    && (forall k :: k in w.holdings ==>
        1 <= k <= w.table.issued && w.holdings[k].resource != "" && w.holdings[k].owner != "")
    && (forall r :: r in w.table.entries ==>
         var e := w.table.entries[r];
         e.token in w.holdings && w.holdings[e.token] == Holding(r, e.owner, e.expiresAt, false))
    && (forall k :: Live(w, k) ==>
         var h := w.holdings[k];
         h.resource in w.table.entries && w.table.entries[h.resource].token == k)
  }

  ghost predicate Increasing(w: World) {
    && (forall i :: 0 <= i < |w.grants| ==> 1 <= w.grants[i].token <= w.table.issued)
    && (forall i, j :: 0 <= i < j < |w.grants| ==> w.grants[i].token < w.grants[j].token)
  }

  /** A present entry carries a token granted for its resource, and the largest such token. */
  ghost predicate Largest(w: World, r: string) {
    r in w.table.entries ==>
      && Grant(r, w.table.entries[r].token) in w.grants
      && (forall g :: g in w.grants && g.resource == r ==> g.token <= w.table.entries[r].token)
  }

  ghost predicate Fenced(w: World) {
    Increasing(w) && forall r :: Largest(w, r)
  }

  lemma AcquireKeepsInv(w: World, op: Op)
    requires Inv(w) && Enabled(w, op) && op.Acquire?
    ensures Inv(Next(w, op))
  {
  }

  lemma RenewKeepsInv(w: World, op: Op)
    requires Inv(w) && Enabled(w, op) && op.Renew?
    ensures Inv(Next(w, op))
  {
  }

  lemma ReleaseKeepsInv(w: World, op: Op)
    requires Inv(w) && Enabled(w, op) && op.Release?
    ensures Inv(Next(w, op))
  {
  }

  lemma NextKeepsInv(w: World, op: Op)
    requires Inv(w) && Enabled(w, op)
    ensures Inv(Next(w, op))
  {
    match op
    case Tick(_) =>
      assert forall k :: Live(Next(w, op), k) ==> Live(w, k);
    case Acquire(_, _, _, _) => AcquireKeepsInv(w, op);
    case Renew(_, _, _, _, _) => RenewKeepsInv(w, op);
    case Release(_, _, _) => ReleaseKeepsInv(w, op);
  }

  lemma NextKeepsIncreasing(w: World, op: Op)
    requires Increasing(w)
    ensures Increasing(Next(w, op))
    ensures Next(w, op).grants == w.grants
      || (op.Acquire? && Next(w, op).grants == w.grants + [Grant(op.r, w.table.issued + 1)])
  {
  }

  lemma NextKeepsLargest(w: World, op: Op, r: string)
    requires Increasing(w) && Largest(w, r)
    ensures Largest(Next(w, op), r)
  {
    var v := Next(w, op);
    NextKeepsIncreasing(w, op);
    if r in v.table.entries && v.grants != w.grants {
      forall g | g in v.grants && g.resource == r
        ensures g.token <= v.table.entries[r].token
      {
        assert g in w.grants || g == Grant(op.r, w.table.issued + 1);
      }
    }
  }

  lemma NextKeepsFenced(w: World, op: Op)
    requires Fenced(w)
    ensures Fenced(Next(w, op))
  {
    NextKeepsIncreasing(w, op);
    forall r ensures Largest(Next(w, op), r) {
      NextKeepsLargest(w, op, r);
    }
  }

  lemma {:induction false} RunKeepsInv(w: World, ops: seq<Op>)
    requires Inv(w) && Fenced(w) && ValidFrom(w, ops)
    ensures Inv(RunFrom(w, ops)) && Fenced(RunFrom(w, ops))
    decreases |ops|
  {
    if ops != [] {
      NextKeepsInv(w, ops[0]);
      NextKeepsFenced(w, ops[0]);
      RunKeepsInv(Next(w, ops[0]), ops[1..]);
    }
  }

  /** Exclusion: at any moment of any run, two live holders of one resource hold the same token, and the
      table entry is exactly theirs. Nothing is assumed about the node registry. */
  lemma LeaseExclusion(ops: seq<Op>)
    requires ValidFrom(Start, ops)
    ensures var w := RunFrom(Start, ops);
      forall k :: Live(w, k) ==>
        var h := w.holdings[k];
        && h.resource in w.table.entries
        && w.table.entries[h.resource] == Entry(h.owner, k, h.expiresAt)
        && forall j :: Live(w, j) && w.holdings[j].resource == h.resource ==> j == k
  {
    RunKeepsInv(Start, ops);
  }

  /** Fencing: tokens strictly increase over all grants of all resources, and a present entry carries
      the largest token ever granted for its resource. */
  lemma FencingTokensIncrease(ops: seq<Op>)
    requires ValidFrom(Start, ops)
    ensures var w := RunFrom(Start, ops);
      && (forall i, j :: 0 <= i < j < |w.grants| ==> w.grants[i].token < w.grants[j].token)
      && (forall r :: r in w.table.entries ==> Grant(r, w.table.entries[r].token) in w.grants)
      && (forall g :: g in w.grants && g.resource in w.table.entries ==> g.token <= w.table.entries[g.resource].token)
  {
    RunKeepsInv(Start, ops);
    var w := RunFrom(Start, ops);
    assert forall r :: r in w.table.entries ==> Largest(w, r);
  }

  /** A stale client cannot disturb a newer lease: Renew and Release with another token than that of an
      unexpired entry leave the table as it is and grant nothing. */
  lemma StaleTokenIsHarmless(w: World, r: string, op: Op)
    requires Enabled(w, op) && r in w.table.entries && w.clock < w.table.entries[r].expiresAt
    requires (op.Renew? || op.Release?) && op.r == r && op.token != w.table.entries[r].token
    ensures Next(w, op).table == w.table && !OutcomeOf(w, op).Granted?
  {
  }

  /** A well-formed Acquire is refused exactly while the entry is unexpired at the caller's reading. */
  lemma AcquireRefusedIff(t: Table, r: string, o: string, ttl: int, now: int)
    requires r != "" && o != ""
    ensures var (u, out) := Acquired(t, r, o, ttl, now);
      && (out == Refused <==> r in t.entries && now < t.entries[r].expiresAt)
      && (out != Refused ==>
           && out.Granted? && out.token == t.issued + 1
           && out.expiresAt == now + (if ttl > 0 then ttl else 90_000_000_000)
           && u.entries[r] == Entry(o, out.token, out.expiresAt))
      && (forall q :: q != r ==>
          (q in u.entries <==> q in t.entries) && (q in t.entries ==> u.entries[q] == t.entries[q]))
  {
  }

  /** A well-formed Renew is granted exactly for the owner and token of an entry that is not past its expiry, which it
      moves; it deletes an entry that is past its expiry, and changes nothing else. */
  lemma RenewGrantedIff(t: Table, r: string, o: string, token: nat, ttl: int, now: int)
    requires r != "" && o != "" && token != 0
    ensures var (u, out) := Renewed(t, r, o, token, ttl, now);
      var past := r in t.entries && now > t.entries[r].expiresAt;
      && (out.Granted? <==> r in t.entries && !past && t.entries[r].owner == o && t.entries[r].token == token)
      && (out.Granted? ==>
            && out.token == token && out.expiresAt == now + (if ttl > 0 then ttl else 90_000_000_000)
            && u.entries == t.entries[r := Entry(o, token, out.expiresAt)])
      && (!out.Granted? ==> out == Refused && u.entries == if past then t.entries - {r} else t.entries)
      && u.issued == t.issued
  {
  }

  /** A Release removes exactly the entry of its resource, owner and token. */
  lemma ReleaseRemovesOwn(t: Table, r: string, o: string, token: nat)
    requires r != "" && o != "" && token != 0
    ensures var u := Released(t, r, o, token);
      && (r in u.entries <==> r in t.entries && !(t.entries[r].owner == o && t.entries[r].token == token))
      && (forall q :: q in u.entries ==> q in t.entries && u.entries[q] == t.entries[q])
      && (forall q :: q in t.entries && q != r ==> q in u.entries)
      && u.issued == t.issued
  {
  }

  // ---------------------------------------------------------------- keepalive

  /** Tick interval of the runner's keepalive goroutine (Go's integer division of a positive number). */
  function KeepaliveInterval(ttl: int): int {
    var third := ttl / 3;
    if third < Second / 2 then Second / 2
    else if third > 10 * Second then 10 * Second
    else third
  }

  /** The interval leaves room before the expiry exactly when the lease lasts more than half a second. */
  lemma KeepaliveIntervalBelowTtl(ttl: int)
    requires ttl > 0
    ensures KeepaliveInterval(ttl) < ttl <==> ttl > Second / 2
  {
  }

  /** A third of the lease time in whole nanoseconds, but no less than half a second and no more than ten. */
  lemma KeepaliveIntervalIs(ttl: int)
    requires ttl > 0
    ensures var i := KeepaliveInterval(ttl);
      && 500_000_000 <= i <= 10_000_000_000
      && (1_500_000_000 <= ttl <= 30_000_000_000 ==> 3 * i <= ttl < 3 * i + 3)
      && (ttl < 1_500_000_000 ==> i == 500_000_000)
      && (ttl > 30_000_000_000 ==> i == 10_000_000_000)
  {
  }

  predicate RenewsOwn(op: Op, r: string, o: string, k: nat) {
    op.Renew? && op.r == r && op.o == o && op.token == k
  }

  predicate ReleasesOwn(op: Op, r: string, o: string, k: nat) {
    op.Release? && op.r == r && op.o == o && op.token == k
  }

  predicate AcquiresResource(op: Op, r: string) {
    op.Acquire? && op.r == r && op.o != ""
  }

  /** A run in which every step, and in particular every renewal by the holder of token `k`, commits
      within `ttl` of the reading used by the holder's last success (`last`), and the holder does not
      release. Everybody else may do anything. */
  predicate Timely(w: World, ops: seq<Op>, r: string, o: string, k: nat, ttl: int, last: int)
    decreases |ops|
  {
    ops != [] ==>
      var op := ops[0];
      && Enabled(w, op)
      && !ReleasesOwn(op, r, o, k)
      && (op.Tick? ==> op.to < last + ttl)
      && (RenewsOwn(op, r, o, k) ==> op.ttl == ttl && w.clock < op.reading + ttl)
      && Timely(Next(w, op), ops[1..], r, o, k, ttl, if RenewsOwn(op, r, o, k) then op.reading else last)
  }

  predicate Held(w: World, r: string, o: string, k: nat, ttl: int, last: int) {
    r in w.table.entries && w.table.entries[r] == Entry(o, k, last + ttl) && w.clock < last + ttl
  }

  /** A grant starts such a period, while the clock is within the lease time of the reading. */
  lemma GrantIsHeld(w: World, r: string, o: string, ttl: int, reading: int)
    requires OutcomeOf(w, Acquire(r, o, ttl, reading)).Granted? && ttl > 0 && w.clock < reading + ttl
    ensures var token := OutcomeOf(w, Acquire(r, o, ttl, reading)).token;
      r != "" && o != "" && token > 0 && Held(Next(w, Acquire(r, o, ttl, reading)), r, o, token, ttl, reading)
  {
  }

  /** One step of a timely run: the lease stays held, a renewal by the holder succeeds and another Acquire on the
      resource is refused. */
  lemma TimelyStep(w: World, op: Op, r: string, o: string, k: nat, ttl: int, last: int)
    requires r != "" && o != "" && k > 0 && ttl > 0
    requires Held(w, r, o, k, ttl, last) && Timely(w, [op], r, o, k, ttl, last)
    ensures Held(Next(w, op), r, o, k, ttl, if RenewsOwn(op, r, o, k) then op.reading else last)
    ensures AcquiresResource(op, r) ==> OutcomeOf(w, op) == Refused
    ensures RenewsOwn(op, r, o, k) ==> OutcomeOf(w, op) == Granted(k, op.reading + ttl)
  {
  }

  /** Keepalive holds the node: in a timely run every renewal by the holder succeeds and every other
      Acquire on the resource is refused, however many renewals there are. */
  lemma {:induction false} KeepaliveHoldsLease(w: World, ops: seq<Op>, r: string, o: string, k: nat, ttl: int,
                                               last: int)
    requires r != "" && o != "" && k > 0 && ttl > 0
    requires Held(w, r, o, k, ttl, last) && Timely(w, ops, r, o, k, ttl, last)
    ensures forall i :: 0 <= i < |ops| ==>
      && (AcquiresResource(ops[i], r) ==> OutcomeOf(RunFrom(w, ops[..i]), ops[i]) == Refused)
      && (RenewsOwn(ops[i], r, o, k) ==> OutcomeOf(RunFrom(w, ops[..i]), ops[i]) == Granted(k, ops[i].reading + ttl))
    ensures r in RunFrom(w, ops).table.entries && RunFrom(w, ops).table.entries[r].token == k
    decreases |ops|
  {
    if ops != [] {
      var op, v := ops[0], Next(w, ops[0]);
      var last' := if RenewsOwn(op, r, o, k) then op.reading else last;
      assert Held(v, r, o, k, ttl, last');
      KeepaliveHoldsLease(v, ops[1..], r, o, k, ttl, last');
      forall i | 0 <= i < |ops|
        ensures AcquiresResource(ops[i], r) ==> OutcomeOf(RunFrom(w, ops[..i]), ops[i]) == Refused
        ensures RenewsOwn(ops[i], r, o, k) ==>
            OutcomeOf(RunFrom(w, ops[..i]), ops[i]) == Granted(k, ops[i].reading + ttl)
      {
        if i > 0 {
          assert ops[i] == ops[1..][i - 1];
          assert ops[..i][0] == op && ops[..i][1..] == ops[1..][..i - 1];
        }
      }
    }
  }

  /** The deadline is sharp: once real time reaches the expiry, a rival with an up-to-date reading is
      granted the resource and the former holder's next renewal fails. */
  lemma KeepaliveDeadlineIsSharp(w: World, r: string, o: string, k: nat, rival: string, ttl: int)
    requires r != "" && rival != ""
    requires Inv(w) && r in w.table.entries && w.table.entries[r].owner == o && w.table.entries[r].token == k
    requires w.clock >= w.table.entries[r].expiresAt
    ensures var grab := Acquire(r, rival, ttl, w.clock);
      && Enabled(w, grab) && OutcomeOf(w, grab).Granted?
      && forall reading :: reading <= w.clock ==>
          OutcomeOf(Next(w, grab), Renew(r, o, k, ttl, reading)) != Granted(k, reading + EffectiveTtl(ttl))
  {
  }

  /** A run in which the holder ticks as its keepalive does: the clock never runs further past the reading of its last
      success than the interval and some delay, and its renewals commit within that delay of their readings. */
  predicate Punctual(w: World, ops: seq<Op>, r: string, o: string, k: nat, ttl: int, last: int, delay: int)
    decreases |ops|
  {
    ops != [] ==>
      var op := ops[0];
      && Enabled(w, op)
      && !ReleasesOwn(op, r, o, k)
      && (op.Tick? ==> op.to <= last + KeepaliveInterval(ttl) + delay)
      && (RenewsOwn(op, r, o, k) ==> op.ttl == ttl && w.clock <= op.reading + delay)
      && Punctual(Next(w, op), ops[1..], r, o, k, ttl, if RenewsOwn(op, r, o, k) then op.reading else last, delay)
  }

  /** The keepalive keeps its lease: with renewals every interval, each late by less than what the interval leaves of
      the lease time, a run is timely, so that every renewal succeeds and nobody else is granted the resource. */
  lemma {:induction false} PunctualIsTimely(w: World, ops: seq<Op>, r: string, o: string, k: nat, ttl: int, last: int,
                                            delay: int)
    requires ttl > 0 && 0 <= delay < ttl - KeepaliveInterval(ttl)
    requires Punctual(w, ops, r, o, k, ttl, last, delay)
    ensures Timely(w, ops, r, o, k, ttl, last)
    decreases |ops|
  {
    if ops != [] {
      var last' := if RenewsOwn(ops[0], r, o, k) then ops[0].reading else last;
      PunctualIsTimely(Next(w, ops[0]), ops[1..], r, o, k, ttl, last', delay);
    }
  }
}
