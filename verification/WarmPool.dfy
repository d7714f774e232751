/** The warm pool: the node registry (internal/pool/registry.go) and the reconcile pass of the pool manager
    (internal/pool/manager.go). Times are integers; 0 is Go's zero time. */
module WarmPool {
  import opened Text
  import opened Wrappers
  import opened Math

  datatype NodeState = Warming | Ready | Leased | Draining | Dead

  datatype Node = Node(
    id: string, address: string, version: string, state: NodeState, bootedAt: int, lastHeartbeat: int,
    leasedUntil: int, createdAt: int, updatedAt: int)

  type Nodes = map<string, Node>

  datatype RegistryError = NodeIdRequired | AddressRequired | NodeNotFound

  // ---------------------------------------------------------------- the registry

  function Registered(nodes: Nodes, id: string, address: string, version: string, booted: int, now: int): Nodes {
    var existing := if id in nodes then nodes[id] else Node(id, "", "", Ready, 0, 0, 0, now, 0);
    nodes[id := existing.(address := address, version := version, bootedAt := if booted == 0 then now else booted,
                          state := Ready, lastHeartbeat := now, leasedUntil := 0, updatedAt := now)]
  }

  /** A Ready heartbeat does not revive a draining or dead node; any other heartbeat sets its state. */
  function BeatState(was: NodeState, sent: NodeState): NodeState {
    if sent == Ready && (was == Draining || was == Dead) then was else sent
  }

  function Beaten(n: Node, sent: NodeState, at: int, leasedUntil: int): Node {
    var state := BeatState(n.state, sent);
    n.(state := state, lastHeartbeat := at, updatedAt := at,
       leasedUntil := if state != Leased then 0 else if leasedUntil != 0 then leasedUntil else n.leasedUntil)
  }

  function Placed(n: Node, state: NodeState, at: int): Node {
    n.(state := state, lastHeartbeat := at, updatedAt := at,
       leasedUntil := if state != Leased then 0 else n.leasedUntil)
  }

  /** Nodes are kept under their own id. */
  predicate KeysOk(nodes: Nodes) {
    forall id :: id in nodes ==> nodes[id].id == id
  }

  /** Ids in the registry are trimmed, so that trimming them again changes nothing. */
  predicate KeysTrimmed(nodes: Nodes) {
    forall id :: id in nodes ==> id != "" && TrimSpace(id) == id
  }

  class InMemoryRegistry {
    var nodes: Nodes

    constructor ()
      ensures nodes == map[]
    {
      nodes := map[];
    }

    method Register(nodeId: string, address: string, version: string, booted: int, now: int)
      returns (error: Option<RegistryError>)
      requires KeysOk(nodes) && KeysTrimmed(nodes)
      modifies this
      ensures KeysOk(nodes) && KeysTrimmed(nodes)
      ensures var id, a := TrimSpace(nodeId), TrimSpace(address);
        if id == "" then error == Some(NodeIdRequired) && nodes == old(nodes)
        else if a == "" then error == Some(AddressRequired) && nodes == old(nodes)
        else error == None && nodes == Registered(old(nodes), id, a, TrimSpace(version), booted, now)
    {
      var id := TrimSpace(nodeId);
      if id == "" {
        return Some(NodeIdRequired);
      }
      var where := TrimSpace(address);
      if where == "" {
        return Some(AddressRequired);
      }
      TrimSpaceTrims(nodeId);
      var bootedAt := if booted == 0 then now else booted;
      var existing := if id in nodes then nodes[id] else Node(id, "", "", Ready, 0, 0, 0, now, 0);
      existing := existing.(address := where, version := TrimSpace(version), bootedAt := bootedAt, state := Ready);
      existing := existing.(lastHeartbeat := now, leasedUntil := 0, updatedAt := now);
      nodes := nodes[id := existing];
      error := None;
    }

    method Heartbeat(nodeId: string, sent: NodeState, at: int, leasedUntil: int, now: int)
      returns (error: Option<RegistryError>)
      modifies this
      ensures var id := TrimSpace(nodeId);
        if id == "" then error == Some(NodeIdRequired) && nodes == old(nodes)
        else if id !in old(nodes) then error == Some(NodeNotFound) && nodes == old(nodes)
        else
          && error == None
          && nodes == old(nodes)[id := Beaten(old(nodes)[id], sent, if at == 0 then now else at, leasedUntil)]
    {
      var id := TrimSpace(nodeId);
      if id == "" {
        return Some(NodeIdRequired);
      }
      if id !in nodes {
        return Some(NodeNotFound);
      }
      Beat(id, sent, if at == 0 then now else at, leasedUntil);
      error := None;
    }

    /** The update of a heartbeat, for an id as it is stored. */
    method Beat(id: string, sent: NodeState, at: int, leasedUntil: int)
      requires id in nodes
      modifies this
      ensures nodes == old(nodes)[id := Beaten(old(nodes)[id], sent, at, leasedUntil)]
    {
      var state, existing := sent, nodes[id];
      if existing.state == Draining && state == Ready {
        state := Draining;
      }
      if existing.state == Dead && state == Ready {
        state := Dead;
      }
      existing := existing.(state := state, lastHeartbeat := at, updatedAt := at);
      if state == Leased {
        if leasedUntil != 0 {
          existing := existing.(leasedUntil := leasedUntil);
        }
      } else {
        existing := existing.(leasedUntil := 0);
      }
      nodes := nodes[id := existing];
    }

    method SetState(nodeId: string, state: NodeState, at: int, now: int) returns (error: Option<RegistryError>)
      modifies this
      ensures var id := TrimSpace(nodeId);
        if id == "" then error == Some(NodeIdRequired) && nodes == old(nodes)
        else if id !in old(nodes) then error == Some(NodeNotFound) && nodes == old(nodes)
        else error == None && nodes == old(nodes)[id := Placed(old(nodes)[id], state, if at == 0 then now else at)]
    {
      var id := TrimSpace(nodeId);
      if id == "" {
        return Some(NodeIdRequired);
      }
      var when := if at == 0 then now else at;
      if id !in nodes {
        return Some(NodeNotFound);
      }
      var existing := nodes[id];
      existing := existing.(state := state, lastHeartbeat := when, updatedAt := when);
      if state != Leased {
        existing := existing.(leasedUntil := 0);
      }
      nodes := nodes[id := existing];
      error := None;
    }

    /** Every node once, in some order. */
    method List() returns (listing: seq<Node>)
      requires KeysOk(nodes)
      ensures ListingOf(listing, nodes)
    {
      listing := [];
      var rest := nodes.Keys;
      while rest != {}
        invariant rest <= nodes.Keys
        invariant Lists(listing, nodes, nodes.Keys - rest)
        decreases |rest|
      {
        var id :| id in rest;
        ListOneMore(listing, nodes, nodes.Keys - rest, id);
        assert nodes.Keys - (rest - {id}) == nodes.Keys - rest + {id};
        rest := rest - {id};
        listing := listing + [nodes[id]];
      }
    }
  }

  ghost function Ids(listing: seq<Node>): set<string> {
    set i | 0 <= i < |listing| :: listing[i].id
  }

  lemma IdsAppend(listing: seq<Node>, n: Node)
    ensures Ids(listing + [n]) == Ids(listing) + {n.id}
  {
    var longer := listing + [n];
    assert longer[|listing|] == n;
    forall v | v in Ids(listing) ensures v in Ids(longer) {
      var i :| 0 <= i < |listing| && listing[i].id == v;
      assert longer[i].id == v;
    }
  }

  /** `listing` holds the records of the nodes `done`, each once. */
  ghost predicate Lists(listing: seq<Node>, nodes: Nodes, done: set<string>) {
    && (forall i :: 0 <= i < |listing| ==> listing[i].id in nodes && nodes[listing[i].id] == listing[i])
    && (forall i, j :: 0 <= i < j < |listing| ==> listing[i].id != listing[j].id)
    && Ids(listing) == done
  }

  lemma ListOneMore(listing: seq<Node>, nodes: Nodes, done: set<string>, id: string)
    requires KeysOk(nodes) && Lists(listing, nodes, done) && id in nodes && id !in done
    ensures Lists(listing + [nodes[id]], nodes, done + {id})
  {
    IdsAppend(listing, nodes[id]);
    assert forall i :: 0 <= i < |listing| ==> listing[i].id in Ids(listing);
  }

  ghost predicate ListingOf(listing: seq<Node>, nodes: Nodes) {
    Lists(listing, nodes, nodes.Keys)
  }

  // ---------------------------------------------------------------- what a pass looks at

  /** `managed` is isManagedNode for the configured prefix. */
  datatype Config = Config(heartbeatTimeout: int, nodeMaxAge: int, managed: string -> bool)

  predicate StartsWith(s: string, prefix: string) {
    |prefix| <= |s| && s[..|prefix|] == prefix
  }

  predicate IsManagedNode(prefix: string, id: string) {
    TrimSpace(prefix) == "" || TrimSpace(prefix) <= TrimSpace(id)
  }

  predicate StaleHeartbeat(cfg: Config, n: Node, now: int) {
    n.state != Dead && n.lastHeartbeat != 0 && now - n.lastHeartbeat > cfg.heartbeatTimeout
  }

  predicate TooOld(cfg: Config, n: Node, now: int) {
    n.state != Leased && n.bootedAt != 0 && now - n.bootedAt > cfg.nodeMaxAge
  }

  predicate Reapable(cfg: Config, n: Node, now: int) {
    StaleHeartbeat(cfg, n, now) || TooOld(cfg, n, now)
  }

  ghost function ReadyIds(nodes: Nodes): set<string> {
    set id | id in nodes && nodes[id].state == Ready
  }

  ghost function UnmanagedReady(cfg: Config, nodes: Nodes): set<string> {
    set id | id in nodes && nodes[id].state == Ready && !cfg.managed(id)
  }

  /** The managed nodes that are ready and survive the reaping. */
  ghost function ManagedReady(cfg: Config, nodes: Nodes, now: int): set<string> {
    set id | id in nodes && nodes[id].state == Ready && cfg.managed(id) && !Reapable(cfg, nodes[id], now)
  }

  ghost function Reaped(cfg: Config, nodes: Nodes, now: int): set<string> {
    set id | id in nodes && cfg.managed(id) && Reapable(cfg, nodes[id], now)
  }

  ghost function Known(cfg: Config, nodes: Nodes): set<string> {
    set id | id in nodes && cfg.managed(id)
  }

  ghost function TimedOut(cfg: Config, warming: map<string, int>, now: int): set<string> {
    set id | id in warming && now - warming[id] > cfg.heartbeatTimeout
  }

  /** Warming nodes that have not registered and have not timed out. */
  ghost function StillWarming(cfg: Config, nodes: Nodes, warming: map<string, int>, now: int): map<string, int> {
    var unknown := warming - Known(cfg, nodes);
    unknown - TimedOut(cfg, unknown, now)
  }

  function Killed(n: Node, now: int): Node {
    Beaten(n, Dead, now, 0)
  }

  function KillAll(nodes: Nodes, dead: set<string>, now: int): Nodes {
    map id | id in nodes :: if id in dead then Killed(nodes[id], now) else nodes[id]
  }

  lemma KillOneMore(nodes: Nodes, dead: set<string>, id: string, now: int)
    requires id in nodes
    ensures var killed := KillAll(nodes, dead, now);
      killed[id := Killed(killed[id], now)] == KillAll(nodes, dead + {id}, now)
  {
  }

  /** Age order of the scale-down: booted earlier first, nodes without a boot time last, by creation. */
  predicate Older(a: Node, b: Node) {
    if a.bootedAt == 0 && b.bootedAt == 0 then a.createdAt < b.createdAt
    else if a.bootedAt == 0 then false
    else if b.bootedAt == 0 then true
    else a.bootedAt < b.bootedAt
  }

  predicate SortedByAge(s: seq<Node>) {
    forall i, j :: 0 <= i < j < |s| ==> !Older(s[j], s[i])
  }

  function InsertByAge(s: seq<Node>, n: Node): seq<Node> {
    if s == [] then [n]
    else if Older(n, s[|s| - 1]) then InsertByAge(s[..|s| - 1], n) + [s[|s| - 1]]
    else s + [n]
  }

  lemma {:induction false} InsertByAgeSorts(s: seq<Node>, n: Node)
    requires SortedByAge(s)
    ensures SortedByAge(InsertByAge(s, n)) && forall x :: x in InsertByAge(s, n) ==> x in s || x == n
  {
    if s != [] && Older(n, s[|s| - 1]) {
      InsertByAgeSorts(s[..|s| - 1], n);
      SortedAppend(InsertByAge(s[..|s| - 1], n), s[|s| - 1]);
    }
  }

  lemma SortedAppend(t: seq<Node>, last: Node)
    requires SortedByAge(t) && forall x :: x in t ==> !Older(last, x)
    ensures SortedByAge(t + [last])
  {
    forall i, j | 0 <= i < j < |t + [last]| ensures !Older((t + [last])[j], (t + [last])[i]) {
      assert t[i] in t;
    }
  }

  lemma {:induction false} InsertByAgePermutes(s: seq<Node>, n: Node)
    ensures multiset(InsertByAge(s, n)) == multiset(s) + multiset{n}
  {
    if s != [] && Older(n, s[|s| - 1]) {
      InsertByAgePermutes(s[..|s| - 1], n);
      assert s == s[..|s| - 1] + [s[|s| - 1]];
    }
  }

  /** sort.Slice with the age order. */
  function SortByAge(s: seq<Node>): seq<Node> {
    if s == [] then [] else InsertByAge(SortByAge(s[..|s| - 1]), s[|s| - 1])
  }

  lemma {:induction false} SortByAgeSorts(s: seq<Node>)
    ensures SortedByAge(SortByAge(s)) && multiset(SortByAge(s)) == multiset(s)
  {
    if s != [] {
      SortByAgeSorts(s[..|s| - 1]);
      InsertByAgeSorts(SortByAge(s[..|s| - 1]), s[|s| - 1]);
      InsertByAgePermutes(SortByAge(s[..|s| - 1]), s[|s| - 1]);
      assert s == s[..|s| - 1] + [s[|s| - 1]];
    }
  }

  // ---------------------------------------------------------------- the counts of a pass

  /** How many ready nodes a pass leaves: all when they fit the target, else as few as it can reach. */
  function ReadyAfter(u: nat, m: nat, target: nat): int {
    if u + m <= target then u + m else Max(target, u)
  }

  /** How many managed ready nodes the scale-down takes. */
  function Surplus(u: nat, m: nat, target: nat): int {
    if u + m <= target then 0 else Min(u + m - target, m)
  }

  datatype Provisioned = Failed | Started(id: string)

  /** The warming map after the provision calls, in order. */
  function WithStarted(warming: map<string, int>, results: seq<Provisioned>, now: int): map<string, int> {
    if results == [] then warming
    else
      var before, last := WithStarted(warming, results[..|results| - 1], now), results[|results| - 1];
      if last.Started? then before[last.id := now] else before
  }

  /** The scale-down takes just the surplus, and the oldest of the managed ready nodes. */
  ghost predicate OldestTaken(cfg: Config, nodes: Nodes, now: int, target: nat, scaled: set<string>) {
    var ready := ManagedReady(cfg, nodes, now);
    && scaled <= ready && |scaled| == Surplus(|UnmanagedReady(cfg, nodes)|, |ready|, target)
    && (forall a, b :: a in scaled && b in ready - scaled ==> !Older(nodes[b], nodes[a]))
  }

  /** The effect of a pass in which nobody else acts: the stale and over-age managed nodes and the oldest
      surplus ready ones (`scaled`) are marked dead, nothing else changes in the registry, and as many
      provision calls are made as ready and warming nodes are missing. */
  ghost predicate Pass(cfg: Config, nodes: Nodes, warming: map<string, int>, now: int, target: nat,
                       scaled: set<string>, results: seq<Provisioned>, nodes': Nodes, warming': map<string, int>)
  {
    var u, m := |UnmanagedReady(cfg, nodes)|, |ManagedReady(cfg, nodes, now)|;
    var still := StillWarming(cfg, nodes, warming, now);
    && OldestTaken(cfg, nodes, now, target, scaled)
    && nodes' == KillAll(nodes, Reaped(cfg, nodes, now) + scaled, now)
    && |results| == Max(0, target - ReadyAfter(u, m, target) - |still|)
    && warming' == WithStarted(still, results, now)
  }

  // ---------------------------------------------------------------- the manager

  class Manager {
    const registry: InMemoryRegistry
    const cfg: Config
    var warming: map<string, int>

    constructor (registry: InMemoryRegistry, heartbeatTimeout: int, nodeMaxAge: int, prefix: string)
      ensures this.registry == registry && warming == map[]
      ensures cfg.heartbeatTimeout == if heartbeatTimeout <= 0 then 30_000_000_000 else heartbeatTimeout
      ensures cfg.nodeMaxAge == if nodeMaxAge <= 0 then 3_600_000_000_000 else nodeMaxAge
      ensures forall id :: cfg.managed(id) == StartsWith(TrimSpace(id), TrimSpace(prefix))
    {
      this.registry := registry;
      cfg := Config(if heartbeatTimeout <= 0 then 30_000_000_000 else heartbeatTimeout,
                    if nodeMaxAge <= 0 then 3_600_000_000_000 else nodeMaxAge, id => IsManagedNode(prefix, id));
      warming := map[];
    }

    /** The node is marked dead whatever the provider's DestroyNode answers. */
    method DestroyNode(id: string, at: int)
      requires id in registry.nodes
      modifies this, registry
      ensures registry.nodes == old(registry.nodes)[id := Killed(old(registry.nodes)[id], at)]
      ensures warming == old(warming) - {id}
    {
      registry.Beat(id, Dead, at, 0);
      warming := warming - {id};
    }

    /** The whole pass; `provider(i)` is the provider's answer to the i-th provision call. */
    method Reconcile(now: int, targetReady: int, provider: nat -> Provisioned)
      returns (calls: nat, ghost scaled: set<string>, results: seq<Provisioned>)
      requires KeysOk(registry.nodes)
      modifies this, registry
      ensures var target := if targetReady < 0 then 0 else targetReady;
        Pass(cfg, old(registry.nodes), old(warming), now, target, scaled, results, registry.nodes, warming)
      ensures calls == |results| && forall i :: 0 <= i < calls ==> results[i] == provider(i)
    {
      var target := if targetReady < 0 then 0 else targetReady;
      ghost var nodes0, warming0 := registry.nodes, warming;
      var readyCount, candidates, known := ReapAndCount(now);
      PruneWarmingKnown(known);
      var active := ReapTimedOutWarming(now);
      UnknownWarming(cfg, nodes0, warming0, now);
      ghost var still := warming;
      readyCount, scaled := ScaleDown(now, readyCount, target, candidates, nodes0);
      results := Provision(target - readyCount - active, now, provider);
      calls := |results|;
      PassFromParts(cfg, nodes0, warming0, now, target, scaled, results, still);
    }

    /** First loop: reap, count and collect the candidates of the scale-down. */
    method ReapAndCount(now: int) returns (readyCount: int, candidates: seq<Node>, known: set<string>)
      requires KeysOk(registry.nodes)
      modifies this, registry
      ensures known == Known(cfg, old(registry.nodes))
      ensures Counted(cfg, old(registry.nodes), old(warming), old(registry.nodes), now,
                      registry.nodes, warming, readyCount, candidates)
    {
      var listing := registry.List();
      ghost var nodes, warming0 := registry.nodes, warming;
      readyCount, candidates, known := 0, [], {};
      NothingCounted(cfg, nodes, warming0, now);
      NothingSeen(nodes, listing);
      for i := 0 to |listing|
        invariant Counted(cfg, nodes, warming0, Seen(nodes, listing[..i]), now, registry.nodes, warming,
                          readyCount, candidates)
        invariant known == Known(cfg, Seen(nodes, listing[..i]))
      {
        SeeNext(nodes, listing, i);
        KnowOneMore(cfg, Seen(nodes, listing[..i]), listing[i]);
        if cfg.managed(listing[i].id) {
          known := known + {listing[i].id};
        }
        readyCount, candidates :=
          CountNode(listing[i], now, readyCount, candidates, nodes, warming0, Seen(nodes, listing[..i]));
      }
      SeenAll(nodes, listing);
    }

    /** The body of that loop, for one listed node. */
    method CountNode(node: Node, now: int, count: int, found: seq<Node>,
                     ghost nodes: Nodes, ghost warming0: map<string, int>, ghost seen: Nodes)
      returns (readyCount: int, candidates: seq<Node>)
      requires Counted(cfg, nodes, warming0, seen, now, registry.nodes, warming, count, found)
      requires node.id !in seen && node.id in nodes && nodes[node.id] == node
      modifies this, registry
      ensures Counted(cfg, nodes, warming0, seen[node.id := node], now, registry.nodes, warming, readyCount, candidates)
    {
      readyCount, candidates := count, found;
      if !cfg.managed(node.id) {
        CountUnmanaged(cfg, nodes, warming0, seen, now, registry.nodes, warming, count, found, node);
        if node.state == Ready {
          readyCount := readyCount + 1;
        }
        return;
      }
      if StaleHeartbeat(cfg, node, now) || TooOld(cfg, node, now) {
        CountReaped(cfg, nodes, warming0, seen, now, registry.nodes, warming, count, found, node);
        DestroyNode(node.id, now);
        return;
      }
      CountSurvivor(cfg, nodes, warming0, seen, now, registry.nodes, warming, count, found, node);
      if node.state == Ready {
        readyCount := readyCount + 1;
        candidates := candidates + [node];
      }
    }

    method PruneWarmingKnown(known: set<string>)
      modifies this
      ensures warming == old(warming) - known
    {
      ghost var start := warming;
      var todo := warming.Keys;
      NothingDone(start, known);
      while todo != {}
        invariant todo <= start.Keys && warming == Pruned(start, todo, known)
        decreases |todo|
      {
        var id :| id in todo;
        PruneOne(start, todo, known, id);
        todo := todo - {id};
        if id in known {
          warming := warming - {id};
        }
      }
      AllDone(start, known);
    }

    method ReapTimedOutWarming(now: int) returns (active: int)
      modifies this
      ensures warming == old(warming) - TimedOut(cfg, old(warming), now) && active == |warming|
    {
      active := ReapAll(now, TimedOut(cfg, warming, now));
    }

    /** The loop: `stale` are the nodes that have timed out. */
    method ReapAll(now: int, ghost stale: set<string>) returns (active: int)
      requires forall id :: id in warming ==> (id in stale <==> now - warming[id] > cfg.heartbeatTimeout)
      modifies this
      ensures warming == old(warming) - stale && active == |warming|
    {
      ghost var start := warming;
      active := 0;
      var todo := warming.Keys;
      NothingDone(start, stale);
      while todo != {}
        invariant todo <= start.Keys && warming == Pruned(start, todo, stale)
        invariant active == |start.Keys - todo - stale|
        decreases |todo|
      {
        var id :| id in todo;
        PruneOne(start, todo, stale, id);
        todo := todo - {id};
        var kept := ReapWarming(id, now);
        if kept {
          active := active + 1;
        }
      }
      AllDone(start, stale);
    }

    method ReapWarming(id: string, now: int) returns (kept: bool)
      requires id in warming
      modifies this`warming
      ensures kept <==> now - old(warming)[id] <= cfg.heartbeatTimeout
      ensures warming == if kept then old(warming) else old(warming) - {id}
    {
      kept := now - warming[id] <= cfg.heartbeatTimeout;
      if !kept {
        warming := warming - {id};
      }
    }

    method ScaleDown(now: int, readyCount: int, target: nat, candidates: seq<Node>, ghost nodes: Nodes)
      returns (ready: int, ghost scaled: set<string>)
      requires registry.nodes == KillAll(nodes, Reaped(cfg, nodes, now), now)
      requires Candidates(candidates, nodes, ManagedReady(cfg, nodes, now))
      requires readyCount == |UnmanagedReady(cfg, nodes)| + |ManagedReady(cfg, nodes, now)|
      requires forall id :: id in warming ==> !(id in nodes && cfg.managed(id))
      modifies this, registry
      ensures warming == old(warming)
      ensures ready == ReadyAfter(|UnmanagedReady(cfg, nodes)|, |ManagedReady(cfg, nodes, now)|, target)
      ensures OldestTaken(cfg, nodes, now, target, scaled)
      ensures registry.nodes == KillAll(nodes, Reaped(cfg, nodes, now) + scaled, now)
    {
      ready, scaled := readyCount, {};
      var surplus := readyCount - target;
      CandidatesCount(candidates, nodes, ManagedReady(cfg, nodes, now));
      assert Reaped(cfg, nodes, now) + {} == Reaped(cfg, nodes, now);
      if surplus <= 0 || |candidates| == 0 {
        return;
      }
      var order := SortByAge(candidates);
      SortedCandidates(candidates, nodes, ManagedReady(cfg, nodes, now));
      var toReap := if surplus < |candidates| then surplus else |candidates|;
      CandidatesAreManaged(cfg, nodes, now, order);
      OldestFirst(order, nodes, ManagedReady(cfg, nodes, now), toReap);
      KillFirst(order, toReap, now, nodes, Reaped(cfg, nodes, now));
      ready := readyCount - toReap;
      scaled := Ids(order[..toReap]);
    }

    /** Destroys the first `k` nodes of the order. */
    method KillFirst(order: seq<Node>, k: nat, now: int, ghost nodes: Nodes, ghost reaped: set<string>)
      requires k <= |order| && registry.nodes == KillAll(nodes, reaped, now)
      requires forall i :: 0 <= i < |order| ==> order[i].id in nodes && order[i].id !in warming
      modifies this, registry
      ensures warming == old(warming) && registry.nodes == KillAll(nodes, reaped + Ids(order[..k]), now)
    {
      assert reaped + Ids(order[..0]) == reaped;
      for i := 0 to k
        invariant warming == old(warming) && registry.nodes == KillAll(nodes, reaped + Ids(order[..i]), now)
      {
        var id := order[i].id;
        assert order[..i + 1] == order[..i] + [order[i]];
        IdsAppend(order[..i], order[i]);
        KillOneMore(nodes, reaped + Ids(order[..i]), id, now);
        assert reaped + Ids(order[..i]) + {id} == reaped + Ids(order[..i + 1]);
        DestroyNode(id, now);
      }
    }

    method Provision(needed: int, now: int, provider: nat -> Provisioned) returns (results: seq<Provisioned>)
      modifies this
      ensures |results| == Max(0, needed) && forall i :: 0 <= i < |results| ==> results[i] == provider(i)
      ensures warming == WithStarted(old(warming), results, now)
    {
      results := [];
      if needed <= 0 {
        return;
      }
      for i := 0 to needed
        invariant |results| == i && forall j :: 0 <= j < i ==> results[j] == provider(j)
        invariant warming == WithStarted(old(warming), results, now)
      {
        var answer := provider(i);
        assert (results + [answer])[..i] == results;
        results := results + [answer];
        if answer.Started? {
          warming := warming[answer.id := now];
        }
      }
    }
  }

  // ---------------------------------------------------------------- lemmas of the pass

  /** The candidates are the given nodes, each once. */
  ghost predicate Candidates(candidates: seq<Node>, nodes: Nodes, ids: set<string>) {
    && (forall i :: 0 <= i < |candidates| ==> candidates[i].id in nodes && nodes[candidates[i].id] == candidates[i])
    && (forall i, j :: 0 <= i < j < |candidates| ==> candidates[i].id != candidates[j].id)
    && Ids(candidates) == ids
  }

  lemma CandidatesAppend(candidates: seq<Node>, nodes: Nodes, ids: set<string>, n: Node)
    requires Candidates(candidates, nodes, ids) && n.id in nodes && nodes[n.id] == n && n.id !in ids
    ensures Candidates(candidates + [n], nodes, ids + {n.id})
  {
    IdsAppend(candidates, n);
    assert forall i :: 0 <= i < |candidates| ==> candidates[i].id in Ids(candidates);
  }

  lemma {:induction false} CandidatesCount(candidates: seq<Node>, nodes: Nodes, ids: set<string>)
    requires Candidates(candidates, nodes, ids)
    ensures |ids| == |candidates|
    decreases |candidates|
  {
    if candidates != [] {
      var shorter, last := candidates[..|candidates| - 1], candidates[|candidates| - 1];
      assert candidates == shorter + [last];
      IdsAppend(shorter, last);
      assert last.id !in Ids(shorter);
      CandidatesCount(shorter, nodes, Ids(shorter));
    }
  }

  /** What the first loop has done after the nodes `seen`. */
  ghost predicate Counted(cfg: Config, nodes: Nodes, warming0: map<string, int>, seen: Nodes, now: int,
                          registered: Nodes, warming: map<string, int>, readyCount: int, candidates: seq<Node>)
  {
    && registered == KillAll(nodes, Reaped(cfg, seen, now), now)
    && warming == warming0 - Reaped(cfg, seen, now)
    && readyCount == |UnmanagedReady(cfg, seen)| + |ManagedReady(cfg, seen, now)|
    && Candidates(candidates, nodes, ManagedReady(cfg, seen, now))
  }

  /** The part of the registry that has been listed so far. */
  ghost function Seen(nodes: Nodes, listed: seq<Node>): Nodes {
    map id | id in nodes && id in Ids(listed) :: nodes[id]
  }

  lemma NothingSeen(nodes: Nodes, listing: seq<Node>)
    ensures Seen(nodes, listing[..0]) == map[]
  {
  }

  lemma SeeNext(nodes: Nodes, listing: seq<Node>, i: nat)
    requires ListingOf(listing, nodes) && i < |listing|
    ensures var n := listing[i];
      && n.id !in Seen(nodes, listing[..i]) && n.id in nodes && nodes[n.id] == n
      && Seen(nodes, listing[..i + 1]) == Seen(nodes, listing[..i])[n.id := n]
  {
    assert listing[..i + 1] == listing[..i] + [listing[i]];
    IdsAppend(listing[..i], listing[i]);
    NotListedBefore(listing, i);
  }

  lemma SeenAll(nodes: Nodes, listing: seq<Node>)
    requires ListingOf(listing, nodes)
    ensures Seen(nodes, listing[..|listing|]) == nodes
  {
    assert listing[..|listing|] == listing;
  }

  lemma NothingCounted(cfg: Config, nodes: Nodes, warming0: map<string, int>, now: int)
    ensures Counted(cfg, nodes, warming0, map[], now, nodes, warming0, 0, []) && Known(cfg, map[]) == {}
  {
    assert Reaped(cfg, map[], now) == {} && UnmanagedReady(cfg, map[]) == {} && ManagedReady(cfg, map[], now) == {};
    assert KillAll(nodes, {}, now) == nodes && warming0 - {} == warming0;
    assert Ids([]) == {};
  }

  /** An unmanaged node counts when it is ready. */
  lemma CountUnmanaged(cfg: Config, nodes: Nodes, warming0: map<string, int>, seen: Nodes, now: int,
                       registered: Nodes, warming: map<string, int>, readyCount: int, candidates: seq<Node>, node: Node)
    requires Counted(cfg, nodes, warming0, seen, now, registered, warming, readyCount, candidates)
    requires node.id !in seen && !cfg.managed(node.id)
    ensures Counted(cfg, nodes, warming0, seen[node.id := node], now, registered, warming,
                    readyCount + (if node.state == Ready then 1 else 0), candidates)
  {
    SeeUnmanaged(cfg, seen, node, now);
    assert node.id !in UnmanagedReady(cfg, seen);
  }

  /** A managed node that is stale or too old is killed and forgotten. */
  lemma CountReaped(cfg: Config, nodes: Nodes, warming0: map<string, int>, seen: Nodes, now: int,
                    registered: Nodes, warming: map<string, int>, readyCount: int, candidates: seq<Node>, node: Node)
    requires Counted(cfg, nodes, warming0, seen, now, registered, warming, readyCount, candidates)
    requires node.id !in seen && node.id in nodes && cfg.managed(node.id) && Reapable(cfg, node, now)
    ensures Counted(cfg, nodes, warming0, seen[node.id := node], now,
                    registered[node.id := Killed(registered[node.id], now)],
                    warming - {node.id}, readyCount, candidates)
  {
    SeeReaped(cfg, seen, node, now);
    KillOneMore(nodes, Reaped(cfg, seen, now), node.id, now);
    assert warming0 - Reaped(cfg, seen, now) - {node.id} == warming0 - (Reaped(cfg, seen, now) + {node.id});
  }

  /** A surviving managed node is a candidate when it is ready. */
  lemma CountSurvivor(cfg: Config, nodes: Nodes, warming0: map<string, int>, seen: Nodes, now: int,
                      registered: Nodes, warming: map<string, int>, readyCount: int, candidates: seq<Node>, node: Node)
    requires Counted(cfg, nodes, warming0, seen, now, registered, warming, readyCount, candidates)
    requires node.id !in seen && node.id in nodes && nodes[node.id] == node
    requires cfg.managed(node.id) && !Reapable(cfg, node, now)
    ensures var ready := node.state == Ready;
      Counted(cfg, nodes, warming0, seen[node.id := node], now, registered, warming,
              readyCount + (if ready then 1 else 0), if ready then candidates + [node] else candidates)
  {
    SeeSurvivor(cfg, seen, node, now);
    assert node.id !in ManagedReady(cfg, seen, now);
    if node.state == Ready {
      CandidatesAppend(candidates, nodes, ManagedReady(cfg, seen, now), node);
    }
  }

  /** A map whose keys outside `todo` have been dealt with: those in `gone` are removed. */
  ghost function Pruned(start: map<string, int>, todo: set<string>, gone: set<string>): map<string, int> {
    start - (start.Keys - todo) * gone
  }

  lemma NothingDone(start: map<string, int>, gone: set<string>)
    ensures Pruned(start, start.Keys, gone) == start && |start.Keys - start.Keys - gone| == 0
  {
    assert start.Keys - start.Keys - gone == {};
  }

  lemma PruneOne(start: map<string, int>, todo: set<string>, gone: set<string>, id: string)
    requires todo <= start.Keys && id in todo
    ensures var less, before := todo - {id}, Pruned(start, todo, gone);
      && id in before && before[id] == start[id]
      && Pruned(start, less, gone) == (if id in gone then before - {id} else before)
      && |start.Keys - less - gone| == |start.Keys - todo - gone| + if id in gone then 0 else 1
  {
    var less := todo - {id};
    if id in gone {
      assert start.Keys - less - gone == start.Keys - todo - gone;
    } else {
      assert start.Keys - less - gone == (start.Keys - todo - gone) + {id};
    }
  }

  lemma AllDone(start: map<string, int>, gone: set<string>)
    ensures Pruned(start, {}, gone) == start - gone && |start - gone| == |start.Keys - {} - gone|
  {
    assert (start - gone).Keys == start.Keys - {} - gone;
  }

  lemma KnowOneMore(cfg: Config, seen: Nodes, node: Node)
    ensures Known(cfg, seen[node.id := node]) == Known(cfg, seen) + if cfg.managed(node.id) then {node.id} else {}
  {
  }

  lemma UnknownWarming(cfg: Config, nodes: Nodes, warming: map<string, int>, now: int)
    ensures var unknown := warming - Reaped(cfg, nodes, now) - Known(cfg, nodes);
      && StillWarming(cfg, nodes, warming, now) == unknown - TimedOut(cfg, unknown, now)
      && forall id :: id in StillWarming(cfg, nodes, warming, now) ==> !(id in nodes && cfg.managed(id))
  {
    assert warming - Reaped(cfg, nodes, now) - Known(cfg, nodes) == warming - Known(cfg, nodes);
  }

  lemma PassFromParts(cfg: Config, nodes: Nodes, warming: map<string, int>, now: int, target: nat,
                      scaled: set<string>, results: seq<Provisioned>, still: map<string, int>)
    requires still == StillWarming(cfg, nodes, warming, now)
    requires OldestTaken(cfg, nodes, now, target, scaled)
    requires |results| ==
      Max(0, target - ReadyAfter(|UnmanagedReady(cfg, nodes)|, |ManagedReady(cfg, nodes, now)|, target) - |still|)
    ensures Pass(cfg, nodes, warming, now, target, scaled, results,
                 KillAll(nodes, Reaped(cfg, nodes, now) + scaled, now), WithStarted(still, results, now))
  {
  }

  lemma NotListedBefore(listing: seq<Node>, i: nat)
    requires i < |listing| && forall a, b :: 0 <= a < b < |listing| ==> listing[a].id != listing[b].id
    ensures listing[i].id !in Ids(listing[..i])
  {
  }

  lemma SeeUnmanaged(cfg: Config, seen: Nodes, node: Node, now: int)
    requires node.id !in seen && !cfg.managed(node.id)
    ensures var more := seen[node.id := node];
      && Reaped(cfg, more, now) == Reaped(cfg, seen, now)
      && ManagedReady(cfg, more, now) == ManagedReady(cfg, seen, now)
      && UnmanagedReady(cfg, more) == UnmanagedReady(cfg, seen) + if node.state == Ready then {node.id} else {}
  {
  }

  lemma SeeReaped(cfg: Config, seen: Nodes, node: Node, now: int)
    requires node.id !in seen && cfg.managed(node.id) && Reapable(cfg, node, now)
    ensures var more := seen[node.id := node];
      && Reaped(cfg, more, now) == Reaped(cfg, seen, now) + {node.id}
      && UnmanagedReady(cfg, more) == UnmanagedReady(cfg, seen)
      && ManagedReady(cfg, more, now) == ManagedReady(cfg, seen, now)
  {
  }

  lemma SeeSurvivor(cfg: Config, seen: Nodes, node: Node, now: int)
    requires node.id !in seen && cfg.managed(node.id) && !Reapable(cfg, node, now)
    ensures var more := seen[node.id := node];
      && Reaped(cfg, more, now) == Reaped(cfg, seen, now) && UnmanagedReady(cfg, more) == UnmanagedReady(cfg, seen)
      && ManagedReady(cfg, more, now) == ManagedReady(cfg, seen, now) + if node.state == Ready then {node.id} else {}
  {
  }

  lemma SortedCandidates(candidates: seq<Node>, nodes: Nodes, ids: set<string>)
    requires Candidates(candidates, nodes, ids)
    ensures SortedByAge(SortByAge(candidates)) && Candidates(SortByAge(candidates), nodes, ids)
    ensures |SortByAge(candidates)| == |candidates|
  {
    var s := SortByAge(candidates);
    SortByAgeSorts(candidates);
    assert |multiset(s)| == |multiset(candidates)|;
    forall i | 0 <= i < |s| ensures s[i] in candidates {
      assert s[i] in multiset(s);
    }
    forall i | 0 <= i < |candidates| ensures candidates[i] in s {
      assert candidates[i] in multiset(candidates);
    }
    forall i, j | 0 <= i < j < |s| ensures s[i].id != s[j].id {
      if s[i].id == s[j].id {
        assert s[i] == s[j];
        TwiceCounted(s, i, j);
        OnceCounted(candidates, s[i]);
      }
    }
  }

  lemma TwiceCounted(s: seq<Node>, i: nat, j: nat)
    requires i < j < |s| && s[i] == s[j]
    ensures multiset(s)[s[i]] >= 2
  {
    assert s == s[..j] + [s[j]] + s[j + 1..];
    assert s[i] in s[..j];
  }

  lemma {:induction false} OnceCounted(s: seq<Node>, n: Node)
    requires forall i, j :: 0 <= i < j < |s| ==> s[i].id != s[j].id
    ensures multiset(s)[n] <= 1
  {
    if s != [] {
      var shorter, last := s[..|s| - 1], s[|s| - 1];
      assert s == shorter + [last];
      OnceCounted(shorter, n);
      assert last !in shorter;
    }
  }

  lemma CandidatesAreManaged(cfg: Config, nodes: Nodes, now: int, candidates: seq<Node>)
    requires Candidates(candidates, nodes, ManagedReady(cfg, nodes, now))
    ensures forall i :: 0 <= i < |candidates| ==> candidates[i].id in nodes && cfg.managed(candidates[i].id)
  {
    assert forall i :: 0 <= i < |candidates| ==> candidates[i].id in Ids(candidates);
  }

  lemma BeforeIsInIds(order: seq<Node>, k: nat, j: nat)
    requires k <= |order| && j < |order|
    ensures j < k ==> order[j].id in Ids(order[..k])
  {
    if j < k {
      assert order[..k][j] == order[j];
    }
  }

  lemma OldestFirst(order: seq<Node>, nodes: Nodes, ids: set<string>, k: nat)
    requires SortedByAge(order) && Candidates(order, nodes, ids) && k <= |order|
    ensures var scaled := Ids(order[..k]);
      && scaled <= ids && |scaled| == k
      && forall a, b :: a in scaled && b in ids - scaled ==> !Older(nodes[b], nodes[a])
  {
    var scaled := Ids(order[..k]);
    CandidatesCount(order[..k], nodes, scaled);
    forall a | a in scaled ensures a in ids {
      var i :| 0 <= i < k && order[..k][i].id == a;
      assert order[i].id == a;
    }
    forall a, b | a in scaled && b in ids - scaled ensures !Older(nodes[b], nodes[a]) {
      var i :| 0 <= i < k && order[..k][i].id == a;
      var j :| 0 <= j < |order| && order[j].id == b;
      BeforeIsInIds(order, k, j);
    }
  }

  // ---------------------------------------------------------------- exact counts and convergence

  lemma DisjointCount(a: set<string>, b: set<string>)
    requires a !! b
    ensures |a + b| == |a| + |b|
  {
  }

  lemma DifferenceCount(a: set<string>, b: set<string>)
    requires b <= a
    ensures |a - b| == |a| - |b|
  {
    assert a == (a - b) + b;
    DisjointCount(a - b, b);
  }

  /** The exact count of a pass: with u unmanaged and m surviving managed ready nodes and w unexpired
      warming ones, the registry is left with u + m ready nodes when they fit the target and max(target, u)
      otherwise, and max(0, target - that - w) provision calls are made. Nothing outside the reaped and the
      scaled-down nodes changes. */
  lemma PassCounts(cfg: Config, nodes: Nodes, warming: map<string, int>, now: int, target: nat,
                   scaled: set<string>, results: seq<Provisioned>, nodes': Nodes, warming': map<string, int>)
    requires Pass(cfg, nodes, warming, now, target, scaled, results, nodes', warming')
    ensures var u, m := |UnmanagedReady(cfg, nodes)|, |ManagedReady(cfg, nodes, now)|;
      && |ReadyIds(nodes')| == (if u + m <= target then u + m else Max(target, u))
      && |results| == Max(0, target - |ReadyIds(nodes')| - |StillWarming(cfg, nodes, warming, now)|)
      && UnmanagedReady(cfg, nodes') == UnmanagedReady(cfg, nodes)
      && ReadyIds(nodes') == UnmanagedReady(cfg, nodes) + (ManagedReady(cfg, nodes, now) - scaled)
  {
    KilledReady(cfg, nodes, now, scaled);
    ReadyLeft(cfg, nodes, now, target, scaled);
  }

  lemma ReadyLeft(cfg: Config, nodes: Nodes, now: int, target: nat, scaled: set<string>)
    requires OldestTaken(cfg, nodes, now, target, scaled)
    ensures var u, m := UnmanagedReady(cfg, nodes), ManagedReady(cfg, nodes, now);
      |u + (m - scaled)| == ReadyAfter(|u|, |m|, target)
  {
    var u, m := UnmanagedReady(cfg, nodes), ManagedReady(cfg, nodes, now);
    DifferenceCount(m, scaled);
    DisjointCount(u, m - scaled);
  }

  lemma KilledReady(cfg: Config, nodes: Nodes, now: int, scaled: set<string>)
    requires scaled <= ManagedReady(cfg, nodes, now)
    ensures var nodes' := KillAll(nodes, Reaped(cfg, nodes, now) + scaled, now);
      && ReadyIds(nodes') == UnmanagedReady(cfg, nodes) + (ManagedReady(cfg, nodes, now) - scaled)
      && UnmanagedReady(cfg, nodes') == UnmanagedReady(cfg, nodes)
      && nodes'.Keys == nodes.Keys
  {
  }

  /** The nodes `ids` register: they become ready. The others may send heartbeats, but keep their states. */
  ghost predicate Register(nodes: Nodes, ids: set<string>, nodes': Nodes) {
    && nodes'.Keys == nodes.Keys + ids
    && (forall id :: id in ids ==> nodes'[id].state == Ready)
    && (forall id :: id in nodes && id !in ids ==> nodes'[id].state == nodes[id].state)
  }

  /** No live managed node has run out of time. */
  ghost predicate Unexpired(cfg: Config, nodes: Nodes, now: int) {
    forall id :: id in nodes && cfg.managed(id) && nodes[id].state != Dead ==> !Reapable(cfg, nodes[id], now)
  }

  /** Every provision call gave a new managed node. */
  ghost predicate AllStarted(cfg: Config, nodes: Nodes, warming: map<string, int>, results: seq<Provisioned>) {
    && (forall i :: 0 <= i < |results| ==>
          results[i].Started? && cfg.managed(results[i].id) && results[i].id !in nodes && results[i].id !in warming)
    && (forall i, j :: 0 <= i < j < |results| ==> results[i] != results[j])
  }

  lemma {:induction false} StartedCount(warming: map<string, int>, results: seq<Provisioned>, now: int)
    requires forall i :: 0 <= i < |results| ==> results[i].Started? && results[i].id !in warming
    requires forall i, j :: 0 <= i < j < |results| ==> results[i] != results[j]
    ensures var w := WithStarted(warming, results, now);
      && |w| == |warming| + |results| && warming.Keys <= w.Keys
      && forall id :: id in w ==> id in warming || exists i :: 0 <= i < |results| && results[i] == Started(id)
  {
    if results != [] {
      var shorter, last := results[..|results| - 1], results[|results| - 1];
      StartedCount(warming, shorter, now);
      var before := WithStarted(warming, shorter, now);
      assert forall i :: 0 <= i < |shorter| ==> shorter[i] == results[i] && shorter[i] != last;
      assert last == Started(last.id);
      assert last.id !in before;
      assert before[last.id := now].Keys == before.Keys + {last.id};
    }
  }

  /** Ready nodes after the warming ones have registered. */
  lemma RegisteredReady(cfg: Config, nodes: Nodes, ids: set<string>, nodes': Nodes, now: int)
    requires Register(nodes, ids, nodes') && Unexpired(cfg, nodes', now)
    requires forall id :: id in ids ==> cfg.managed(id) && id !in nodes
    ensures UnmanagedReady(cfg, nodes') == UnmanagedReady(cfg, nodes)
    ensures ReadyIds(nodes') == ReadyIds(nodes) + ids && ReadyIds(nodes) !! ids
    ensures ReadyIds(nodes') == UnmanagedReady(cfg, nodes') + ManagedReady(cfg, nodes', now)
    ensures UnmanagedReady(cfg, nodes') !! ManagedReady(cfg, nodes', now)
  {
    assert ids <= nodes'.Keys;
  }

  lemma HeartbeatsKeepReady(cfg: Config, nodes: Nodes, nodes': Nodes)
    requires Register(nodes, {}, nodes')
    ensures ReadyIds(nodes') == ReadyIds(nodes) && UnmanagedReady(cfg, nodes') == UnmanagedReady(cfg, nodes)
  {
  }

  /** Without expiry, what a pass counts is every ready node. */
  lemma UnexpiredReady(cfg: Config, nodes: Nodes, now: int)
    requires Unexpired(cfg, nodes, now)
    ensures |ReadyIds(nodes)| == |UnmanagedReady(cfg, nodes)| + |ManagedReady(cfg, nodes, now)|
  {
    assert ReadyIds(nodes) == UnmanagedReady(cfg, nodes) + ManagedReady(cfg, nodes, now);
    DisjointCount(UnmanagedReady(cfg, nodes), ManagedReady(cfg, nodes, now));
  }

  /** Convergence. After any first pass whose provision calls all gave new nodes, and once all warming nodes
      have registered, an unexpired second pass leaves exactly max(target, u) ready nodes, none warming, and
      makes no provision call; an unexpired third pass provisions nothing and changes no live node. Between the
      passes nodes send heartbeats (`arrived`, `rested`). */
  lemma ReconcileConverges(cfg: Config, nodes: Nodes, warming: map<string, int>, target: nat,
                           now1: int, scaled1: set<string>, results1: seq<Provisioned>, nodes1: Nodes,
                           warming1: map<string, int>,
                           arrived: Nodes, now2: int, scaled2: set<string>, results2: seq<Provisioned>, nodes2: Nodes,
                           warming2: map<string, int>, rested: Nodes,
                           now3: int, scaled3: set<string>, results3: seq<Provisioned>, nodes3: Nodes,
                           warming3: map<string, int>)
    requires Pass(cfg, nodes, warming, now1, target, scaled1, results1, nodes1, warming1)
    requires AllStarted(cfg, nodes, warming, results1) && forall id :: id in warming ==> cfg.managed(id)
    requires Register(nodes1, warming1.Keys, arrived) && Unexpired(cfg, arrived, now2)
    requires Pass(cfg, arrived, warming1, now2, target, scaled2, results2, nodes2, warming2)
    requires Register(nodes2, {}, rested) && Unexpired(cfg, rested, now3)
    requires Pass(cfg, rested, warming2, now3, target, scaled3, results3, nodes3, warming3)
    ensures |ReadyIds(nodes2)| == Max(target, |UnmanagedReady(cfg, nodes)|)
    ensures warming2 == map[] && results2 == []
    ensures results3 == [] && scaled3 == {} && warming3 == map[]
    ensures forall id :: id in rested && rested[id].state != Dead ==> id in nodes3 && nodes3[id] == rested[id]
  {
    FirstPassThenArrivals(cfg, nodes, warming, target, now1, scaled1, results1, nodes1, warming1, arrived, now2);
    SecondPass(cfg, arrived, warming1, target, now2, scaled2, results2, nodes2, warming2);
    HeartbeatsKeepReady(cfg, nodes2, rested);
    ThirdPass(cfg, rested, target, now3, scaled3, results3, nodes3, warming3);
  }

  lemma FirstPassThenArrivals(cfg: Config, nodes: Nodes, warming: map<string, int>, target: nat, now1: int,
                              scaled: set<string>, results: seq<Provisioned>, nodes1: Nodes, warming1: map<string, int>,
                              arrived: Nodes, now2: int)
    requires Pass(cfg, nodes, warming, now1, target, scaled, results, nodes1, warming1)
    requires AllStarted(cfg, nodes, warming, results) && forall id :: id in warming ==> cfg.managed(id)
    requires Register(nodes1, warming1.Keys, arrived) && Unexpired(cfg, arrived, now2)
    ensures |ReadyIds(arrived)| >= target && UnmanagedReady(cfg, arrived) == UnmanagedReady(cfg, nodes)
    ensures warming1.Keys <= Known(cfg, arrived)
    ensures |ReadyIds(arrived)| > target || target >= |UnmanagedReady(cfg, nodes)|
  {
    PassCounts(cfg, nodes, warming, now1, target, scaled, results, nodes1, warming1);
    KilledReady(cfg, nodes, now1, scaled);
    var still := StillWarming(cfg, nodes, warming, now1);
    StillIsWarming(cfg, nodes, warming, now1);
    NewlyWarming(cfg, nodes, still, results, now1);
    RegisteredReady(cfg, nodes1, warming1.Keys, arrived, now2);
    DisjointCount(ReadyIds(nodes1), warming1.Keys);
  }

  lemma StillIsWarming(cfg: Config, nodes: Nodes, warming: map<string, int>, now: int)
    ensures forall id :: id in StillWarming(cfg, nodes, warming, now) ==> id in warming && id !in Known(cfg, nodes)
  {
  }

  /** What a pass leaves warming: the nodes it kept and the nodes it started, all managed and unregistered. */
  lemma NewlyWarming(cfg: Config, nodes: Nodes, still: map<string, int>, results: seq<Provisioned>, now: int)
    requires forall id :: id in still ==> cfg.managed(id) && id !in nodes
    requires forall i :: 0 <= i < |results| ==>
      results[i].Started? && cfg.managed(results[i].id) && results[i].id !in nodes && results[i].id !in still
    requires forall i, j :: 0 <= i < j < |results| ==> results[i] != results[j]
    ensures var warming' := WithStarted(still, results, now);
      && |warming'.Keys| == |still| + |results|
      && forall id :: id in warming' ==> cfg.managed(id) && id !in nodes
  {
    StartedCount(still, results, now);
    assert |WithStarted(still, results, now).Keys| == |WithStarted(still, results, now)|;
  }

  lemma SecondPass(cfg: Config, arrived: Nodes, warming1: map<string, int>, target: nat, now2: int,
                   scaled: set<string>, results: seq<Provisioned>, nodes2: Nodes, warming2: map<string, int>)
    requires Pass(cfg, arrived, warming1, now2, target, scaled, results, nodes2, warming2)
    requires Unexpired(cfg, arrived, now2) && warming1.Keys <= Known(cfg, arrived)
    requires |ReadyIds(arrived)| >= target
    ensures |ReadyIds(nodes2)| == Max(target, |UnmanagedReady(cfg, arrived)|)
    ensures warming2 == map[] && results == [] && UnmanagedReady(cfg, nodes2) == UnmanagedReady(cfg, arrived)
  {
    UnexpiredReady(cfg, arrived, now2);
    PassCounts(cfg, arrived, warming1, now2, target, scaled, results, nodes2, warming2);
    assert warming1 - Known(cfg, arrived) == map[];
    assert StillWarming(cfg, arrived, warming1, now2) == map[];
  }

  lemma ThirdPass(cfg: Config, nodes2: Nodes, target: nat, now3: int,
                  scaled: set<string>, results: seq<Provisioned>, nodes3: Nodes, warming3: map<string, int>)
    requires Pass(cfg, nodes2, map[], now3, target, scaled, results, nodes3, warming3)
    requires Unexpired(cfg, nodes2, now3)
    requires |ReadyIds(nodes2)| == Max(target, |UnmanagedReady(cfg, nodes2)|)
    ensures results == [] && scaled == {} && warming3 == map[]
    ensures forall id :: id in nodes2 && nodes2[id].state != Dead ==> id in nodes3 && nodes3[id] == nodes2[id]
  {
    UnexpiredReady(cfg, nodes2, now3);
    PassCounts(cfg, nodes2, map[], now3, target, scaled, results, nodes3, warming3);
    assert |scaled| == 0;
  }

  // ---------------------------------------------------------------- what a pass means for the nodes

  /** The managed ready nodes that have sent a heartbeat in time and are not too old, in the nodes' own fields; an
      unknown time counts as in time. */
  ghost function Fit(cfg: Config, nodes: Nodes, now: int): set<string> {
    set id | id in nodes && cfg.managed(id) && nodes[id].state == Ready
             && (nodes[id].lastHeartbeat == 0 || now - nodes[id].lastHeartbeat <= cfg.heartbeatTimeout)
             && (nodes[id].bootedAt == 0 || now - nodes[id].bootedAt <= cfg.nodeMaxAge)
  }

  ghost function DeadOf(ids: set<string>, nodes: Nodes): set<string> {
    set id | id in ids && id in nodes && nodes[id].state == Dead
  }

  /** What a pass does to one node. */
  predicate NodeAfter(cfg: Config, n: Node, managed: bool, now: int, n': Node) {
    var inTime := n.lastHeartbeat == 0 || now - n.lastHeartbeat <= cfg.heartbeatTimeout;
    var young := n.bootedAt == 0 || now - n.bootedAt <= cfg.nodeMaxAge;
    && (!managed ==> n' == n)
    && (managed && n.state != Dead && !inTime ==> n'.state == Dead)
    && (managed && n.state != Leased && !young ==> n'.state == Dead)
    && (managed && n.state == Leased && inTime ==> n' == n)
    && (managed && n.state in {Warming, Draining} && inTime && young ==> n' == n)
    && (n' == n || n' == n.(state := Dead, lastHeartbeat := now, updatedAt := now, leasedUntil := 0))
  }

  lemma ReadySurvivorsAreFit(cfg: Config, nodes: Nodes, now: int)
    ensures ManagedReady(cfg, nodes, now) == Fit(cfg, nodes, now)
  {
  }

  lemma NodeOfPass(cfg: Config, nodes: Nodes, now: int, scaled: set<string>, id: string)
    requires id in nodes && scaled <= ManagedReady(cfg, nodes, now)
    ensures var nodes' := KillAll(nodes, Reaped(cfg, nodes, now) + scaled, now);
      id in nodes' && NodeAfter(cfg, nodes[id], cfg.managed(id), now, nodes'[id])
  {
  }

  lemma DeadOfFit(cfg: Config, nodes: Nodes, now: int, scaled: set<string>)
    requires scaled <= ManagedReady(cfg, nodes, now)
    ensures DeadOf(Fit(cfg, nodes, now), KillAll(nodes, Reaped(cfg, nodes, now) + scaled, now)) == scaled
  {
    ReadySurvivorsAreFit(cfg, nodes, now);
    assert scaled !! Reaped(cfg, nodes, now);
    assert ManagedReady(cfg, nodes, now) !! Reaped(cfg, nodes, now);
  }

  /** `a` booted no later than `b`; a node of unknown boot time counts as the latest, by its creation time. */
  predicate NotYounger(a: Node, b: Node) {
    && (b.bootedAt != 0 ==> a.bootedAt != 0 && a.bootedAt <= b.bootedAt)
    && (a.bootedAt == 0 && b.bootedAt == 0 ==> a.createdAt <= b.createdAt)
  }

  lemma SurplusDies(cfg: Config, nodes: Nodes, now: int, target: nat, scaled: set<string>)
    requires OldestTaken(cfg, nodes, now, target, scaled)
    ensures var u := |set id | id in nodes && !cfg.managed(id) && nodes[id].state == Ready|;
      var fit := Fit(cfg, nodes, now);
      |scaled| == if u + |fit| <= target then 0 else if u >= target then |fit| else u + |fit| - target
    ensures forall a, b :: a in scaled && b in Fit(cfg, nodes, now) - scaled ==> NotYounger(nodes[a], nodes[b])
  {
    ReadySurvivorsAreFit(cfg, nodes, now);
    assert (set id | id in nodes && !cfg.managed(id) && nodes[id].state == Ready) == UnmanagedReady(cfg, nodes);
  }

  /** A pass, read off the nodes before and after it. A managed node whose heartbeat is overdue dies, so does one that
      is too old unless it is leased; a leased node with a heartbeat in time, an unmanaged node, and one that warms up
      or drains in time stay as they are. Of the fit ready nodes exactly as many die as exceed the target together with
      the unmanaged ready ones, and none that is killed booted after one that is kept. */
  lemma PassMeaning(cfg: Config, nodes: Nodes, warming: map<string, int>, now: int, target: nat,
                    scaled: set<string>, results: seq<Provisioned>, nodes': Nodes, warming': map<string, int>)
    requires Pass(cfg, nodes, warming, now, target, scaled, results, nodes', warming')
    ensures nodes'.Keys == nodes.Keys
    ensures forall id :: id in nodes ==> NodeAfter(cfg, nodes[id], cfg.managed(id), now, nodes'[id])
    ensures var u := |set id | id in nodes && !cfg.managed(id) && nodes[id].state == Ready|;
      var fit := Fit(cfg, nodes, now);
      |DeadOf(fit, nodes')| == if u + |fit| <= target then 0 else if u >= target then |fit| else u + |fit| - target
    ensures var fit := Fit(cfg, nodes, now);
      forall a, b :: a in DeadOf(fit, nodes') && b in fit - DeadOf(fit, nodes') ==> NotYounger(nodes[a], nodes[b])
  {
    forall id | id in nodes ensures NodeAfter(cfg, nodes[id], cfg.managed(id), now, nodes'[id]) {
      NodeOfPass(cfg, nodes, now, scaled, id);
    }
    SurplusDies(cfg, nodes, now, target, scaled);
    DeadOfFit(cfg, nodes, now, scaled);
  }

  ghost predicate IsStarted(results: seq<Provisioned>, id: string) {
    exists i :: 0 <= i < |results| && results[i] == Started(id)
  }

  lemma {:induction false} WithStartedMeaning(warming: map<string, int>, results: seq<Provisioned>, now: int,
                                              id: string)
    ensures var w := WithStarted(warming, results, now);
      && (id in w <==> id in warming || IsStarted(results, id))
      && (id in w ==> w[id] == if IsStarted(results, id) then now else warming[id])
  {
    if results != [] {
      var n := |results| - 1;
      var shorter, last := results[..n], results[n];
      WithStartedMeaning(warming, shorter, now, id);
      assert IsStarted(results, id) <==> IsStarted(shorter, id) || last == Started(id) by {
        assert forall i :: 0 <= i < n ==> shorter[i] == results[i];
        if i :| 0 <= i < |results| && results[i] == Started(id) {
          assert i == n || shorter[i] == Started(id);
        }
      }
    }
  }

  /** What is warming after a pass: of the nodes that were, those that have neither registered as managed nor waited
      longer than the heartbeat timeout, since when they were; and the nodes just started, from now on. */
  lemma WarmingMeaning(cfg: Config, nodes: Nodes, warming: map<string, int>, now: int, target: nat,
                       scaled: set<string>, results: seq<Provisioned>, nodes': Nodes, warming': map<string, int>,
                       id: string)
    requires Pass(cfg, nodes, warming, now, target, scaled, results, nodes', warming')
    ensures IsStarted(results, id) ==> id in warming' && warming'[id] == now
    ensures !IsStarted(results, id) ==>
      && (id in warming' <==>
            id in warming && !(id in nodes && cfg.managed(id)) && now - warming[id] <= cfg.heartbeatTimeout)
      && (id in warming' ==> warming'[id] == warming[id])
  {
    WithStartedMeaning(StillWarming(cfg, nodes, warming, now), results, now, id);
  }

  // ---------------------------------------------------------------- what the registry records

  /** A registration makes the node ready, alive now and not leased, with the given address and version, booted when it
      says or else now; it keeps the time a known node was created. */
  lemma RegisteredMeaning(nodes: Nodes, id: string, address: string, version: string, booted: int, now: int)
    ensures var v := Registered(nodes, id, address, version, booted, now);
      && v.Keys == nodes.Keys + {id} && (forall q :: q in nodes && q != id ==> v[q] == nodes[q])
      && v[id].address == address && v[id].version == version && v[id].state == Ready
      && v[id].bootedAt == (if booted != 0 then booted else now) && v[id].lastHeartbeat == now && v[id].updatedAt == now
      && v[id].leasedUntil == 0 && v[id].createdAt == if id in nodes then nodes[id].createdAt else now
  {
  }

  /** A heartbeat is recorded at its time. It sets the state, only a Ready one does not bring a draining or dead node
      back, and it ends a lease unless it says Leased, when it moves the end of the lease if it names one. */
  lemma BeatenMeaning(n: Node, sent: NodeState, at: int, leasedUntil: int)
    ensures var v := Beaten(n, sent, at, leasedUntil);
      && v.lastHeartbeat == at && v.updatedAt == at
      && (sent == Ready && n.state in {Draining, Dead} ==> v.state == n.state)
      && (!(sent == Ready && n.state in {Draining, Dead}) ==> v.state == sent)
      && (v.state != Leased ==> v.leasedUntil == 0)
      && (v.state == Leased && leasedUntil != 0 ==> v.leasedUntil == leasedUntil)
      && (v.state == Leased && leasedUntil == 0 ==> v.leasedUntil == n.leasedUntil)
      && v.id == n.id && v.address == n.address && v.version == n.version && v.bootedAt == n.bootedAt
      && v.createdAt == n.createdAt
  {
  }

  /** A state that is set holds whatever it was before, and any but Leased ends a lease. */
  lemma PlacedMeaning(n: Node, state: NodeState, at: int)
    ensures var v := Placed(n, state, at);
      && v.state == state && v.lastHeartbeat == at && v.updatedAt == at
      && v.leasedUntil == (if state == Leased then n.leasedUntil else 0)
      && v.id == n.id && v.address == n.address && v.version == n.version && v.bootedAt == n.bootedAt
      && v.createdAt == n.createdAt
  {
  }
}
