/** How a task runner takes and gives back a node (internal/taskrunner/runner.go): the registry says which nodes
    to try, only the lease decides. */
module NodeLeasing {
  import opened Text
  import Lease
  import WarmPool

  /** What one round over the listed nodes comes to. */
  datatype Attempt =
    | NoNode
    | Taken(node: WarmPool.Node, token: nat, expiresAt: int)
    | Error(error: Lease.Error)

  function Resource(nodeId: string): string {
    TrimSpace("node:" + TrimSpace(nodeId))
  }

  lemma ResourceIsNamed(nodeId: string)
    ensures Resource(nodeId) != ""
  {
    var s := "node:" + TrimSpace(nodeId);
    assert s[0] == 'n';
    assert LeadSpace(s) == 0;
    assert TrimLeft(s) == s;
    TrimRightKeepsFirst(s);
  }

  lemma {:induction false} TrimRightKeepsFirst(s: string)
    requires s != "" && !IsSpaceByte(s[0])
    ensures TrimRight(s) != "" && TrimRight(s)[0] == s[0]
    decreases |s|
  {
    var k := TrailSpace(s);
    if k != 0 {
      TrailIsSpaceRune(s);
      TrimRightKeepsFirst(s[..|s| - k]);
    }
  }

  /** Could be the first byte of a white-space character. */
  predicate IsSpaceByte(c: char) {
    9 <= c as int <= 13 || c == ' ' || c as int in {0xC2, 0xE1, 0xE2, 0xE3}
  }

  /** Acquire on a listed node, with the clock reading taken for it. */
  function TryNode(t: Lease.Table, node: WarmPool.Node, owner: string, ttl: int, reading: int)
    : (Lease.Table, Lease.Outcome)
  {
    Lease.Acquired(t, Resource(node.id), TrimSpace(owner), ttl, reading)
  }

  /** The node is not tried, or somebody else's lease on it is still running. */
  predicate PassedOver(t: Lease.Table, node: WarmPool.Node, owner: string, reading: int) {
    node.state == WarmPool.Ready ==>
      Resource(node.id) in t.entries && reading < t.entries[Resource(node.id)].expiresAt
  }

  class NodeRunner {
    const leaser: Lease.InMemoryManager
    const registry: WarmPool.InMemoryRegistry
    const ownerId: string
    const leaseTtl: int

    constructor (leaser: Lease.InMemoryManager, registry: WarmPool.InMemoryRegistry, ownerId: string, leaseTtl: int)
      ensures this.leaser == leaser && this.registry == registry && this.ownerId == ownerId && this.leaseTtl == leaseTtl
    {
      this.leaser, this.registry, this.ownerId, this.leaseTtl := leaser, registry, ownerId, leaseTtl;
    }

    method Try(node: WarmPool.Node, reading: int) returns (outcome: Lease.Outcome)
      requires node.state == WarmPool.Ready
      modifies leaser
      ensures leaser.State() == TryNode(old(leaser.State()), node, ownerId, leaseTtl, reading).0
      ensures outcome == TryNode(old(leaser.State()), node, ownerId, leaseTtl, reading).1
      ensures outcome.Refused? ==> PassedOver(old(leaser.State()), node, ownerId, reading)
      ensures outcome.Granted? ==> !PassedOver(old(leaser.State()), node, ownerId, reading)
      ensures outcome.Invalid? ==> outcome == Lease.Invalid(Lease.OwnerRequired) && TrimSpace(ownerId) == ""
      ensures !outcome.Granted? ==> leaser.State() == old(leaser.State())
    {
      ResourceIsNamed(node.id);
      outcome := leaser.Acquire("node:" + TrimSpace(node.id), ownerId, leaseTtl, reading);
    }

    /** The attempt is the one lease made on its node, and `t'` the table with it. */
    ghost predicate Took(t: Lease.Table, attempt: Attempt, reading: int, t': Lease.Table)
      requires attempt.Taken?
    {
      && t' == TryNode(t, attempt.node, ownerId, leaseTtl, reading).0
      && Lease.Granted(attempt.token, attempt.expiresAt) == TryNode(t, attempt.node, ownerId, leaseTtl, reading).1
    }

    /** One ready node: acquire its lease and mark it Leased. */
    method TryTake(node: WarmPool.Node, reading: int, beatAt: int) returns (attempt: Attempt)
      requires node.state == WarmPool.Ready
      modifies leaser, registry
      ensures attempt.NoNode? ==> PassedOver(old(leaser.State()), node, ownerId, reading)
      ensures attempt.Error? ==> attempt.error == Lease.OwnerRequired && TrimSpace(ownerId) == ""
      ensures !attempt.Taken? ==> leaser.State() == old(leaser.State()) && registry.nodes == old(registry.nodes)
      ensures attempt.Taken? ==> attempt.node == node && !PassedOver(old(leaser.State()), node, ownerId, reading)
      ensures attempt.Taken? ==>
        && Took(old(leaser.State()), attempt, reading, leaser.State())
        && registry.nodes == Marked(old(registry.nodes), node.id, WarmPool.Leased, beatAt, attempt.expiresAt)
    {
      var outcome := Try(node, reading);
      match outcome
      case Invalid(error) => return Error(error);
      case Refused => return NoNode;
      case Granted(token, expiresAt) =>
        Beat(node.id, WarmPool.Leased, beatAt, expiresAt);
        return Taken(node, token, expiresAt);
    }

    method Beat(nodeId: string, state: WarmPool.NodeState, at: int, leasedUntil: int)
      modifies registry
      ensures registry.nodes == Marked(old(registry.nodes), nodeId, state, at, leasedUntil)
    {
      var _ := registry.Heartbeat(nodeId, state, at, leasedUntil, at);
    }

    /** tryAcquireReadyNode over a listing, whatever it says: the first listed Ready node without a running lease
        is taken and marked Leased. Nothing else is leased; without such a node nothing changes. */
    method TryAcquireReadyNode(listing: seq<WarmPool.Node>, reading: nat -> int, beatAt: int)
      returns (attempt: Attempt, ghost k: nat)
      modifies leaser, registry
      ensures attempt.NoNode? ==> AllPassedOver(old(leaser.State()), listing, reading, |listing|)
      ensures attempt.Error? ==> attempt.error == Lease.OwnerRequired && TrimSpace(ownerId) == ""
      ensures !attempt.Taken? ==> leaser.State() == old(leaser.State()) && registry.nodes == old(registry.nodes)
      ensures attempt.Taken? ==>
        && k < |listing| && listing[k] == attempt.node && attempt.node.state == WarmPool.Ready
        && AllPassedOver(old(leaser.State()), listing, reading, k)
        && !PassedOver(old(leaser.State()), attempt.node, ownerId, reading(k))
        && Took(old(leaser.State()), attempt, reading(k), leaser.State())
        && registry.nodes ==
             Marked(old(registry.nodes), attempt.node.id, WarmPool.Leased, beatAt, attempt.expiresAt)
    {
      k := 0;
      for i := 0 to |listing|
        invariant leaser.State() == old(leaser.State()) && registry.nodes == old(registry.nodes)
        invariant AllPassedOver(old(leaser.State()), listing, reading, i)
      {
        if listing[i].state == WarmPool.Ready {
          attempt := TryTake(listing[i], reading(i), beatAt);
          if !attempt.NoNode? {
            return attempt, i;
          }
        }
        OneMorePassedOver(old(leaser.State()), listing, reading, i);
      }
      return NoNode, k;
    }

    lemma OneMorePassedOver(t: Lease.Table, listing: seq<WarmPool.Node>, reading: nat -> int, n: nat)
      requires n < |listing| && AllPassedOver(t, listing, reading, n) && PassedOver(t, listing[n], ownerId, reading(n))
      ensures AllPassedOver(t, listing, reading, n + 1)
    {
    }

    /** The first `n` listed nodes are not Ready or under a running lease. */
    ghost predicate AllPassedOver(t: Lease.Table, listing: seq<WarmPool.Node>, reading: nat -> int, n: nat) {
      n <= |listing| && forall j :: 0 <= j < n ==> PassedOver(t, listing[j], ownerId, reading(j))
    }

    /** One tick of the keepalive: the lease is renewed; a renewal that succeeds marks the node Leased again, one
        that is refused tells that the lease is lost, and an error is ignored. */
    method KeepaliveTick(node: WarmPool.Node, token: nat, reading: int, beatAt: int) returns (lost: bool)
      modifies leaser, registry
      ensures var (table, outcome) :=
          Lease.Renewed(old(leaser.State()), Resource(node.id), TrimSpace(ownerId), token, leaseTtl, reading);
        && leaser.State() == table && (lost <==> outcome == Lease.Refused)
        && registry.nodes ==
             if outcome.Granted? then
               Marked(old(registry.nodes), node.id, WarmPool.Leased, beatAt, outcome.expiresAt)
             else old(registry.nodes)
    {
      var outcome := leaser.Renew("node:" + TrimSpace(node.id), ownerId, token, leaseTtl, reading);
      match outcome
      case Invalid(_) => lost := false;
      case Refused => lost := true;
      case Granted(_, expiresAt) =>
        Beat(node.id, WarmPool.Leased, beatAt, expiresAt);
        lost := false;
    }

    /** releaseNode: the lease goes if it is still this one, and the node reports Ready. */
    method ReleaseNode(node: WarmPool.Node, token: nat, beatAt: int)
      modifies leaser, registry
      ensures leaser.State() == Lease.Released(old(leaser.State()), Resource(node.id), TrimSpace(ownerId), token)
      ensures registry.nodes == Marked(old(registry.nodes), node.id, WarmPool.Ready, beatAt, 0)
    {
      var _ := leaser.Release("node:" + TrimSpace(node.id), ownerId, token);
      Beat(node.id, WarmPool.Ready, beatAt, 0);
    }
  }

  /** A heartbeat, when the node is known. */
  function Marked(nodes: WarmPool.Nodes, nodeId: string, state: WarmPool.NodeState, at: int, leasedUntil: int)
    : WarmPool.Nodes
  {
    var id := TrimSpace(nodeId);
    if id == "" || id !in nodes then nodes else nodes[id := WarmPool.Beaten(nodes[id], state, at, leasedUntil)]
  }

  /** Taking a node and giving it back leaves no lease on it, changes no other lease, and uses up one token. */
  lemma TakeThenGiveBack(t: Lease.Table, node: WarmPool.Node, owner: string, ttl: int, reading: int)
    requires TryNode(t, node, owner, ttl, reading).1.Granted?
    ensures var (t1, out) := TryNode(t, node, owner, ttl, reading);
      Lease.Released(t1, Resource(node.id), TrimSpace(owner), out.token) ==
      Lease.Table(t.issued + 1, t.entries - {Resource(node.id)})
  {
    var (t1, out) := TryNode(t, node, owner, ttl, reading);
    assert t1.entries - {Resource(node.id)} == t.entries - {Resource(node.id)};
  }

  // ---------------------------------------------------------------- marks set while a node is leased

  /** What can happen to the state of a node: a heartbeat of anybody, or a state set by an operator, by the pool
      manager or by a registration. */
  datatype StateEvent = Beat(sent: WarmPool.NodeState) | Set(state: WarmPool.NodeState)

  function StateNext(was: WarmPool.NodeState, e: StateEvent): WarmPool.NodeState {
    match e
    case Beat(sent) => WarmPool.BeatState(was, sent)
    case Set(state) => state
  }

  function StateAfter(was: WarmPool.NodeState, events: seq<StateEvent>): WarmPool.NodeState {
    if events == [] then was
    else StateNext(StateAfter(was, events[..|events| - 1]), events[|events| - 1])
  }

  /** The registry's operations change the state of a node in these ways only. */
  lemma RegistryChangesStates(nodes: WarmPool.Nodes, id: string, state: WarmPool.NodeState, at: int, until: int)
    requires id in nodes
    ensures WarmPool.Beaten(nodes[id], state, at, until).state == StateNext(nodes[id].state, Beat(state))
    ensures WarmPool.Placed(nodes[id], state, at).state == StateNext(nodes[id].state, Set(state))
    ensures WarmPool.Registered(nodes, id, "", "", at, until)[id].state ==
            StateNext(nodes[id].state, Set(WarmPool.Ready))
  {
  }

  predicate IsMark(state: WarmPool.NodeState) {
    state == WarmPool.Draining || state == WarmPool.Dead
  }

  /** The event leaves the node in this state whatever it was. */
  predicate Makes(e: StateEvent, state: WarmPool.NodeState) {
    e == Set(state) || (e == Beat(state) && state != WarmPool.Ready)
  }

  /** Event `i` marks the node, and after it there are Ready heartbeats only. */
  predicate MarksLast(events: seq<StateEvent>, i: int, mark: WarmPool.NodeState) {
    && 0 <= i < |events| && Makes(events[i], mark)
    && forall j :: i < j < |events| ==> events[j] == Beat(WarmPool.Ready)
  }

  lemma MarksLastNext(events: seq<StateEvent>, e: StateEvent, i: int, mark: WarmPool.NodeState)
    requires 0 <= i < |events|
    ensures MarksLast(events + [e], i, mark) <==> MarksLast(events, i, mark) && e == Beat(WarmPool.Ready)
  {
    assert (events + [e])[|events|] == e;
    assert forall j :: 0 <= j < |events| ==> (events + [e])[j] == events[j];
  }

  lemma {:induction false} MarkedIff(was: WarmPool.NodeState, events: seq<StateEvent>, mark: WarmPool.NodeState)
    requires IsMark(mark) && was != mark
    ensures StateAfter(was, events) == mark <==> exists i :: MarksLast(events, i, mark)
  {
    if events != [] {
      var shorter, e := events[..|events| - 1], events[|events| - 1];
      assert events == shorter + [e];
      MarkedIff(was, shorter, mark);
      if StateAfter(was, events) == mark {
        if Makes(e, mark) {
          assert MarksLast(events, |shorter|, mark);
        } else {
          var i :| MarksLast(shorter, i, mark);
          MarksLastNext(shorter, e, i, mark);
        }
      }
      forall i | MarksLast(events, i, mark) ensures StateAfter(was, events) == mark {
        if i < |shorter| {
          MarksLastNext(shorter, e, i, mark);
        }
      }
    }
  }

  /** A Draining or Dead mark on a leased node, whoever sets it and whatever else happens between the taking and
      the release of the node: after the Ready heartbeat of the release the node is marked exactly when some
      event marked it and only Ready heartbeats came after that one. Otherwise it is Ready. */
  lemma MarkSurvivesReleaseIff(events: seq<StateEvent>, mark: WarmPool.NodeState)
    requires IsMark(mark)
    ensures var end := StateAfter(WarmPool.Leased, events + [Beat(WarmPool.Ready)]);
      && (end == mark <==> exists i :: MarksLast(events, i, mark))
      && (end == WarmPool.Ready || IsMark(end))
  {
    var all := events + [Beat(WarmPool.Ready)];
    assert all[..|events|] == events;
    MarkedIff(WarmPool.Leased, events, mark);
  }

  /** In particular a mark set while the node is leased survives if and only if no Leased heartbeat follows it:
      the next tick of the keepalive undoes it. */
  lemma MarkSurvivesIffNoLeasedBeatFollows(events: seq<StateEvent>, i: nat, mark: WarmPool.NodeState)
    requires IsMark(mark) && i < |events| && events[i] == Set(mark)
    requires forall j :: i < j < |events| ==> events[j] in {Beat(WarmPool.Leased), Beat(WarmPool.Ready)}
    ensures StateAfter(WarmPool.Leased, events + [Beat(WarmPool.Ready)]) == mark <==>
      Beat(WarmPool.Leased) !in events[i + 1..]
  {
    MarkSurvivesReleaseIff(events, mark);
    if Beat(WarmPool.Leased) !in events[i + 1..] {
      forall j | i < j < |events| ensures events[j] == Beat(WarmPool.Ready) {
        assert events[j] == events[i + 1..][j - i - 1];
      }
      assert MarksLast(events, i, mark);
    } else {
      var j :| i < j < |events| && events[j] == Beat(WarmPool.Leased);
      forall k ensures !MarksLast(events, k, mark) {
        if k > i && k < |events| {
          assert !Makes(events[k], mark);
        }
      }
    }
  }

  /** A trimmed id behind a prefix of printable ASCII is trimmed. */
  lemma PrefixedIsTrimmed(t: string)
    requires Trimmed(t)
    ensures Trimmed("node:" + t)
  {
    var s := "node:" + t;
    if t == "" {
      PrintableEndsAreTrimmed(s);
    } else {
      forall k | 1 <= k <= 3 ensures !IsSpaceRune(s[..k]) && !IsSpaceRune(s[|s| - k..]) {
        assert s[..k][0] == 'n';
        PrintableEndIsNoSpace(s[..k]);
        EndOfPrefixed(t, k);
      }
    }
  }

  lemma EndOfPrefixed(t: string, k: nat)
    requires TrailSpace(t) == 0 && t != "" && 1 <= k <= 3
    ensures var s := "node:" + t; !IsSpaceRune(s[|s| - k..])
  {
    var s := "node:" + t;
    if k <= |t| {
      assert s[|s| - k..] == t[|t| - k..];
      NoSpaceAtEnd(t, k);
    } else {
      assert s[|s| - k] in "node:";
      PrintableEndIsNoSpace(s[|s| - k..]);
    }
  }

  lemma NoSpaceAtEnd(t: string, k: nat)
    requires TrailSpace(t) == 0 && 1 <= k <= 3 && k <= |t|
    ensures !IsSpaceRune(t[|t| - k..])
  {
  }

  /** Nodes have one lease resource exactly when their trimmed ids agree. */
  lemma SameResourceIff(a: string, b: string)
    ensures Resource(a) == "node:" + TrimSpace(a)
    ensures Resource(a) == Resource(b) <==> TrimSpace(a) == TrimSpace(b)
  {
    TrimSpaceTrims(a);
    TrimSpaceTrims(b);
    PrefixedIsTrimmed(TrimSpace(a));
    PrefixedIsTrimmed(TrimSpace(b));
    TrimmedIsFixed("node:" + TrimSpace(a));
    TrimmedIsFixed("node:" + TrimSpace(b));
    var x, y := "node:" + TrimSpace(a), "node:" + TrimSpace(b);
    assert x[5..] == TrimSpace(a) && y[5..] == TrimSpace(b);
  }
}
