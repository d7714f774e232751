/** Replay lineage (internal/api/tasks.go): a replay creates a task whose source is an existing task, and
    getReplayChain walks the sources back, cut at a maximal depth. */
module ReplayChain {
  import opened Text
  import opened TaskService

  // ---------------------------------------------------------------- stores the API can build

  /** A create call of the API has no source, or, for a replay, the id of a task it just found. */
  predicate FromApi(s: Store, calls: seq<Call>)
    decreases |calls|
  {
    calls != [] ==>
      && (calls[0].Create? ==> calls[0].input.sourceId == "" || calls[0].input.sourceId in s.items)
      && FromApi(Step(s, calls[0]).0, calls[1..])
  }

  /** The number in a task id. */
  function IdNumber(id: string): nat {
    if |id| >= 5 && AllDigits(id[5..]) then Value(id[5..]) else 0
  }

  lemma IdNumberOfTaskId(n: nat)
    ensures IdNumber(TaskId(n)) == n
  {
    assert TaskId(n)[5..] == Pad6(n);
    ValueOfPad6(n);
  }

  lemma TaskIdIsTrimmed(n: nat)
    ensures TaskId(n) != "" && TrimSpace(TaskId(n)) == TaskId(n)
  {
    var id := TaskId(n);
    assert id[0] == 't' && IsDigit(id[|id| - 1]);
    PrintableEndsAreTrimmed(id);
    TrimmedIsFixed(id);
  }

  /** A record's source is missing, or an existing record with a smaller number: sources are well founded. */
  predicate SourceOk(s: Store, id: string) {
    id in s.items ==>
      var source := s.items[id].sourceId;
      source == "" || (source in s.items && IdNumber(source) < IdNumber(id))
  }

  ghost predicate WellSourced(s: Store) {
    StoreOk(s) && forall id :: SourceOk(s, id)
  }

  lemma StepKeepsSource(s: Store, call: Call, id: string)
    requires WellSourced(s)
    requires call.Create? ==> call.input.sourceId == "" || call.input.sourceId in s.items
    ensures SourceOk(Step(s, call).0, id)
  {
    assert SourceOk(s, id) && RecordOk(s, TaskId(s.counter + 1));
    FreshId(s);
    if call.Create? {
      var source := call.input.sourceId;
      IdNumberOfTaskId(s.counter + 1);
      if source in s.items {
        assert RecordOk(s, source);
        var n :| 1 <= n <= s.counter && source == TaskId(n);
        IdNumberOfTaskId(n);
      }
    }
  }

  lemma {:induction false} RunKeepsSources(s: Store, calls: seq<Call>)
    requires WellSourced(s) && FromApi(s, calls)
    ensures WellSourced(Run(s, calls))
    decreases |calls|
  {
    if calls != [] {
      var v := Step(s, calls[0]).0;
      forall id ensures RecordOk(v, id) {
        StepKeepsRecord(s, calls[0], id);
      }
      forall id ensures SourceOk(v, id) {
        StepKeepsSource(s, calls[0], id);
      }
      RunKeepsSources(v, calls[1..]);
    }
  }

  /** Every store built by create and replay calls, with any other calls in between, has well-founded
      sources. */
  lemma ApiStoresAreWellSourced(calls: seq<Call>)
    requires FromApi(Empty, calls)
    ensures WellSourced(Run(Empty, calls))
  {
    RunKeepsSources(Empty, calls);
  }

  // ---------------------------------------------------------------- the true lineage

  /** The record, its source, the source of that one, and so on to a task without a source. */
  ghost function Lineage(s: Store, id: string): seq<Task>
    requires WellSourced(s) && id in s.items
    decreases IdNumber(id)
  {
    assert SourceOk(s, id);
    var t := s.items[id];
    [t] + if t.sourceId == "" then [] else Lineage(s, t.sourceId)
  }

  /** The ids along a lineage get smaller, so it never repeats a task. */
  lemma {:induction false} LineageDescends(s: Store, id: string)
    requires WellSourced(s) && id in s.items
    ensures Descends(s, id, Lineage(s, id))
    decreases IdNumber(id)
  {
    assert SourceOk(s, id) && RecordOk(s, id);
    var t := s.items[id];
    if t.sourceId != "" {
      LineageDescends(s, t.sourceId);
      assert RecordOk(s, t.sourceId);
      DescendsFrom(s, id, Lineage(s, t.sourceId));
    }
  }

  /** `a` starts with the record of `id`, each record's source comes next, and numbers decrease. */
  ghost predicate Descends(s: Store, id: string, a: seq<Task>) {
    && id in s.items && a != [] && a[0] == s.items[id]
    && (forall i :: 0 <= i < |a| ==> a[i].id in s.items && s.items[a[i].id] == a[i])
    && (forall i, j :: 0 <= i < j < |a| ==> IdNumber(a[j].id) < IdNumber(a[i].id))
    && (forall i :: 0 <= i < |a| - 1 ==> a[i].sourceId == a[i + 1].id)
    && a[|a| - 1].sourceId == ""
  }

  lemma DescendsFrom(s: Store, id: string, rest: seq<Task>)
    requires id in s.items && s.items[id].id == id
    requires Descends(s, s.items[id].sourceId, rest) && rest[0].id == s.items[id].sourceId
    requires IdNumber(rest[0].id) < IdNumber(id)
    ensures Descends(s, id, [s.items[id]] + rest)
  {
    var a := [s.items[id]] + rest;
    assert forall i :: 1 <= i < |a| ==> a[i] == rest[i - 1];
    forall i, j | 0 <= i < j < |a| ensures IdNumber(a[j].id) < IdNumber(a[i].id) {
      if i > 0 {
        assert IdNumber(rest[j - 1].id) < IdNumber(rest[i - 1].id);
      } else if j > 1 {
        assert IdNumber(rest[j - 1].id) < IdNumber(rest[0].id);
      }
    }
  }

  lemma ExistingIdIsTrimmed(s: Store, id: string)
    requires StoreOk(s) && id in s.items
    ensures id != "" && TrimSpace(id) == id && s.items[id].id == id
  {
    assert RecordOk(s, id);
    var n :| 1 <= n <= s.counter && id == TaskId(n);
    TaskIdIsTrimmed(n);
  }

  // ---------------------------------------------------------------- the handler

  datatype DepthParam = Absent | Unparsable | Given(n: int)

  datatype Response = BadDepth | TaskMissing | Chain(tasks: seq<Task>, truncated: bool)

  function DepthOf(p: DepthParam): nat {
    match p
    case Given(n) => if n > 100 then 100 else if n > 0 then n else 0
    case _ => 20
  }

  /** The chain repeats no task and each task is followed by its source. */
  predicate FollowsSources(chain: seq<Task>) {
    && (forall i, j :: 0 <= i < j < |chain| ==> chain[i].id != chain[j].id)
    && (forall i :: 0 <= i < |chain| - 1 ==> TrimSpace(chain[i].sourceId) == chain[i + 1].id)
  }

  ghost function Ids(chain: seq<Task>): set<string> {
    set i | 0 <= i < |chain| :: chain[i].id
  }

  lemma IdsAppend(chain: seq<Task>, t: Task)
    ensures Ids(chain + [t]) == Ids(chain) + {t.id}
  {
    var longer := chain + [t];
    assert longer[|chain|] == t;
    forall v | v in Ids(chain) ensures v in Ids(longer) {
      var i :| 0 <= i < |chain| && chain[i].id == v;
      assert longer[i].id == v;
    }
  }

  lemma FollowsSourcesAppend(chain: seq<Task>, t: Task)
    requires FollowsSources(chain) && t.id !in Ids(chain)
    requires chain != [] ==> TrimSpace(chain[|chain| - 1].sourceId) == t.id
    ensures FollowsSources(chain + [t])
  {
    assert forall i :: 0 <= i < |chain| ==> chain[i].id in Ids(chain);
  }

  /** The walk from `start` stands before `nextId`. */
  ghost predicate Walk(start: string, chain: seq<Task>, visited: set<string>, nextId: string) {
    && FollowsSources(chain)
    && visited == Ids(chain)
    && nextId == if chain == [] then start else TrimSpace(chain[|chain| - 1].sourceId)
  }

  ghost function CutLineage(s: Store, id: string, depth: nat): Response
    requires WellSourced(s) && id in s.items
  {
    var a := Lineage(s, id);
    Chain(if |a| <= depth then a else a[..depth], |a| > depth)
  }

  /** For every store the chain follows sources, repeats nothing and respects the depth; for a store the
      API can build it is the true lineage cut at the depth, and `truncated` says exactly whether the
      lineage is longer. */
  method GetReplayChain(s: Store, id: string, depth: DepthParam) returns (r: Response)
    requires StoreOk(s)
    ensures r == BadDepth <==> depth == Unparsable || (depth.Given? && depth.n <= 0)
    ensures r.Chain? ==> |r.tasks| <= DepthOf(depth) && FollowsSources(r.tasks)
    ensures r.Chain? ==> |r.tasks| <= 100 && (depth.Absent? ==> |r.tasks| <= 20)
    ensures r.Chain? && depth.Given? ==> |r.tasks| <= depth.n
    ensures r != BadDepth && TrimSpace(id) != "" ==> (r == TaskMissing <==> TrimSpace(id) !in s.items)
    ensures r != BadDepth && WellSourced(s) && TrimSpace(id) in s.items ==>
      && r == CutLineage(s, TrimSpace(id), DepthOf(depth))
      && var a, n := Lineage(s, TrimSpace(id)), if depth.Absent? then 20 else if depth.n < 100 then depth.n else 100;
        && r.Chain? && r.tasks <= a && |r.tasks| == (if |a| < n then |a| else n) && (r.truncated <==> |a| > n)
  {
    if depth.Unparsable? || (depth.Given? && depth.n <= 0) {
      return BadDepth;
    }
    var maxDepth := 20;
    if depth.Given? {
      maxDepth := if depth.n > 100 then 100 else depth.n;
    }
    r := WalkBack(s, TrimSpace(id), maxDepth);
  }

  method WalkBack(s: Store, start: string, maxDepth: nat) returns (r: Response)
    requires StoreOk(s) && maxDepth > 0
    ensures r != BadDepth
    ensures r.Chain? ==> |r.tasks| <= maxDepth && FollowsSources(r.tasks)
    ensures start != "" ==> (r == TaskMissing <==> start !in s.items)
    ensures WellSourced(s) && start in s.items ==> r == CutLineage(s, start, maxDepth)
  {
    var chain: seq<Task> := [];
    var visited: set<string> := {};
    var nextId := start;
    var truncated := false;
    ghost var good := WellSourced(s) && start in s.items;
    if good {
      LineageStart(s, start);
    }

    while |chain| < maxDepth && nextId != ""
      invariant |chain| <= maxDepth && !truncated && Walk(start, chain, visited, nextId)
      invariant chain != [] ==> start in s.items
      invariant good ==> OnLineage(s, start, chain, nextId)
      decreases maxDepth - |chain|
    {
      if good {
        NextIsNew(s, start, chain, nextId);
      }
      if nextId in visited {
        truncated := true;
        break;
      }
      visited := visited + {nextId};
      if nextId !in s.items {
        if |chain| == 0 {
          return TaskMissing;
        }
        truncated := true;
        break;
      }
      var found := s.items[nextId];
      ExistingIdIsTrimmed(s, nextId);
      FollowsSourcesAppend(chain, found);
      IdsAppend(chain, found);
      if good {
        LineageStep(s, start, chain, nextId);
      }
      chain := chain + [found];
      nextId := TrimSpace(found.sourceId);
    }

    if nextId != "" && |chain| >= maxDepth {
      truncated := true;
    }
    r := Chain(chain, truncated);
  }

  /** The chain built so far is the beginning of the lineage, and the walk goes on where it ends. */
  ghost predicate OnLineage(s: Store, start: string, chain: seq<Task>, nextId: string)
    requires WellSourced(s) && start in s.items
  {
    var a := Lineage(s, start);
    && chain <= a
    && (nextId != "" <==> |chain| < |a|)
    && (nextId != "" ==> a[|chain|].id == nextId)
  }

  lemma LineageStart(s: Store, start: string)
    requires WellSourced(s) && start in s.items
    ensures OnLineage(s, start, [], start)
  {
    LineageDescends(s, start);
    ExistingIdIsTrimmed(s, start);
  }

  lemma NextIsNew(s: Store, start: string, chain: seq<Task>, nextId: string)
    requires WellSourced(s) && start in s.items && OnLineage(s, start, chain, nextId) && nextId != ""
    ensures nextId in s.items && forall t :: t in chain ==> t.id != nextId
  {
    var a := Lineage(s, start);
    LineageDescends(s, start);
    forall t | t in chain ensures t.id != nextId {
      var i :| 0 <= i < |chain| && chain[i] == t;
      assert a[i] == t && IdNumber(a[|chain|].id) < IdNumber(a[i].id);
    }
  }

  lemma LineageStep(s: Store, start: string, chain: seq<Task>, nextId: string)
    requires WellSourced(s) && start in s.items && OnLineage(s, start, chain, nextId) && nextId in s.items
    requires nextId != ""
    ensures OnLineage(s, start, chain + [s.items[nextId]], TrimSpace(s.items[nextId].sourceId))
  {
    var a := Lineage(s, start);
    LineageDescends(s, start);
    var k := |chain|;
    assert a[k] == s.items[nextId];
    if k + 1 < |a| {
      ExistingIdIsTrimmed(s, a[k + 1].id);
    } else {
      TrimmedIsFixed("");
    }
  }
}
