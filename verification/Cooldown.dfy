/** The per-domain cooldown after a blocking challenge (internal/taskrunner/runner.go): a map that deletes
    its own expired entries, as a summary of the recorded blockers. Hosts are given normalised; "" means
    that the URL had none. */
module Cooldown {
  import opened Text

  type Blocked = map<string, int>

  /** Only two kinds of blockers start a cooldown. */
  predicate StartsCooldown(blockerType: string) {
    var blocker := ToLower(TrimSpace(blockerType));
    blocker == "human_verification_required" || blocker == "bot_blocked"
  }

  /** `counts`: the blocker is of a kind that starts a cooldown. */
  function Mark(m: Blocked, cooldown: int, host: string, counts: bool, now: int): Blocked {
    if host != "" && counts then Raise(m, host, now + cooldown) else m
  }

  function Raise(m: Blocked, host: string, until: int): Blocked {
    if host !in m || m[host] < until then m[host := until] else m
  }

  function Query(m: Blocked, host: string, now: int): (Blocked, bool) {
    if host == "" || host !in m then (m, false)
    else if now > m[host] then (m - {host}, false)
    else (m, true)
  }

  class DomainCooldown {
    const cooldown: int
    var blockedDomains: Blocked

    /** A non-positive configured cooldown becomes three minutes. */
    constructor (configured: int)
      ensures cooldown == (if configured <= 0 then 180_000_000_000 else configured) && blockedDomains == map[]
    {
      cooldown := if configured <= 0 then 180_000_000_000 else configured;
      blockedDomains := map[];
    }

    method IsDomainBlocked(host: string, now: int) returns (active: bool, until: int)
      modifies this
      ensures (blockedDomains, active) == Query(old(blockedDomains), host, now)
      ensures active ==> host in blockedDomains && until == blockedDomains[host]
    {
      if host == "" || host !in blockedDomains {
        return false, 0;
      }
      until := blockedDomains[host];
      if now > until {
        blockedDomains := blockedDomains - {host};
        return false, 0;
      }
      active := true;
    }

    method MarkDomainBlocked(host: string, blockerType: string, now: int)
      modifies this
      ensures blockedDomains == Mark(old(blockedDomains), cooldown, host, StartsCooldown(blockerType), now)
      ensures host == "" || ToLower(TrimSpace(blockerType)) !in {"human_verification_required", "bot_blocked"} ==>
        blockedDomains == old(blockedDomains)
      ensures host != "" && ToLower(TrimSpace(blockerType)) in {"human_verification_required", "bot_blocked"} ==>
        && host in blockedDomains && blockedDomains[host] >= now + cooldown
        && blockedDomains == old(blockedDomains)[host := blockedDomains[host]]
        && (blockedDomains[host] == now + cooldown
            || (host in old(blockedDomains) && blockedDomains[host] == old(blockedDomains)[host]))
    {
      var blocker := ToLower(TrimSpace(blockerType));
      if blocker != "human_verification_required" && blocker != "bot_blocked" {
        return;
      }
      if host == "" {
        return;
      }
      var until := now + cooldown;
      if host !in blockedDomains || blockedDomains[host] < until {
        blockedDomains := blockedDomains[host := until];
      }
    }
  }

  // ---------------------------------------------------------------- the history the map summarises

  datatype Event =
    | Marked(host: string, counts: bool, at: int)
    | Queried(host: string, at: int)

  function Apply(m: Blocked, cooldown: int, e: Event): Blocked {
    match e
    case Marked(host, counts, at) => Mark(m, cooldown, host, counts, at)
    case Queried(host, at) => Query(m, host, at).0
  }

  /** The map after a history. */
  function After(history: seq<Event>, cooldown: int): Blocked {
    if history == [] then map[]
    else Apply(After(history[..|history| - 1], cooldown), cooldown, history[|history| - 1])
  }

  predicate InOrder(history: seq<Event>) {
    forall i, j :: 0 <= i < j < |history| ==> history[i].at <= history[j].at
  }

  /** The event recorded a blocker on the host that is no older than the cooldown at `now`. */
  predicate RecentBlocker(e: Event, cooldown: int, host: string, now: int) {
    e.Marked? && e.counts && e.host == host != "" && now <= e.at + cooldown
  }

  /** When the blocker of the event stops counting. */
  function Deadline(e: Event, cooldown: int): int {
    e.at + cooldown
  }

  /** Event `i` recorded a blocker on the host, and no later query of that host had a reading beyond its
      deadline. */
  predicate Survives(history: seq<Event>, i: int, cooldown: int, host: string) {
    && 0 <= i < |history| && history[i].Marked? && history[i].counts && history[i].host == host != ""
    && forall j :: i < j < |history| && history[j].Queried? && history[j].host == host ==>
         history[j].at <= Deadline(history[i], cooldown)
  }

  /** A host's entry is the latest deadline of a surviving blocker; it is missing when none survives. */
  ghost predicate Summarises(m: Blocked, history: seq<Event>, cooldown: int, host: string) {
    && (host in m ==> exists i :: Survives(history, i, cooldown, host) && Deadline(history[i], cooldown) == m[host])
    && (forall i :: Survives(history, i, cooldown, host) ==> host in m && Deadline(history[i], cooldown) <= m[host])
  }

  /** One more event lets a survivor survive unless it queries the host beyond its deadline. */
  lemma SurvivesNext(history: seq<Event>, e: Event, i: int, cooldown: int, host: string)
    requires 0 <= i < |history|
    ensures Survives(history + [e], i, cooldown, host) <==>
      && Survives(history, i, cooldown, host)
      && (e.Queried? && e.host == host ==> e.at <= Deadline(history[i], cooldown))
  {
    var longer := history + [e];
    assert longer[|history|] == e;
    assert forall j :: 0 <= j < |history| ==> longer[j] == history[j];
  }

  lemma NewestSurvives(history: seq<Event>, e: Event, cooldown: int, host: string)
    ensures Survives(history + [e], |history|, cooldown, host) <==> e.Marked? && e.counts && e.host == host != ""
  {
  }

  lemma EventSummarises(m: Blocked, history: seq<Event>, e: Event, cooldown: int, host: string)
    requires Summarises(m, history, cooldown, host)
    ensures Summarises(Apply(m, cooldown, e), history + [e], cooldown, host)
  {
    var v, longer := Apply(m, cooldown, e), history + [e];
    forall i | Survives(longer, i, cooldown, host) ensures host in v && Deadline(longer[i], cooldown) <= v[host] {
      if i < |history| {
        SurvivesNext(history, e, i, cooldown, host);
      }
    }
    if host in v {
      if e.Marked? && e.host == host && v[host] == Deadline(e, cooldown) && v != m {
        NewestSurvives(history, e, cooldown, host);
      } else {
        var i :| Survives(history, i, cooldown, host) && Deadline(history[i], cooldown) == m[host];
        SurvivesNext(history, e, i, cooldown, host);
        assert longer[i] == history[i];
      }
    }
  }

  lemma {:induction false} AfterSummarises(history: seq<Event>, cooldown: int, host: string)
    ensures Summarises(After(history, cooldown), history, cooldown, host)
  {
    if history != [] {
      var shorter, e := history[..|history| - 1], history[|history| - 1];
      AfterSummarises(shorter, cooldown, host);
      EventSummarises(After(shorter, cooldown), shorter, e, cooldown, host);
      assert history == shorter + [e];
    }
  }

  /** For every history, in any order of the readings: a host is reported blocked exactly when some recorded
      blocker on it is no older than the cooldown and no query made after it had a reading beyond its deadline. */
  lemma BlockedIffSurvivor(history: seq<Event>, cooldown: int, host: string, now: int)
    ensures Query(After(history, cooldown), host, now).1
      <==> exists i :: Survives(history, i, cooldown, host) && RecentBlocker(history[i], cooldown, host, now)
  {
    AfterSummarises(history, cooldown, host);
    var m := After(history, cooldown);
    if Query(m, host, now).1 {
      var i :| Survives(history, i, cooldown, host) && Deadline(history[i], cooldown) == m[host];
      assert RecentBlocker(history[i], cooldown, host, now);
    }
  }

  /** For times that do not go backwards, a host is reported blocked exactly when some recorded blocker on
      it is no older than the cooldown. */
  lemma BlockedIffRecentBlocker(history: seq<Event>, cooldown: int, host: string, now: int)
    requires InOrder(history) && (history != [] ==> history[|history| - 1].at <= now)
    ensures Query(After(history, cooldown), host, now).1
      <==> exists i :: 0 <= i < |history| && RecentBlocker(history[i], cooldown, host, now)
  {
    BlockedIffSurvivor(history, cooldown, host, now);
    forall i | 0 <= i < |history| && RecentBlocker(history[i], cooldown, host, now)
      ensures Survives(history, i, cooldown, host)
    {
      assert forall j :: i < j < |history| ==> history[j].at <= now;
    }
  }

  /** The order of the readings matters: a query with a later reading deletes the entry that a query with
      an earlier reading, made afterwards, would still have honoured. */
  lemma OutOfOrderQueryForgets(cooldown: int, host: string)
    requires host != "" && cooldown > 0
    ensures var mark := Marked(host, true, 0);
      && RecentBlocker(mark, cooldown, host, cooldown)
      && Query(After([mark], cooldown), host, cooldown).1
      && !Query(After([mark, Queried(host, cooldown + 1)], cooldown), host, cooldown).1
  {
    var mark, late := Marked(host, true, 0), Queried(host, cooldown + 1);
    assert [mark][..0] == [] && [mark, late][..1] == [mark];
    assert After([mark], cooldown) == Apply(After([], cooldown), cooldown, mark);
    assert After([mark, late], cooldown) == Apply(After([mark], cooldown), cooldown, late);
  }
}
