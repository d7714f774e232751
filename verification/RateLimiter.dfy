/** The fixed-window rate limiter (internal/api/security.go). Times are nanoseconds since Go's zero time,
    to which `Truncate` aligns the windows. */
module RateLimiter {
  import opened Text

  datatype Bucket = Bucket(windowStart: nat, count: nat)

  type Clients = map<string, Bucket>

  function ClientKey(client: string): string {
    if TrimSpace(client) == "" then "unknown" else TrimSpace(client)
  }

  /** Truncate: the start of the window that contains `t`. */
  function WindowStart(t: nat, window: nat): nat
    requires window > 0
  {
    t - t % window
  }

  /** Above this many clients, buckets that ended at least two windows ago are dropped. */
  const PruneAt: nat := 1000

  function Pruned(m: Clients, active: nat, window: nat): Clients {
    if |m| < PruneAt then m
    else map k | k in m && !(m[k].windowStart < active - 2 * window) :: m[k]
  }

  /** The bucket a call looks at: a bucket of another window, or of the zero time, counts as empty. */
  function CurrentCount(m: Clients, key: string, start: nat): nat {
    if key !in m || m[key].windowStart == 0 || m[key].windowStart != start then 0 else m[key].count
  }

  function Call(m: Clients, limit: nat, window: nat, key: string, t: nat): (Clients, bool)
    requires window > 0
  {
    var start := WindowStart(t, window);
    var count := CurrentCount(m, key, start);
    if count >= limit then (m, false)
    else (Pruned(m[key := Bucket(start, count + 1)], start, window), true)
  }

  class FixedWindowLimiter {
    const limit: nat
    const window: nat
    var clients: Clients

    constructor (configuredLimit: int, configuredWindow: int)
      ensures limit == (if configuredLimit <= 0 then 1 else configuredLimit)
      ensures window == (if configuredWindow <= 0 then 60_000_000_000 else configuredWindow)
      ensures clients == map[]
    {
      limit := if configuredLimit <= 0 then 1 else configuredLimit;
      window := if configuredWindow <= 0 then 60_000_000_000 else configuredWindow;
      clients := map[];
    }

    method Allow(client: string, now: nat) returns (allowed: bool)
      requires window > 0
      modifies this
      ensures (clients, allowed) == Call(old(clients), limit, window, ClientKey(client), now)
    {
      var key := TrimSpace(client);
      if key == "" {
        key := "unknown";
      }
      var start := now - now % window;
      var bucket := if key in clients then clients[key] else Bucket(0, 0);
      if bucket.windowStart == 0 || bucket.windowStart != start {
        bucket := Bucket(start, 0);
      }
      if bucket.count >= limit {
        return false;
      }
      clients := clients[key := bucket.(count := bucket.count + 1)];
      PruneLocked(start);
      allowed := true;
    }

    method PruneLocked(active: nat)
      modifies this
      ensures clients == Pruned(old(clients), active, window)
    {
      if |clients| < PruneAt {
        return;
      }
      var cutoff := active - 2 * window;
      var todo := clients.Keys;
      ghost var before := clients;
      while todo != {}
        invariant todo <= before.Keys
        invariant clients == map k | k in before && (k in todo || !(before[k].windowStart < cutoff)) :: before[k]
        decreases |todo|
      {
        var key :| key in todo;
        todo := todo - {key};
        if clients[key].windowStart < cutoff {
          clients := clients - {key};
        }
      }
    }
  }

  // ---------------------------------------------------------------- the history the map summarises

  /** A call and the answer it got. */
  datatype Event = Event(key: string, at: nat, allowed: bool)

  /** The map after a history of calls. */
  function After(history: seq<Event>, limit: nat, window: nat): Clients
    requires window > 0
  {
    if history == [] then map[]
    else
      var e := history[|history| - 1];
      Call(After(history[..|history| - 1], limit, window), limit, window, e.key, e.at).0
  }

  /** The recorded answers are the limiter's, and times do not go backwards. */
  predicate Genuine(history: seq<Event>, limit: nat, window: nat)
    requires window > 0
  {
    history == [] ||
      var shorter, e := history[..|history| - 1], history[|history| - 1];
      && Genuine(shorter, limit, window)
      && (shorter != [] ==> shorter[|shorter| - 1].at <= e.at)
      && e.allowed == Call(After(shorter, limit, window), limit, window, e.key, e.at).1
  }

  /** How many calls of `key` were allowed at times in [from, until). */
  function Allowed(history: seq<Event>, key: string, from: int, until: int): nat {
    if history == [] then 0
    else
      var e := history[|history| - 1];
      Allowed(history[..|history| - 1], key, from, until)
        + if e.allowed && e.key == key && from <= e.at < until then 1 else 0
  }

  /** At a moment in the window starting at `start`, the bucket of a client counts its allowed calls in
      that window, and its bucket is not of a later window. */
  predicate Summarises(m: Clients, history: seq<Event>, window: nat, key: string, start: nat) {
    && CurrentCount(m, key, start) == Allowed(history, key, start, start + window)
    && (key in m ==> m[key].windowStart <= start)
  }

  lemma MulGap(a: int, b: int, w: nat)
    requires a < b
    ensures a * w + w <= b * w
  {
    assert (b - a - 1) * w >= 0;
    assert (b - a - 1) * w == b * w - a * w - w;
  }

  /** The start of a window is the multiple of the window length below the time, and the only one. */
  lemma StartIsMultiple(t: nat, window: nat)
    requires window > 0
    ensures WindowStart(t, window) == t / window * window <= t < t / window * window + window
  {
  }

  lemma StartIsUnique(t: nat, k: nat, window: nat)
    requires window > 0 && k * window <= t < k * window + window
    ensures WindowStart(t, window) == k * window
  {
    StartIsMultiple(t, window);
    var q := t / window;
    if q < k {
      MulGap(q, k, window);
    } else if k < q {
      MulGap(k, q, window);
    }
  }

  lemma WindowFacts(t: nat, u: nat, window: nat)
    requires window > 0 && t <= u
    ensures var a, b := WindowStart(t, window), WindowStart(u, window);
      a <= t < a + window && b <= u < b + window && a <= b && (a != b ==> a + window <= b)
    ensures u >= window ==> WindowStart(u, window) >= window
  {
    StartIsMultiple(t, window);
    StartIsMultiple(u, window);
    var q, r := t / window, u / window;
    if q < r {
      MulGap(q, r, window);
    } else if r < q {
      MulGap(r, q, window);
    }
    if 1 < r {
      MulGap(1, r, window);
    }
  }

  lemma {:induction false} NothingAllowedLater(history: seq<Event>, key: string, from: int, until: int)
    requires forall i :: 0 <= i < |history| ==> history[i].at < from
    ensures Allowed(history, key, from, until) == 0
  {
    if history != [] {
      NothingAllowedLater(history[..|history| - 1], key, from, until);
    }
  }

  lemma {:induction false} TimesAreOrdered(history: seq<Event>, limit: nat, window: nat)
    requires window > 0 && Genuine(history, limit, window)
    ensures forall i :: 0 <= i < |history| ==> history[i].at <= history[|history| - 1].at
  {
    if history != [] {
      TimesAreOrdered(history[..|history| - 1], limit, window);
    }
  }

  /** Going to a later window empties every client's count, in the map and in the history. */
  lemma LaterWindowIsEmpty(m: Clients, history: seq<Event>, limit: nat, window: nat, key: string, t: nat, u: nat)
    requires window > 0 && t <= u && Genuine(history, limit, window)
    requires history != [] ==> history[|history| - 1].at <= t
    requires Summarises(m, history, window, key, WindowStart(t, window))
    ensures Summarises(m, history, window, key, WindowStart(u, window))
  {
    WindowFacts(t, u, window);
    if WindowStart(t, window) != WindowStart(u, window) {
      TimesAreOrdered(history, limit, window);
      NothingAllowedLater(history, key, WindowStart(u, window), WindowStart(u, window) + window);
    }
  }

  lemma PruneKeepsCounts(m: Clients, active: nat, window: nat, key: string)
    requires key in m ==> m[key].windowStart <= active
    ensures CurrentCount(Pruned(m, active, window), key, active) == CurrentCount(m, key, active)
    ensures key in Pruned(m, active, window) ==> key in m && Pruned(m, active, window)[key] == m[key]
  {
  }

  lemma {:induction false} AfterSummarises(history: seq<Event>, limit: nat, window: nat, key: string, t: nat)
    requires window > 0 && Genuine(history, limit, window)
    requires history != [] ==> history[0].at >= window && history[|history| - 1].at <= t
    ensures Summarises(After(history, limit, window), history, window, key, WindowStart(t, window))
    decreases |history|
  {
    if history != [] {
      var shorter, e := history[..|history| - 1], history[|history| - 1];
      TimesAreOrdered(history, limit, window);
      assert shorter != [] ==> shorter[0] == history[0];
      AfterSummarises(shorter, limit, window, key, e.at);
      StepSummarises(After(shorter, limit, window), shorter, limit, window, e, key);
      assert shorter + [e] == history;
      LaterWindowIsEmpty(After(history, limit, window), history, limit, window, key, e.at, t);
    }
  }

  lemma StepSummarises(m: Clients, history: seq<Event>, limit: nat, window: nat, e: Event, key: string)
    requires window > 0 && e.at >= window
    requires Summarises(m, history, window, key, WindowStart(e.at, window))
    requires e.allowed == Call(m, limit, window, e.key, e.at).1
    ensures Summarises(Call(m, limit, window, e.key, e.at).0, history + [e], window, key, WindowStart(e.at, window))
  {
    var start := WindowStart(e.at, window);
    WindowFacts(e.at, e.at, window);
    assert (history + [e])[..|history|] == history;
    if e.allowed {
      PruneKeepsCounts(m[e.key := Bucket(start, CurrentCount(m, e.key, start) + 1)], start, window, key);
    }
  }

  /** For times that do not go backwards (and are not within one window of Go's zero time), a call is allowed
      exactly when fewer than `limit` calls of that client were allowed in its window, pruning or not. */
  lemma AllowedIffBelowLimit(history: seq<Event>, limit: nat, window: nat, key: string, t: nat)
    requires window > 0 && Genuine(history, limit, window) && t >= window
    requires history != [] ==> history[0].at >= window && history[|history| - 1].at <= t
    ensures var start := WindowStart(t, window);
      var allowed := Call(After(history, limit, window), limit, window, key, t).1;
      allowed <==> Allowed(history, key, start, start + window) < limit
  {
    AfterSummarises(history, limit, window, key, t);
  }

  lemma {:induction false} WindowCountAtMostLimit(history: seq<Event>, limit: nat, window: nat, key: string, k: nat)
    requires window > 0 && Genuine(history, limit, window)
    requires history != [] ==> history[0].at >= window
    ensures Allowed(history, key, k * window, k * window + window) <= limit
    decreases |history|
  {
    if history != [] {
      var shorter, e := history[..|history| - 1], history[|history| - 1];
      assert shorter != [] ==> shorter[0] == history[0];
      WindowCountAtMostLimit(shorter, limit, window, key, k);
      if e.allowed && e.key == key && k * window <= e.at < k * window + window {
        TimesAreOrdered(history, limit, window);
        StartIsUnique(e.at, k, window);
        AllowedIffBelowLimit(shorter, limit, window, key, e.at);
      }
    }
  }

  lemma {:induction false} AllowedSplits(history: seq<Event>, key: string, from: int, mid: int, until: int)
    requires from <= mid <= until
    ensures Allowed(history, key, from, until) == Allowed(history, key, from, mid) + Allowed(history, key, mid, until)
  {
    if history != [] {
      AllowedSplits(history[..|history| - 1], key, from, mid, until);
    }
  }

  lemma {:induction false} AllowedGrows(history: seq<Event>, key: string, from: int, until: int, lo: int, hi: int)
    requires lo <= from && until <= hi
    ensures Allowed(history, key, from, until) <= Allowed(history, key, lo, hi)
  {
    if history != [] {
      AllowedGrows(history[..|history| - 1], key, from, until, lo, hi);
    }
  }

  /** Hence at most twice the limit in ANY interval as long as one window. */
  lemma AtMostTwiceTheLimit(history: seq<Event>, limit: nat, window: nat, key: string, from: nat)
    requires window > 0 && Genuine(history, limit, window)
    requires history != [] ==> history[0].at >= window
    ensures Allowed(history, key, from, from + window) <= 2 * limit
  {
    var k := from / window;
    var a := k * window;
    StartIsMultiple(from, window);
    assert (k + 1) * window == a + window;
    AllowedSplits(history, key, from, a + window, from + window);
    AllowedGrows(history, key, from, a + window, a, a + window);
    AllowedGrows(history, key, a + window, from + window, a + window, a + window + window);
    WindowCountAtMostLimit(history, limit, window, key, k);
    WindowCountAtMostLimit(history, limit, window, key, k + 1);
  }

  // ---------------------------------------------------------------- readings that are not in order
  // (a reading is taken before the lock, so a call may commit after calls with later readings)

  /** The recorded answers are the limiter's; the readings may come in any order. */
  predicate Recorded(history: seq<Event>, limit: nat, window: nat)
    requires window > 0
  {
    history == [] ||
      var shorter, e := history[..|history| - 1], history[|history| - 1];
      && Recorded(shorter, limit, window)
      && e.allowed == Call(After(shorter, limit, window), limit, window, e.key, e.at).1
  }

  /** A call makes the limiter forget what it counted for `key` in the window at `start`: a call of the same
      client with a reading in another window, or an allowed call that prunes that window's buckets. */
  predicate Forgets(m: Clients, e: Event, window: nat, key: string, start: nat)
    requires window > 0
  {
    || (e.key == key && WindowStart(e.at, window) != start)
    || (e.allowed && |m.Keys + {e.key}| >= PruneAt && start < WindowStart(e.at, window) - 2 * window)
  }

  /** Where the calls begin that came after the last one to forget the window at `start`. */
  function Remembered(history: seq<Event>, limit: nat, window: nat, key: string, start: nat): (n: nat)
    requires window > 0
    ensures n <= |history|
  {
    if history == [] then 0
    else
      var shorter, e := history[..|history| - 1], history[|history| - 1];
      if Forgets(After(shorter, limit, window), e, window, key, start) then |history|
      else Remembered(shorter, limit, window, key, start)
  }

  lemma CallCounts(m: Clients, limit: nat, window: nat, e: Event, key: string, start: nat)
    requires window > 0 && limit > 0 && start > 0
    requires e.allowed == Call(m, limit, window, e.key, e.at).1
    ensures var v := Call(m, limit, window, e.key, e.at).0;
      CurrentCount(v, key, start) ==
        if Forgets(m, e, window, key, start) then 0
        else CurrentCount(m, key, start) + if e.allowed && e.key == key then 1 else 0
  {
    var own := WindowStart(e.at, window);
    var written := m[e.key := Bucket(own, CurrentCount(m, e.key, own) + 1)];
    assert written.Keys == m.Keys + {e.key};
    assert |written| == |written.Keys|;
  }

  lemma WindowOf(t: nat, start: nat, window: nat)
    requires window > 0 && WindowStart(t, window) == start
    ensures start <= t < start + window
  {
    StartIsMultiple(t, window);
  }

  lemma {:induction false} CountsRemembered(history: seq<Event>, limit: nat, window: nat, key: string, start: nat)
    requires window > 0 && limit > 0 && start > 0 && Recorded(history, limit, window)
    ensures CurrentCount(After(history, limit, window), key, start) ==
      Allowed(history[Remembered(history, limit, window, key, start)..], key, start, start + window)
  {
    if history != [] {
      var shorter, e := history[..|history| - 1], history[|history| - 1];
      var m, n := After(shorter, limit, window), Remembered(shorter, limit, window, key, start);
      CountsRemembered(shorter, limit, window, key, start);
      CallCounts(m, limit, window, e, key, start);
      if !Forgets(m, e, window, key, start) {
        var later := history[n..];
        assert later[..|later| - 1] == shorter[n..] && later[|later| - 1] == e;
        if e.key == key {
          WindowOf(e.at, start, window);
        }
      }
    }
  }

  /** For every history, in any order of the readings: a call is allowed exactly when fewer than `limit` calls
      of that client were allowed in its window since the last call that made the limiter forget that window. */
  lemma AllowedIffFewRemembered(history: seq<Event>, limit: nat, window: nat, key: string, t: nat)
    requires window > 0 && limit > 0 && Recorded(history, limit, window) && WindowStart(t, window) > 0
    ensures var start := WindowStart(t, window);
      var n := Remembered(history, limit, window, key, start);
      var allowed := Call(After(history, limit, window), limit, window, key, t).1;
      allowed <==> Allowed(history[n..], key, start, start + window) < limit
  {
    CountsRemembered(history, limit, window, key, WindowStart(t, window));
  }

  lemma {:induction false} AllowedOfSuffix(history: seq<Event>, n: nat, key: string, from: int, until: int)
    requires n <= |history|
    ensures Allowed(history, key, from, until) ==
      Allowed(history[..n], key, from, until) + Allowed(history[n..], key, from, until)
  {
    if n == |history| {
      assert history[..n] == history && history[n..] == [];
    } else {
      var shorter := history[..|history| - 1];
      AllowedOfSuffix(shorter, n, key, from, until);
      assert shorter[..n] == history[..n];
      assert history[n..][..|history| - n - 1] == shorter[n..];
    }
  }

  /** The limiter keeps its promise for a call, allowed exactly below the limit in its window, exactly unless
      so many allowed calls of that window were forgotten that those remembered stay below the limit. */
  lemma LimitKeptIff(history: seq<Event>, limit: nat, window: nat, key: string, t: nat)
    requires window > 0 && limit > 0 && Recorded(history, limit, window) && WindowStart(t, window) > 0
    ensures var start := WindowStart(t, window);
      var n := Remembered(history, limit, window, key, start);
      var allowed := Call(After(history, limit, window), limit, window, key, t).1;
      var remembered := Allowed(history[n..], key, start, start + window);
      var forgotten := Allowed(history[..n], key, start, start + window);
      (allowed <==> Allowed(history, key, start, start + window) < limit) <==>
        !(remembered < limit <= remembered + forgotten)
  {
    var start := WindowStart(t, window);
    AllowedIffFewRemembered(history, limit, window, key, t);
    AllowedOfSuffix(history, Remembered(history, limit, window, key, start), key, start, start + window);
  }

  /** The history followed by `n` equal calls, all allowed. */
  function Burst(history: seq<Event>, key: string, t: nat, n: nat): seq<Event> {
    if n == 0 then history else Burst(history, key, t, n - 1) + [Event(key, t, true)]
  }

  lemma RecordOne(history: seq<Event>, limit: nat, window: nat, key: string, t: nat)
    requires window > 0 && limit > 0 && Recorded(history, limit, window)
    requires CurrentCount(After(history, limit, window), key, WindowStart(t, window)) < limit
    ensures var e := Event(key, t, true);
      && Recorded(history + [e], limit, window)
      && After(history + [e], limit, window) == Call(After(history, limit, window), limit, window, key, t).0
      && forall from, until :: Allowed(history + [e], key, from, until) ==
           Allowed(history, key, from, until) + if from <= t < until then 1 else 0
  {
    var e := Event(key, t, true);
    assert (history + [e])[..|history|] == history;
  }

  lemma OneMoreAllowed(history: seq<Event>, limit: nat, window: nat, key: string, t: nat, start: nat)
    requires window > 0 && limit > 0 && Recorded(history, limit, window)
    requires start > 0 && start == WindowStart(t, window)
    requires CurrentCount(After(history, limit, window), key, start) < limit
    ensures var more := history + [Event(key, t, true)];
      && Recorded(more, limit, window)
      && CurrentCount(After(more, limit, window), key, start) ==
           CurrentCount(After(history, limit, window), key, start) + 1
      && Allowed(more, key, start, start + window) == Allowed(history, key, start, start + window) + 1
  {
    WindowOf(t, start, window);
    RecordOne(history, limit, window, key, t);
    CallCounts(After(history, limit, window), limit, window, Event(key, t, true), key, start);
  }

  lemma {:induction false} BurstIsAllowed(history: seq<Event>, limit: nat, window: nat, key: string, t: nat,
                                          start: nat, n: nat)
    requires window > 0 && limit > 0 && n <= limit && Recorded(history, limit, window)
    requires start > 0 && start == WindowStart(t, window)
    requires CurrentCount(After(history, limit, window), key, start) == 0
    ensures var more := Burst(history, key, t, n);
      && Recorded(more, limit, window) && CurrentCount(After(more, limit, window), key, start) == n
      && Allowed(more, key, start, start + window) == Allowed(history, key, start, start + window) + n
  {
    if n > 0 {
      BurstIsAllowed(history, limit, window, key, t, start, n - 1);
      OneMoreAllowed(Burst(history, key, t, n - 1), limit, window, key, t, start);
    }
  }

  /** A recorded history with `count` calls of the client allowed in the window at `2 * window`, after which the
      window before it is counted as empty. */
  ghost predicate Overrun(history: seq<Event>, limit: nat, window: nat, key: string, count: nat)
    requires window > 0
  {
    && Recorded(history, limit, window)
    && Allowed(history, key, 2 * window, 3 * window) == count
    && CurrentCount(After(history, limit, window), key, window) == 0
  }

  lemma TwoWindows(window: nat)
    requires window > 0
    ensures WindowStart(2 * window, window) == 2 * window && WindowStart(2 * window - 1, window) == window
  {
    StartIsUnique(2 * window, 2, window);
    StartIsUnique(2 * window - 1, 1, window);
  }

  /** One call with a reading of the window before, committed late, and the limit can be used up once more. */
  lemma OneMoreBurst(history: seq<Event>, limit: nat, window: nat, key: string, count: nat)
    requires window > 0 && limit > 0 && Overrun(history, limit, window, key, count)
    ensures var late := Event(key, 2 * window - 1, true);
      Overrun(Burst(history + [late], key, 2 * window, limit), limit, window, key, count + limit)
  {
    var late := Event(key, 2 * window - 1, true);
    TwoWindows(window);
    RecordOne(history, limit, window, key, late.at);
    CallCounts(After(history, limit, window), limit, window, late, key, 2 * window);
    BurstIsAllowed(history + [late], limit, window, key, 2 * window, 2 * window, limit);
  }

  /** Late commits defeat the limit: for every n there is a run that allows `n * limit` calls of one client in
      one window. */
  lemma {:induction false} LateCommitsDefeatTheLimit(limit: nat, window: nat, key: string, n: nat)
    requires window > 0 && limit > 0
    ensures exists history :: Overrun(history, limit, window, key, n * limit)
  {
    if n == 0 {
      assert n * limit == 0 && Overrun([], limit, window, key, n * limit);
    } else {
      LateCommitsDefeatTheLimit(limit, window, key, n - 1);
      var before :| Overrun(before, limit, window, key, (n - 1) * limit);
      var late := Event(key, 2 * window - 1, true);
      OneMoreBurst(before, limit, window, key, (n - 1) * limit);
      assert (n - 1) * limit + limit == n * limit;
      assert Overrun(Burst(before + [late], key, 2 * window, limit), limit, window, key, n * limit);
    }
  }

  /** Within the first window after the zero time nothing is ever refused: such buckets count as unset. */
  lemma FirstWindowIsUnlimited(m: Clients, limit: nat, window: nat, key: string, t: nat)
    requires 0 < window && t < window && limit > 0
    ensures Call(m, limit, window, key, t).1
  {
    assert t % window == t;
  }

  /** Clients share a bucket exactly when their trimmed names agree; those without a name count as "unknown". */
  lemma SameBucketIff(a: string, b: string)
    ensures ClientKey(a) == ClientKey(b) <==>
      || TrimSpace(a) == TrimSpace(b)
      || (TrimSpace(a) in {"", "unknown"} && TrimSpace(b) in {"", "unknown"})
    ensures ClientKey(a) != ""
  {
  }

  /** Below a thousand clients nothing is dropped; from then on exactly the buckets that began more than two windows
      before the one at `active`. */
  lemma PrunedMeaning(m: Clients, active: nat, window: nat)
    ensures |m| < 1000 ==> Pruned(m, active, window) == m
    ensures |m| >= 1000 ==>
      forall k :: k in Pruned(m, active, window) <==> k in m && m[k].windowStart >= active - 2 * window
    ensures forall k :: k in Pruned(m, active, window) ==> k in m && Pruned(m, active, window)[k] == m[k]
  {
  }
}
