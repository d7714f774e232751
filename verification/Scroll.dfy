/** Humanised scrolling (cmd/node-agent/humanize.go): a burst is split into wheel events by weights, and
    the Scroll loop emits bursts until the distance is covered. Weights are reals; of the random numbers
    only their ranges are used. */
module Scroll {
  import opened Math

  function Sum(s: seq<int>): int {
    if s == [] then 0 else Sum(s[..|s| - 1]) + s[|s| - 1]
  }

  function SumReal(s: seq<real>): real {
    if s == [] then 0.0 else SumReal(s[..|s| - 1]) + s[|s| - 1]
  }

  lemma {:induction false} SumOfUpdate(s: seq<int>, k: nat, v: int)
    requires k < |s|
    ensures Sum(s[k := v]) == Sum(s) - s[k] + v
    decreases |s|
  {
    var last := |s| - 1;
    if k == last {
      assert s[k := v][..last] == s[..last];
    } else {
      SumOfUpdate(s[..last], k, v);
      assert s[k := v][..last] == s[..last][k := v];
    }
  }

  lemma {:induction false} SumOfPrefix(s: seq<int>, k: nat)
    requires k <= |s| && forall i :: 0 <= i < |s| ==> s[i] >= 1
    ensures Sum(s[..k]) + |s| - k <= Sum(s)
    decreases |s|
  {
    if k == |s| {
      assert s[..k] == s;
    } else {
      SumOfPrefix(s[..|s| - 1], k);
      assert s[..|s| - 1][..k] == s[..k];
    }
  }

  lemma SumAppend(s: seq<int>, v: int)
    ensures Sum(s + [v]) == Sum(s) + v
  {
    assert (s + [v])[..|s|] == s;
  }

  // ---------------------------------------------------------------- shares of a burst

  /** math.Round of a non-negative number. */
  function Round(x: real): int {
    (x + 0.5).Floor
  }

  function Abs(x: real): real {
    if x < 0.0 then -x else x
  }

  /** The weight of event `i` of `n` without jitter: rising to the middle, then falling. */
  function Shape(n: nat, i: nat): real
    requires n >= 2
  {
    var t := i as real / (n - 1) as real;
    var triangular := 1.0 - Abs(2.0 * t - 1.0);
    0.45 + 0.95 * triangular
  }

  /** The jittered weight, never below a tenth. */
  function Weight(n: nat, i: nat, jitter: real): (w: real)
    requires n >= 2
    ensures w >= 0.1
  {
    var raw := Shape(n, i) * jitter;
    if raw < 0.1 then 0.1 else raw
  }

  function Weights(n: nat, jitter: nat -> real): seq<real>
    requires n >= 2
  {
    seq(n, i requires 0 <= i < n => Weight(n, i, jitter(i)))
  }

  function Share(total: nat, w: real, weightSum: real): real
    requires weightSum > 0.0
  {
    total as real * (w / weightSum)
  }

  function Clamp1(d: int): int {
    if d < 1 then 1 else d
  }

  predicate Positive(weights: seq<real>) {
    forall i :: 0 <= i < |weights| ==> weights[i] > 0.0
  }

  /** The rounded shares before the correction pass. */
  function Base(total: nat, weights: seq<real>): seq<int>
    requires SumReal(weights) > 0.0
  {
    seq(|weights|, i requires 0 <= i < |weights| => Clamp1(Round(Share(total, weights[i], SumReal(weights)))))
  }

  lemma {:induction false} PositiveSum(weights: seq<real>)
    requires Positive(weights)
    ensures SumReal(weights) >= 0.0 && (weights != [] ==> SumReal(weights) > 0.0)
  {
    if weights != [] {
      PositiveSum(weights[..|weights| - 1]);
    }
  }

  lemma ShareAdds(total: nat, a: real, b: real, s: real)
    requires s > 0.0
    ensures Share(total, a, s) + Share(total, b, s) == Share(total, a + b, s)
  {
    assert a / s + b / s == (a + b) / s;
  }

  lemma ShareOfAll(total: nat, s: real)
    requires s > 0.0
    ensures Share(total, s, s) == total as real && Share(total, 0.0, s) == 0.0
  {
    assert s / s == 1.0 && 0.0 / s == 0.0;
  }

  lemma ShareIsPositive(total: nat, w: real, s: real)
    requires s > 0.0 && w > 0.0 && total > 0
    ensures Share(total, w, s) > 0.0
  {
    var q := w / s;
    assert q * s == w;
    assert q > 0.0;
  }

  /** Rounding a positive share and clamping it to at least one adds less than one. */
  lemma ClampedRoundAddsLessThanOne(x: real)
    requires x > 0.0
    ensures (Clamp1(Round(x)) as real) < x + 1.0
  {
  }

  lemma {:induction false} BaseExceedsByLess(total: nat, weights: seq<real>, k: nat)
    requires total > 0 && Positive(weights) && 0 < k <= |weights| && SumReal(weights) > 0.0
    ensures (Sum(Base(total, weights)[..k]) as real) < Share(total, SumReal(weights[..k]), SumReal(weights)) + k as real
  {
    var s, b := SumReal(weights), Base(total, weights);
    var x := Share(total, weights[k - 1], s);
    ShareIsPositive(total, weights[k - 1], s);
    ClampedRoundAddsLessThanOne(x);
    assert b[..k][..k - 1] == b[..k - 1] && weights[..k][..k - 1] == weights[..k - 1];
    ShareAdds(total, SumReal(weights[..k - 1]), weights[k - 1], s);
    if k == 1 {
      ShareOfAll(total, s);
      assert weights[..0] == [] && b[..0] == [];
    } else {
      BaseExceedsByLess(total, weights, k - 1);
    }
  }

  /** The clamped rounded shares exceed the total by fewer than one per event. */
  lemma BaseExceedsByLessThanN(total: nat, weights: seq<real>)
    requires total > 0 && Positive(weights) && weights != []
    ensures SumReal(weights) > 0.0
    ensures Sum(Base(total, weights)) < total + |weights|
  {
    PositiveSum(weights);
    BaseExceedsByLess(total, weights, |weights|);
    ShareOfAll(total, SumReal(weights));
    assert weights[..|weights|] == weights && Base(total, weights)[..|weights|] == Base(total, weights);
  }

  lemma WeightsArePositive(n: nat, jitter: nat -> real)
    requires n >= 2
    ensures Positive(Weights(n, jitter)) && SumReal(Weights(n, jitter)) > 0.0
  {
    assert forall i :: 0 <= i < n ==> Weights(n, jitter)[i] == Weight(n, i, jitter(i));
    PositiveSum(Weights(n, jitter));
  }

  // ---------------------------------------------------------------- planScrollBurstDeltas

  const MaxEvents: nat := 32

  function Events(eventCount: int): int {
    if eventCount > MaxEvents then MaxEvents else eventCount
  }

  /** The correction pass takes one pixel off each of the first `excess` events that can give one. */
  predicate AllCanGive(base: seq<int>, excess: int) {
    forall i :: 0 <= i < |base| && i < excess ==> base[i] >= 2
  }

  method PlanScrollBurstDeltas(eventCount: int, total: int, jitter: nat -> real) returns (deltas: seq<int>)
    ensures total <= 0 ==> deltas == []
    ensures total > 0 && eventCount <= 1 ==> deltas == [total]
    ensures total > 0 && eventCount >= 2 ==>
      && |deltas| == Events(eventCount) && AtLeastOne(deltas)
      && total <= Sum(deltas) < total + |deltas|
    ensures total > 0 && eventCount >= 2 ==>
      SumReal(Weights(Events(eventCount), jitter)) > 0.0 &&
      var base := Base(total, Weights(Events(eventCount), jitter));
      (Sum(deltas) == total <==> AllCanGive(base, Sum(base) - total))
  {
    if total <= 0 {
      return [];
    }
    if eventCount <= 1 {
      return [total];
    }
    var n := if eventCount > 32 then 32 else eventCount;
    var weights, weightSum := ComputeWeights(n, jitter);
    WeightsArePositive(n, jitter);
    BaseExceedsByLessThanN(total, weights);
    var shares := new int[n];
    var handedOut := FillShares(shares, total, weights, weightSum);
    Correct(shares, total, handedOut);
    deltas := shares[..];
  }

  method ComputeWeights(n: nat, jitter: nat -> real) returns (weights: seq<real>, weightSum: real)
    requires n >= 2
    ensures weights == Weights(n, jitter) && weightSum == SumReal(weights)
  {
    weights := [];
    weightSum := 0.0;
    for i := 0 to n
      invariant weights == Weights(n, jitter)[..i] && weightSum == SumReal(weights)
    {
      var w := Weight(n, i, jitter(i));
      assert (weights + [w])[..|weights|] == weights;
      weights := weights + [w];
      weightSum := weightSum + w;
    }
  }

  method FillShares(shares: array<int>, total: nat, weights: seq<real>, weightSum: real) returns (handedOut: int)
    requires shares.Length == |weights| && weightSum == SumReal(weights) && weightSum > 0.0
    modifies shares
    ensures shares[..] == Base(total, weights) && handedOut == Sum(shares[..])
  {
    ghost var base := Base(total, weights);
    handedOut := 0;
    for i := 0 to |weights|
      invariant shares[..i] == base[..i] && handedOut == Sum(base[..i])
    {
      var delta := ShareOf(total, weights[i], weightSum);
      assert delta == base[i];
      PrefixSum(base, i);
      shares[i] := delta;
      handedOut := handedOut + delta;
    }
    assert shares[..] == base && base[..|weights|] == base;
  }

  method ShareOf(total: nat, weight: real, weightSum: real) returns (delta: int)
    requires weightSum > 0.0
    ensures delta == Clamp1(Round(Share(total, weight, weightSum)))
  {
    delta := Round(total as real * (weight / weightSum));
    if delta < 1 {
      delta := 1;
    }
  }

  lemma PrefixSum(s: seq<int>, i: nat)
    requires i < |s|
    ensures Sum(s[..i + 1]) == Sum(s[..i]) + s[i]
  {
    assert s[..i + 1][..i] == s[..i];
  }

  predicate AtLeastOne(s: seq<int>) {
    forall i :: 0 <= i < |s| ==> s[i] >= 1
  }

  /** After `i` rounds of taking away: the first `i` events have given what they can, `skipped` could not. */
  predicate Shrunk(cur: seq<int>, base: seq<int>, i: nat, skipped: int) {
    && |cur| == |base| && i <= |base| && AtLeastOne(cur)
    && Sum(cur) == Sum(base) - i + skipped && 0 <= skipped <= i
    && (forall j :: i <= j < |base| ==> cur[j] == base[j])
    && (skipped == 0 <==> AllCanGive(base, i))
  }

  lemma ShrinkStep(cur: seq<int>, base: seq<int>, i: nat, skipped: int)
    requires Shrunk(cur, base, i, skipped) && i < |base|
    ensures cur[i] <= 1 ==> Shrunk(cur, base, i + 1, skipped + 1)
    ensures cur[i] > 1 ==> Shrunk(cur[i := cur[i] - 1], base, i + 1, skipped)
  {
    SumOfUpdate(cur, i, cur[i] - 1);
    assert base[i] == cur[i];
    assert AllCanGive(base, i + 1) <==> AllCanGive(base, i) && base[i] >= 2;
  }

  lemma GrowStep(cur: seq<int>, k: nat)
    requires AtLeastOne(cur) && k < |cur|
    ensures AtLeastOne(cur[k := cur[k] + 1]) && Sum(cur[k := cur[k] + 1]) == Sum(cur) + 1
  {
    SumOfUpdate(cur, k, cur[k] + 1);
  }

  /** The correction pass: one pixel up or down per event, round robin. */
  method Correct(deltas: array<int>, total: int, handedOut: int)
    requires deltas.Length >= 2 && AtLeastOne(deltas[..])
    requires handedOut == Sum(deltas[..]) < total + deltas.Length
    modifies deltas
    ensures AtLeastOne(deltas[..]) && total <= Sum(deltas[..]) < total + deltas.Length
    ensures Sum(deltas[..]) == total <==> AllCanGive(old(deltas[..]), handedOut - total)
  {
    ghost var base := deltas[..];
    var diff := total - handedOut;
    var step := 1;
    if diff < 0 {
      diff := -diff;
      step := -1;
    }
    ghost var skipped := 0;
    for i := 0 to diff
      invariant CorrectedSoFar(deltas[..], base, step, i, skipped)
    {
      skipped := CorrectOne(deltas, i, step, base, skipped);
    }
    CorrectedAtEnd(deltas[..], base, step, diff, skipped, total);
  }

  /** After `i` rounds of the correction pass. */
  predicate CorrectedSoFar(cur: seq<int>, base: seq<int>, step: int, i: nat, skipped: int) {
    if step < 0 then i <= |base| && Shrunk(cur, base, i, skipped)
    else |cur| == |base| && AtLeastOne(cur) && Sum(cur) == Sum(base) + i
  }

  lemma CorrectedAtEnd(cur: seq<int>, base: seq<int>, step: int, diff: nat, skipped: int, total: int)
    requires CorrectedSoFar(cur, base, step, diff, skipped)
    requires base != [] && (step < 0 ==> diff < |base|)
    requires total - Sum(base) == if step < 0 then 0 - diff else diff
    ensures AtLeastOne(cur) && total <= Sum(cur) < total + |base|
    ensures Sum(cur) == total <==> AllCanGive(base, Sum(base) - total)
  {
  }

  lemma RemainderOfSmaller(i: nat, n: nat)
    requires i < n
    ensures i % n == i
  {
  }

  /** Round `i` of the pass. */
  method CorrectOne(deltas: array<int>, i: nat, step: int, ghost base: seq<int>, ghost skipped: int)
    returns (ghost skipped': int)
    requires deltas.Length == |base| > 0 && (step < 0 ==> i < |base|)
    requires CorrectedSoFar(deltas[..], base, step, i, skipped)
    modifies deltas
    ensures CorrectedSoFar(deltas[..], base, step, i + 1, skipped')
  {
    var index := i % deltas.Length;
    if step < 0 {
      RemainderOfSmaller(i, deltas.Length);
      skipped' := TakeOne(deltas, index, base, skipped);
    } else {
      GiveOne(deltas, index);
      skipped' := skipped;
    }
  }

  /** One event gives a pixel back, unless it has only one. */
  method TakeOne(deltas: array<int>, index: nat, ghost base: seq<int>, ghost skipped: int) returns (ghost skipped': int)
    requires index < |base| && Shrunk(deltas[..], base, index, skipped)
    modifies deltas
    ensures Shrunk(deltas[..], base, index + 1, skipped')
  {
    ghost var cur := deltas[..];
    ShrinkStep(cur, base, index, skipped);
    if deltas[index] <= 1 {
      return skipped + 1;
    }
    deltas[index] := deltas[index] - 1;
    assert deltas[..] == cur[index := cur[index] - 1];
    return skipped;
  }

  /** One event takes a pixel more. */
  method GiveOne(deltas: array<int>, index: nat)
    requires index < deltas.Length && AtLeastOne(deltas[..])
    modifies deltas
    ensures AtLeastOne(deltas[..]) && Sum(deltas[..]) == Sum(old(deltas[..])) + 1
  {
    ghost var cur := deltas[..];
    GrowStep(cur, index);
    deltas[index] := deltas[index] + 1;
    assert deltas[..] == cur[index := cur[index] + 1];
  }

  /** The deltas do not always add up to the total: one pixel over two events becomes two. */
  lemma OnePixelOverTwoEventsGrows()
    ensures var weights := Weights(2, _ => 1.0);
      && SumReal(weights) > 0.0
      && Base(1, weights) == [1, 1] && !AllCanGive(Base(1, weights), Sum(Base(1, weights)) - 1)
  {
    var weights := Weights(2, _ => 1.0);
    assert 0.0 / 1.0 == 0.0 && 1.0 / 1.0 == 1.0;
    assert Weight(2, 0, 1.0) == 0.45 && Weight(2, 1, 1.0) == 0.45;
    assert weights == [0.45, 0.45];
    assert weights[..1] == [0.45] && weights[..0] == [];
    assert SumReal([0.45]) == 0.45 by { assert [0.45][..0] == []; }
    assert SumReal(weights) == 0.9;
    assert 0.45 / 0.9 == 0.5;
    var b := Base(1, weights);
    assert b == [1, 1];
    SumAppend([1], 1);
    SumAppend([], 1);
    assert [1] + [1] == [1, 1] && [] + [1] == [1];
  }

  /** A condition on the call: with the jitter the source uses, seven pixels per event are enough for the
      deltas to add up exactly (Scroll asks for at least sixteen per event, its last burst excepted). */
  lemma SevenPixelsPerEventConserve(n: nat, total: nat, jitter: nat -> real)
    requires 2 <= n && 7 * n <= total && forall i: nat :: 0.85 <= jitter(i) <= 1.15
    ensures SumReal(Weights(n, jitter)) > 0.0
    ensures AllCanGive(Base(total, Weights(n, jitter)), n)
  {
    var weights := Weights(n, jitter);
    WeightsArePositive(n, jitter);
    var s := SumReal(weights);
    WeightBounds(n, n, jitter);
    assert weights[..n] == weights;
    forall i | 0 <= i < n
      ensures Base(total, weights)[i] >= 2
    {
      WeightRange(n, i, jitter(i));
      ShareAtLeast(total, n, weights[i], s);
    }
  }

  lemma ShapeRange(n: nat, i: nat)
    requires n >= 2 && i < n
    ensures 0.45 <= Shape(n, i) <= 1.4
  {
    var m := (n - 1) as real;
    var t := i as real / m;
    assert t * m == i as real && (1.0 - t) * m == m - i as real;
    CancelPositive(t, m);
    CancelPositive(1.0 - t, m);
  }

  lemma WeightRange(n: nat, i: nat, jitter: real)
    requires n >= 2 && i < n && 0.85 <= jitter <= 1.15
    ensures 0.38 <= Weight(n, i, jitter) <= 1.61
  {
    ShapeRange(n, i);
    ProductRange(Shape(n, i), jitter);
    JitterScales(n, i, jitter);
  }

  lemma ProductRange(c: real, j: real)
    requires 0.45 <= c <= 1.4 && 0.85 <= j <= 1.15
    ensures 0.38 <= c * j <= 1.61
  {
    var x := c * j;
    NonNegativeProduct(c - 0.45, j);
    NonNegativeProduct(1.4 - c, j);
    assert (c - 0.45) * j == x - 0.45 * j;
    assert (1.4 - c) * j == 1.4 * j - x;
    assert 0.45 * j <= x <= 1.4 * j;
  }

  lemma NonNegativeProduct(a: real, b: real)
    requires a >= 0.0 && b >= 0.0
    ensures a * b >= 0.0
  {
  }

  lemma {:induction false} WeightBounds(n: nat, k: nat, jitter: nat -> real)
    requires n >= 2 && k <= n && forall i: nat :: 0.85 <= jitter(i) <= 1.15
    ensures SumReal(Weights(n, jitter)[..k]) <= 1.61 * k as real
  {
    if k > 0 {
      WeightBounds(n, k - 1, jitter);
      WeightRange(n, k - 1, jitter(k - 1));
      assert Weights(n, jitter)[..k][..k - 1] == Weights(n, jitter)[..k - 1];
    }
  }

  lemma ShareAtLeast(total: nat, n: nat, w: real, s: real)
    requires 7 * n <= total && 0.38 <= w && 0.0 < s <= 1.61 * n as real
    ensures Round(Share(total, w, s)) >= 2
  {
    var q := w / s;
    assert q * s == w;
    var t := total as real;
    assert t * w >= t * 0.38;
    assert (t * q - 1.5) * s == t * (q * s) - 1.5 * s;
    CancelPositive(t * q - 1.5, s);
  }

  lemma CancelPositive(y: real, s: real)
    requires s > 0.0 && y * s >= 0.0
    ensures y >= 0.0
  {
  }

  // ---------------------------------------------------------------- the Scroll loop

  datatype Profile = Profile(eventsMin: int, eventsMax: int, deltaMin: int, deltaMax: int)

  /** randomInt: some value between the bounds, whichever is the larger; `draw` is the random number. */
  function RandomInt(a: int, b: int, draw: nat): (r: int)
    ensures Min(a, b) <= r <= Max(a, b)
  {
    Min(a, b) + draw % (Max(a, b) - Min(a, b) + 1)
  }

  function Distance(pixels: int): int {
    if pixels <= 0 then 600 else if pixels > 3000 then 3000 else pixels
  }

  /** Events per burst never exceed this. */
  function MaxEventsPerBurst(p: Profile): int {
    Max(1, Max(p.eventsMin, p.eventsMax))
  }

  /** A burst: its events, its target, and the distance that was left. */
  datatype Burst = Burst(events: int, target: int, remaining: int)

  /** A burst has as many events as the profile allows, at least one. It aims at what is left, or at least at 16 pixels
      and at half the least delta for each event, and not above what the profile allows for it. */
  predicate BurstOk(p: Profile, b: Burst) {
    var low := b.events * Max(16, p.deltaMin / 2);
    && 1 <= b.events <= Max(1, Max(p.eventsMin, p.eventsMax))
    && (p.eventsMin >= 1 && p.eventsMax >= 1 ==> b.events >= Min(p.eventsMin, p.eventsMax))
    && 1 <= b.target <= b.remaining
    && (b.target == b.remaining || low <= b.target <= Max(low, b.events * Max(low, p.deltaMax)))
  }

  method ChooseBurst(p: Profile, remaining: int, draw1: nat, draw2: nat) returns (b: Burst)
    requires remaining > 0
    ensures BurstOk(p, b) && b.remaining == remaining
  {
    var eventCount := RandomInt(p.eventsMin, p.eventsMax, draw1);
    if eventCount <= 0 {
      eventCount := 1;
    }
    var minBurst := eventCount * Max(16, p.deltaMin / 2);
    var maxBurst := eventCount * Max(minBurst, p.deltaMax);
    if maxBurst < minBurst {
      maxBurst := minBurst;
    }
    PositiveProduct(eventCount, Max(16, p.deltaMin / 2));
    var burstTarget := RandomInt(minBurst, maxBurst, draw2);
    if burstTarget > remaining {
      burstTarget := remaining;
    }
    if burstTarget <= 0 {
      burstTarget := remaining;
    }
    b := Burst(eventCount, burstTarget, remaining);
  }

  lemma PositiveProduct(a: int, b: int)
    requires a >= 1 && b >= 1
    ensures a * b >= 1
  {
  }

  /** Every value between the bounds can be drawn. */
  lemma RandomIntReaches(a: int, b: int, v: int)
    requires Min(a, b) <= v <= Max(a, b)
    ensures RandomInt(a, b, v - Min(a, b)) == v
  {
    RemainderOfSmaller(v - Min(a, b), Max(a, b) - Min(a, b) + 1);
  }

  /** The wheel distances emitted for a scroll up, down, left or right, in order. For every random stream
      the loop ends, having emitted at least the distance and less than one full burst of single pixels
      more. */
  method ScrollEvents(pixels: int, p: Profile, draws: nat -> nat, jitter: (nat, nat) -> real)
    returns (emitted: seq<int>, ghost bursts: seq<Burst>)
    ensures forall i :: 0 <= i < |bursts| ==> BurstOk(p, bursts[i])
    ensures AtLeastOne(emitted)
    ensures Distance(pixels) <= Sum(emitted) < Distance(pixels) + MaxEventsPerBurst(p)
  {
    emitted, bursts := [], [];
    var distance := Distance(pixels);
    var remaining := distance;
    var burst: nat := 0;
    while remaining > 0
      invariant AtLeastOne(emitted) && forall i :: 0 <= i < |bursts| ==> BurstOk(p, bursts[i])
      invariant Sum(emitted) == distance - remaining && -MaxEventsPerBurst(p) < remaining
      decreases remaining
    {
      var b := ChooseBurst(p, remaining, draws(2 * burst), draws(2 * burst + 1));
      bursts := bursts + [b];
      var number: nat := burst;
      var deltas := PlanScrollBurstDeltas(b.events, b.target, (i: nat) => jitter(number, i));
      emitted, remaining := EmitBurst(deltas, emitted, remaining, distance);
      burst := burst + 1;
    }
  }

  /** One burst: events are emitted until the burst or the distance is exhausted. */
  method EmitBurst(deltas: seq<int>, before: seq<int>, start: int, distance: int)
    returns (emitted: seq<int>, remaining: int)
    requires deltas != [] && AtLeastOne(deltas)
    requires AtLeastOne(before) && Sum(before) == distance - start && start > 0
    ensures AtLeastOne(emitted) && Sum(emitted) == distance - remaining
    ensures start - Sum(deltas) <= remaining < start
    ensures remaining > 0 ==> emitted == before + deltas
  {
    emitted, remaining := before, start;
    for i := 0 to |deltas|
      invariant emitted == before + deltas[..i] && AtLeastOne(emitted)
      invariant Sum(emitted) == distance - remaining
      invariant remaining == start - Sum(deltas[..i]) && remaining > 0
      invariant i > 0 ==> remaining < start
    {
      var delta := Max(1, deltas[i]);
      EmitStep(before, deltas, i);
      emitted := emitted + [delta];
      remaining := remaining - delta;
      if remaining <= 0 {
        return;
      }
    }
    assert deltas[..|deltas|] == deltas;
  }

  lemma EmitStep(before: seq<int>, deltas: seq<int>, i: nat)
    requires i < |deltas| && AtLeastOne(deltas) && AtLeastOne(before)
    ensures before + deltas[..i] + [deltas[i]] == before + deltas[..i + 1] && AtLeastOne(before + deltas[..i + 1])
    ensures Sum(before + deltas[..i + 1]) == Sum(before + deltas[..i]) + deltas[i]
    ensures Sum(deltas[..i + 1]) == Sum(deltas[..i]) + deltas[i] <= Sum(deltas)
  {
    assert deltas[..i + 1] == deltas[..i] + [deltas[i]];
    assert before + deltas[..i] + [deltas[i]] == before + deltas[..i + 1];
    SumAppend(before + deltas[..i], deltas[i]);
    SumAppend(deltas[..i], deltas[i]);
    SumOfPrefix(deltas, i + 1);
  }

  // ---------------------------------------------------------------- distances, rounding and weights

  /** 600 pixels when nothing sensible is asked, at most 3000, and otherwise what is asked. */
  lemma DistanceIs(pixels: int)
    ensures pixels <= 0 ==> Distance(pixels) == 600
    ensures 0 < pixels <= 3000 ==> Distance(pixels) == pixels
    ensures pixels > 3000 ==> Distance(pixels) == 3000
  {
  }

  /** Rounding goes to the nearest whole number, up from the middle. */
  lemma RoundIsNearest(x: real, k: int)
    requires x >= 0.0
    ensures Round(x) == k <==> k as real - 0.5 <= x < k as real + 0.5
  {
  }

  /** Without jitter the weights rise evenly from the first event to the middle and fall as they rose. */
  lemma ShapeIs(n: nat, i: nat)
    requires n >= 2 && i < n
    ensures Shape(n, i) == Shape(n, n - 1 - i) >= 0.45
    ensures 2 * i <= n - 1 ==> (Shape(n, i) - 0.45) * (n - 1) as real == 1.9 * i as real
  {
    var m := (n - 1) as real;
    var t, t' := i as real / m, (n - 1 - i) as real / m;
    assert t * m == i as real && t' * m == (n - 1 - i) as real;
    assert (t + t' - 1.0) * m == 0.0;
    CancelZero(t + t' - 1.0, m);
    CancelPositive(t, m);
    CancelPositive(t', m);
    if 2 * i <= n - 1 {
      assert (1.0 - 2.0 * t) * m >= 0.0;
      CancelPositive(1.0 - 2.0 * t, m);
    }
  }

  lemma CancelZero(y: real, m: real)
    requires m > 0.0 && y * m == 0.0
    ensures y == 0.0
  {
  }

  /** Jitter scales the weight, down to a tenth at the least. */
  lemma JitterScales(n: nat, i: nat, jitter: real)
    requires n >= 2 && i < n
    ensures Weight(n, i, 1.0) == Shape(n, i)
    ensures Shape(n, i) * jitter >= 0.1 ==> Weight(n, i, jitter) == Shape(n, i) * jitter
    ensures Shape(n, i) * jitter < 0.1 ==> Weight(n, i, jitter) == 0.1
  {
    ShapeIs(n, i);
    assert Shape(n, i) * 1.0 == Shape(n, i);
  }

  /** A burst has at most as many events as the larger configured bound, and may have one. */
  lemma MaxEventsIs(p: Profile)
    ensures MaxEventsPerBurst(p) in {1, p.eventsMin, p.eventsMax}
    ensures MaxEventsPerBurst(p) >= 1 && MaxEventsPerBurst(p) >= p.eventsMin && MaxEventsPerBurst(p) >= p.eventsMax
  {
  }
}
