/** The observe and act loop of the node agent (cmd/node-agent/main.go, ExecuteWithActions with a goal).

    The step planner and the browser are arbitrary: what they answer in a round is given by functions of the
    round (and, for the planner, of the actions run so far). */
module PlannerLoop {
  import opened Text
  import opened Wrappers
  import opened Math
  import opened Planner

  datatype Limits = Limits(maxSteps: int, maxFailures: int, maxRepeatActions: int, maxRepeatSnapshots: int)

  /** The limits an executor works with. */
  function Configured(configured: Limits): (l: Limits)
    ensures LimitsOk(l)
    ensures l == configured <==> LimitsOk(configured)
    ensures l.maxSteps in {1, configured.maxSteps} && l.maxFailures in {0, configured.maxFailures}
    ensures l.maxRepeatActions in {1, configured.maxRepeatActions}
    ensures l.maxRepeatSnapshots in {1, configured.maxRepeatSnapshots}
    ensures l.maxSteps >= configured.maxSteps && l.maxFailures >= configured.maxFailures
    ensures l.maxRepeatActions >= configured.maxRepeatActions && l.maxRepeatSnapshots >= configured.maxRepeatSnapshots
  {
    Limits(Max(configured.maxSteps, 1), Max(configured.maxFailures, 0),
           Max(configured.maxRepeatActions, 1), Max(configured.maxRepeatSnapshots, 1))
  }

  predicate LimitsOk(l: Limits) {
    l.maxSteps >= 1 && l.maxFailures >= 0 && l.maxRepeatActions >= 1 && l.maxRepeatSnapshots >= 1
  }

  type Decider = (nat, seq<Action>) -> Decision

  /** What the planning of a round comes to once the answer is sanitised; an action comes with its signature. */
  datatype Choice = Fails | Stops(reason: string) | Runs(action: Action, signature: string)

  type Chooser = (nat, seq<Action>) -> Choice

  function StopText(reason: string): string {
    var text := TrimSpace(reason);
    if text == "" then "planner_stop" else text
  }

  function Sanctioned(d: Decision): Choice {
    match d
    case PlannerFailed => Fails
    case Stop(reason) => Stops(StopText(reason))
    case NoAction => Stops("planner_no_action")
    case Next(a) => if Clean(a).Some? then Runs(Clean(a).value, Signature(Clean(a).value)) else Fails
  }

  /** What the loop makes of a planner. */
  function Sanitising(decide: Decider): Chooser {
    (round: nat, prior: seq<Action>) => Sanctioned(decide(round, prior))
  }

  /** Per round: does the action succeed, is a blocker on the page afterwards, and the signature of the
      snapshot taken next (none when taking it fails). `first` is the snapshot before the first round. */
  datatype Browser = Browser(first: Option<string>, succeeds: nat -> bool, blocked: nat -> bool,
                             capture: nat -> Option<string>)

  datatype TraceStep = TraceStep(index: int, action: Action, succeeded: bool, round: int, failures: int,
                                 stopReason: string)

  datatype Outcome = Failed(failures: int) | Answered(trace: seq<TraceStep>, stopReason: string)

  // ---------------------------------------------------------------- history

  datatype Move = Move(round: nat, action: Action, signature: string)

  function Actions(moves: seq<Move>): (a: seq<Action>)
    ensures |a| == |moves|
  {
    if moves == [] then [] else Actions(moves[..|moves| - 1]) + [moves[|moves| - 1].action]
  }

  /** The moves of the first `r` rounds of a loop that nothing stops. */
  ghost function Moves(choose: Chooser, r: nat): seq<Move> {
    if r == 0 then []
    else
      var earlier := Moves(choose, r - 1);
      var choice := choose(r, Actions(earlier));
      if choice.Runs? then earlier + [Move(r, choice.action, choice.signature)] else earlier
  }

  ghost function Chosen(choose: Chooser, r: nat): Choice
    requires r >= 1
  {
    choose(r, Actions(Moves(choose, r - 1)))
  }

  /** A round fails when planning fails, when the action is invalid, or when the page cannot be captured. */
  ghost predicate RoundFails(choose: Chooser, browser: Browser, r: nat)
    requires r >= 1
  {
    var choice := Chosen(choose, r);
    choice.Fails? || (choice.Runs? && browser.capture(r).None?)
  }

  ghost function Failures(choose: Chooser, browser: Browser, r: nat): nat {
    if r == 0 then 0 else Failures(choose, browser, r - 1) + if RoundFails(choose, browser, r) then 1 else 0
  }

  ghost function MoveSignatures(moves: seq<Move>): seq<string> {
    if moves == [] then [] else MoveSignatures(moves[..|moves| - 1]) + [moves[|moves| - 1].signature]
  }

  /** The snapshots: the first one, then one after every move unless taking it fails. */
  ghost function Captures(browser: Browser, moves: seq<Move>): seq<string>
    requires browser.first.Some?
  {
    if moves == [] then [browser.first.value]
    else
      var next := browser.capture(moves[|moves| - 1].round);
      var earlier := Captures(browser, moves[..|moves| - 1]);
      if next.Some? then earlier + [next.value] else earlier
  }

  /** Length of the run of equal elements at the end. */
  ghost function TrailingRun(s: seq<string>): nat {
    if s == [] then 0
    else if |s| >= 2 && s[|s| - 1] == s[|s| - 2] then TrailingRun(s[..|s| - 1]) + 1
    else 1
  }

  /** Why a round ends the loop. */
  datatype Ending =
    | GaveUp | PlannerStopped(reason: string) | ActionFailed | Blocked | RepeatedAction | RepeatedSnapshot

  /** Does round `r` end the loop? In terms of the history alone. */
  ghost function Verdict(limits: Limits, choose: Chooser, browser: Browser, r: nat): Option<Ending>
    requires r >= 1 && browser.first.Some?
  {
    var choice := Chosen(choose, r);
    var moves := Moves(choose, r);
    if choice.Stops? then Some(PlannerStopped(choice.reason))
    else if choice.Runs? && !browser.succeeds(r) then Some(ActionFailed)
    else if choice.Runs? && browser.blocked(r) then Some(Blocked)
    else if choice.Runs? && TrailingRun(MoveSignatures(moves)) >= limits.maxRepeatActions then
      Some(RepeatedAction)
    else if RoundFails(choose, browser, r) then
      if Failures(choose, browser, r) > limits.maxFailures then Some(GaveUp) else None
    else if TrailingRun(Captures(browser, moves)) > limits.maxRepeatSnapshots then Some(RepeatedSnapshot)
    else None
  }

  /** No round before `n` ends the loop. */
  ghost predicate Reaches(limits: Limits, choose: Chooser, browser: Browser, n: nat)
    requires browser.first.Some?
  {
    forall i :: 1 <= i < n ==> Verdict(limits, choose, browser, i).None?
  }

  /** The trace of a run of moves, before a stop reason is put on it. */
  ghost function TraceOf(choose: Chooser, browser: Browser, moves: seq<Move>): seq<TraceStep>
  {
    if moves == [] then []
    else
      var last := moves[|moves| - 1];
      var failures := if last.round == 0 then 0 else Failures(choose, browser, last.round - 1);
      TraceOf(choose, browser, moves[..|moves| - 1])
      + [TraceStep(|moves|, last.action, browser.succeeds(last.round), last.round, failures, "")]
  }

  function ReasonText(limits: Limits, ending: Option<Ending>, steps: nat): string {
    match ending
    case Some(PlannerStopped(reason)) => reason
    case Some(ActionFailed) => "action_failed"
    case Some(Blocked) => "blocker_detected"
    case Some(RepeatedAction) => "loop_detected_repeated_action"
    case Some(RepeatedSnapshot) => "loop_detected_repeated_snapshot"
    case _ =>
      if steps >= limits.maxSteps then "max_planner_steps_reached" else if steps == 0 then "no_actions" else ""
  }

  /** The last step carries the reason. */
  function Marked(trace: seq<TraceStep>, reason: string): seq<TraceStep> {
    if trace == [] then [] else trace[|trace| - 1 := trace[|trace| - 1].(stopReason := reason)]
  }

  /** What a loop that ends in round `n` answers. */
  ghost function OutcomeAt(limits: Limits, choose: Chooser, browser: Browser, n: nat): Outcome
    requires n >= 1 && browser.first.Some?
  {
    var ending := Verdict(limits, choose, browser, n);
    if ending == Some(GaveUp) then Failed(Failures(choose, browser, n))
    else
      var moves := Moves(choose, n);
      var reason := ReasonText(limits, ending, |moves|);
      Answered(Marked(TraceOf(choose, browser, moves), reason), reason)
  }

  /** The loop ends in round `n`: the first one that ends it, or the last one allowed. */
  ghost predicate EndsIn(limits: Limits, choose: Chooser, browser: Browser, n: nat)
    requires browser.first.Some?
  {
    && 1 <= n <= limits.maxSteps && Reaches(limits, choose, browser, n)
    && (Verdict(limits, choose, browser, n).None? ==> n == limits.maxSteps)
  }

  // ---------------------------------------------------------------- the loop

  /** The loop remembers the last element of a history and the length of the run it ends. */
  ghost predicate Remembers(s: seq<string>, last: string, run: int) {
    run == TrailingRun(s) && last == if s == [] then "" else s[|s| - 1]
  }

  lemma RememberNext(s: seq<string>, last: string, run: int, x: string)
    requires Remembers(s, last, run)
    ensures Remembers(s + [x], x, if x == last then run + 1 else 1)
  {
    var longer := s + [x];
    assert longer[..|s|] == s;
  }

  /** What the loop keeps from round to round; `prior` are the actions run so far. */
  datatype Progress = Progress(
    trace: seq<TraceStep>, prior: seq<Action>, failures: int, lastSnapshotSignature: string, snapshotRepeatCount: int,
    lastActionSignature: string, actionRepeatCount: int)

  /** The trace and the actions after `r` rounds. */
  ghost predicate Logged(choose: Chooser, browser: Browser, r: nat, p: Progress) {
    p.trace == TraceOf(choose, browser, Moves(choose, r)) && p.prior == Actions(Moves(choose, r))
  }

  /** All that the loop keeps after `r` rounds is a summary of the history. */
  ghost predicate Summarises(choose: Chooser, browser: Browser, r: nat, p: Progress)
    requires browser.first.Some?
  {
    && Logged(choose, browser, r, p) && p.failures == Failures(choose, browser, r)
    && Remembers(MoveSignatures(Moves(choose, r)), p.lastActionSignature, p.actionRepeatCount)
    && Remembers(Captures(browser, Moves(choose, r)), p.lastSnapshotSignature, p.snapshotRepeatCount + 1)
  }

  lemma ActionsAppend(earlier: seq<Move>, move: Move, moves: seq<Move>)
    requires moves == earlier + [move]
    ensures Actions(moves) == Actions(earlier) + [move.action]
    ensures MoveSignatures(moves) == MoveSignatures(earlier) + [move.signature]
  {
    assert moves[..|earlier|] == earlier;
  }

  lemma TraceAppend(choose: Chooser, browser: Browser, earlier: seq<Move>, move: Move, moves: seq<Move>)
    requires browser.first.Some? && move.round >= 1 && moves == earlier + [move]
    ensures var round := move.round;
      && TraceOf(choose, browser, moves) == TraceOf(choose, browser, earlier)
           + [TraceStep(|moves|, move.action, browser.succeeds(round), round, Failures(choose, browser, round - 1), "")]
      && Captures(browser, moves) == Captures(browser, earlier)
           + if browser.capture(round).Some? then [browser.capture(round).value] else []
  {
    assert moves[..|earlier|] == earlier;
  }

  lemma MovesExtend(choose: Chooser, r: nat, a: Action, signature: string)
    requires r >= 1 && Chosen(choose, r) == Runs(a, signature)
    ensures Moves(choose, r) == Moves(choose, r - 1) + [Move(r, a, signature)]
  {
  }

  lemma MoveMade(choose: Chooser, browser: Browser, r: nat, a: Action, signature: string)
    requires r >= 1 && browser.first.Some? && Chosen(choose, r) == Runs(a, signature)
    ensures var earlier, moves := Moves(choose, r - 1), Moves(choose, r);
      && Actions(moves) == Actions(earlier) + [a] && |moves| == |earlier| + 1
      && MoveSignatures(moves) == MoveSignatures(earlier) + [signature]
      && TraceOf(choose, browser, moves) == TraceOf(choose, browser, earlier)
           + [TraceStep(|moves|, a, browser.succeeds(r), r, Failures(choose, browser, r - 1), "")]
      && Captures(browser, moves) == Captures(browser, earlier)
           + if browser.capture(r).Some? then [browser.capture(r).value] else []
  {
    MovesExtend(choose, r, a, signature);
    ActionsAppend(Moves(choose, r - 1), Move(r, a, signature), Moves(choose, r));
    TraceAppend(choose, browser, Moves(choose, r - 1), Move(r, a, signature), Moves(choose, r));
  }

  lemma {:induction false} TraceLength(choose: Chooser, browser: Browser, moves: seq<Move>)
    ensures |TraceOf(choose, browser, moves)| == |moves|
  {
    if moves != [] {
      TraceLength(choose, browser, moves[..|moves| - 1]);
    }
  }

  ghost predicate Sanitises(choose: Chooser, decide: Decider) {
    forall r: nat, prior: seq<Action> {:trigger decide(r, prior)} :: choose(r, prior) == Sanctioned(decide(r, prior))
  }

  /** Asks the planner and sanitises its answer. */
  method Plan(decide: Decider, ghost choose: Chooser, round: nat, prior: seq<Action>) returns (choice: Choice)
    requires Sanitises(choose, decide)
    ensures choice == choose(round, prior)
  {
    var decision := decide(round, prior);
    match decision
    case PlannerFailed => return Fails;
    case Stop(reason) =>
      var stopReason := TrimSpace(reason);
      if stopReason == "" {
        stopReason := "planner_stop";
      }
      return Stops(stopReason);
    case NoAction => return Stops("planner_no_action");
    case Next(action) =>
      var sanitized := SanitizePlannedActions([action]);
      SanitizedOfOne(action);
      if |sanitized| == 0 {
        return Fails;
      }
      return Runs(sanitized[0], Signature(sanitized[0]));
  }

  method CountAction(ghost signatures: seq<string>, signature: string, last: string, count: int)
    returns (last': string, count': int)
    requires Remembers(signatures, last, count)
    ensures Remembers(signatures + [signature], last', count')
  {
    RememberNext(signatures, last, count, signature);
    if signature == last {
      return last, count + 1;
    }
    return signature, 1;
  }

  method CountSnapshot(ghost captures: seq<string>, next: string, last: string, repeats: int)
    returns (last': string, repeats': int)
    requires captures != [] && Remembers(captures, last, repeats + 1)
    ensures Remembers(captures + [next], last', repeats' + 1)
  {
    RememberNext(captures, last, repeats + 1, next);
    if next == last {
      return last, repeats + 1;
    }
    return next, 0;
  }

  lemma {:induction false} FirstCapture(browser: Browser, moves: seq<Move>)
    requires browser.first.Some?
    ensures Captures(browser, moves) != []
  {
    if moves != [] {
      FirstCapture(browser, moves[..|moves| - 1]);
    }
  }

  /** Applies an action and notes it. */
  method Apply(ghost choose: Chooser, browser: Browser, r: nat, p: Progress, action: Action, signature: string)
    returns (p': Progress)
    requires r >= 1 && browser.first.Some? && Summarises(choose, browser, r - 1, p)
    requires Chosen(choose, r) == Runs(action, signature)
    ensures Logged(choose, browser, r, p')
    ensures Remembers(MoveSignatures(Moves(choose, r)), p'.lastActionSignature, p'.actionRepeatCount)
    ensures p'.failures == p.failures
    ensures p'.lastSnapshotSignature == p.lastSnapshotSignature && p'.snapshotRepeatCount == p.snapshotRepeatCount
  {
    MoveMade(choose, browser, r, action, signature);
    TraceLength(choose, browser, Moves(choose, r));
    ghost var signatures := MoveSignatures(Moves(choose, r - 1));
    var last, count := CountAction(signatures, signature, p.lastActionSignature, p.actionRepeatCount);
    var step := TraceStep(|p.trace| + 1, action, browser.succeeds(r), r, p.failures, "");
    p' := p.(trace := p.trace + [step], prior := p.prior + [action],
             lastActionSignature := last, actionRepeatCount := count);
  }

  lemma CapturesGrow(choose: Chooser, browser: Browser, r: nat, a: Action, signature: string)
    requires r >= 1 && browser.first.Some? && Chosen(choose, r) == Runs(a, signature)
    ensures var earlier := Captures(browser, Moves(choose, r - 1));
      && earlier != []
      && Captures(browser, Moves(choose, r)) ==
           earlier + if browser.capture(r).Some? then [browser.capture(r).value] else []
  {
    MoveMade(choose, browser, r, a, signature);
    FirstCapture(browser, Moves(choose, r - 1));
  }

  /** Looks at the page after an action: the captures and the failures of round `r` are known then. */
  method Look(ghost choose: Chooser, browser: Browser, r: nat, p: Progress, ghost action: Action,
              ghost signature: string)
    returns (p': Progress)
    requires r >= 1 && browser.first.Some? && Chosen(choose, r) == Runs(action, signature)
    requires p.failures == Failures(choose, browser, r - 1)
    requires Remembers(Captures(browser, Moves(choose, r - 1)), p.lastSnapshotSignature, p.snapshotRepeatCount + 1)
    ensures p' == p.(failures := p'.failures, lastSnapshotSignature := p'.lastSnapshotSignature,
                     snapshotRepeatCount := p'.snapshotRepeatCount)
    ensures p'.failures == Failures(choose, browser, r)
    ensures Remembers(Captures(browser, Moves(choose, r)), p'.lastSnapshotSignature, p'.snapshotRepeatCount + 1)
  {
    CapturesGrow(choose, browser, r, action, signature);
    var next := browser.capture(r);
    if next.None? {
      return p.(failures := p.failures + 1);
    }
    var last, repeats := CountSnapshot(Captures(browser, Moves(choose, r - 1)), next.value,
                                       p.lastSnapshotSignature, p.snapshotRepeatCount);
    return p.(lastSnapshotSignature := last, snapshotRepeatCount := repeats);
  }

  /** One round that runs `action`. */
  method Act(limits: Limits, ghost choose: Chooser, browser: Browser, r: nat, p: Progress, action: Action,
             signature: string)
    returns (p': Progress, ending: Option<Ending>)
    requires r >= 1 && browser.first.Some? && Summarises(choose, browser, r - 1, p)
    requires Chosen(choose, r) == Runs(action, signature)
    ensures ending == Verdict(limits, choose, browser, r) && Logged(choose, browser, r, p')
    ensures ending == Some(GaveUp) ==> p'.failures == Failures(choose, browser, r)
    ensures ending.None? ==> Summarises(choose, browser, r, p')
  {
    p' := Apply(choose, browser, r, p, action, signature);
    if !browser.succeeds(r) {
      return p', Some(ActionFailed);
    }
    if browser.blocked(r) {
      return p', Some(Blocked);
    }
    if p'.actionRepeatCount >= limits.maxRepeatActions {
      return p', Some(RepeatedAction);
    }
    p' := Look(choose, browser, r, p', action, signature);
    if browser.capture(r).None? {
      return p', if p'.failures > limits.maxFailures then Some(GaveUp) else None;
    }
    return p', if p'.snapshotRepeatCount >= limits.maxRepeatSnapshots then Some(RepeatedSnapshot) else None;
  }

  /** One round: ask the planner, then act. */
  method Round(limits: Limits, decide: Decider, ghost choose: Chooser, browser: Browser, r: nat, p: Progress)
    returns (p': Progress, ending: Option<Ending>)
    requires r >= 1 && browser.first.Some? && Summarises(choose, browser, r - 1, p) && Sanitises(choose, decide)
    ensures ending == Verdict(limits, choose, browser, r) && Logged(choose, browser, r, p')
    ensures ending == Some(GaveUp) ==> p'.failures == Failures(choose, browser, r)
    ensures ending.None? ==> Summarises(choose, browser, r, p')
  {
    var choice := Plan(decide, choose, r, p.prior);
    assert choice == Chosen(choose, r);
    match choice
    case Fails =>
      p' := p.(failures := p.failures + 1);
      return p', if p'.failures > limits.maxFailures then Some(GaveUp) else None;
    case Stops(reason) =>
      return p, Some(PlannerStopped(reason));
    case Runs(action, signature) =>
      p', ending := Act(limits, choose, browser, r, p, action, signature);
  }

  /** Where the loop stands: the last round, what it keeps, and why it ended, if it did. */
  datatype Standing = Standing(last: nat, p: Progress, ending: Option<Ending>)

  ghost predicate LoopAt(limits: Limits, choose: Chooser, browser: Browser, s: Standing)
    requires browser.first.Some?
  {
    && Reaches(limits, choose, browser, s.last) && Logged(choose, browser, s.last, s.p)
    && (s.last >= 1 ==> s.ending == Verdict(limits, choose, browser, s.last))
    && (s.ending.None? ==> Summarises(choose, browser, s.last, s.p))
    && (s.ending == Some(GaveUp) ==> s.p.failures == Failures(choose, browser, s.last))
  }

  lemma LoopGoesOn(limits: Limits, choose: Chooser, browser: Browser, s: Standing, r: nat)
    requires browser.first.Some? && LoopAt(limits, choose, browser, s) && s.ending.None? && r == s.last + 1
    ensures Reaches(limits, choose, browser, r) && Summarises(choose, browser, r - 1, s.p)
  {
    if s.last >= 1 {
      ReachesOneMore(limits, choose, browser, s.last);
    }
  }

  lemma LoopAfter(limits: Limits, choose: Chooser, browser: Browser, r: nat, p: Progress, ending: Option<Ending>)
    requires browser.first.Some? && r >= 1 && Reaches(limits, choose, browser, r) && Logged(choose, browser, r, p)
    requires ending == Verdict(limits, choose, browser, r)
    requires ending == Some(GaveUp) ==> p.failures == Failures(choose, browser, r)
    requires ending.None? ==> Summarises(choose, browser, r, p)
    ensures LoopAt(limits, choose, browser, Standing(r, p, ending))
  {
  }

  method NextRound(limits: Limits, decide: Decider, ghost choose: Chooser, browser: Browser, s: Standing)
    returns (s': Standing)
    requires browser.first.Some? && Sanitises(choose, decide) && LoopAt(limits, choose, browser, s) && s.ending.None?
    ensures LoopAt(limits, choose, browser, s') && s'.last == s.last + 1
  {
    var r := s.last + 1;
    LoopGoesOn(limits, choose, browser, s, r);
    var p, ending := Round(limits, decide, choose, browser, r, s.p);
    LoopAfter(limits, choose, browser, r, p, ending);
    s' := Standing(r, p, ending);
  }

  lemma ReachesOneMore(limits: Limits, choose: Chooser, browser: Browser, r: nat)
    requires browser.first.Some? && r >= 1 && Reaches(limits, choose, browser, r)
    requires Verdict(limits, choose, browser, r).None?
    ensures Reaches(limits, choose, browser, r + 1)
  {
  }

  /** The rounds after the first snapshot. */
  method RunRounds(limits: Limits, decide: Decider, ghost choose: Chooser, browser: Browser, first: Standing)
    returns (s: Standing)
    requires LimitsOk(limits) && browser.first.Some? && Sanitises(choose, decide)
    requires LoopAt(limits, choose, browser, first) && first.last == 0 && first.ending.None?
    ensures LoopAt(limits, choose, browser, s) && 1 <= s.last <= limits.maxSteps
    ensures s.ending.None? ==> s.last == limits.maxSteps
  {
    s := first;
    while s.last < limits.maxSteps && s.ending.None?
      invariant LoopAt(limits, choose, browser, s) && s.last <= limits.maxSteps
      invariant s.last == 0 ==> s.ending.None?
      decreases limits.maxSteps - s.last
    {
      s := NextRound(limits, decide, choose, browser, s);
    }
  }

  /** The planner loop for any planner and any browser. It answers with the trace, or fails without one;
      `executed` are the actions applied to the page and `last` is the last round. */
  method ExecuteGoal(limits: Limits, decide: Decider, browser: Browser)
    returns (outcome: Outcome, executed: seq<Action>, last: nat)
    requires LimitsOk(limits)
    ensures browser.first.None? ==> outcome == Failed(0) && executed == []
    ensures browser.first.Some? ==>
      var choose := Sanitising(decide);
      && EndsIn(limits, choose, browser, last)
      && executed == Actions(Moves(choose, last)) && outcome == OutcomeAt(limits, choose, browser, last)
  {
    if browser.first.None? {
      return Failed(0), [], 0;
    }
    ghost var choose := Sanitising(decide);
    var first := Standing(0, Progress([], [], 0, browser.first.value, 0, "", 0), None);
    var s := RunRounds(limits, decide, choose, browser, first);
    last, executed := s.last, s.p.prior;
    outcome := Conclude(limits, choose, browser, last, s.p, s.ending);
  }

  method Conclude(limits: Limits, ghost choose: Chooser, browser: Browser, ghost last: nat, p: Progress,
                  ending: Option<Ending>) returns (outcome: Outcome)
    requires last >= 1 && browser.first.Some? && ending == Verdict(limits, choose, browser, last)
    requires Logged(choose, browser, last, p)
    requires ending == Some(GaveUp) ==> p.failures == Failures(choose, browser, last)
    ensures outcome == OutcomeAt(limits, choose, browser, last)
  {
    if ending == Some(GaveUp) {
      return Failed(p.failures);
    }
    TraceLength(choose, browser, Moves(choose, last));
    var reason := ReasonText(limits, ending, |p.trace|);
    outcome := Answered(Marked(p.trace, reason), reason);
  }

  // ---------------------------------------------------------------- guardrails

  ghost predicate SameBetween(s: seq<string>, i: nat, j: nat)
    requires i < j <= |s|
  {
    forall k :: i <= k < j ==> s[k] == s[i]
  }

  ghost predicate NoRunLonger(s: seq<string>, limit: int) {
    forall i, j :: 0 <= i < j <= |s| && SameBetween(s, i, j) ==> j - i <= limit
  }

  lemma {:induction false} TrailingRunCovers(s: seq<string>, i: nat)
    requires i < |s| && SameBetween(s, i, |s|)
    ensures |s| - i <= TrailingRun(s)
    decreases |s|
  {
    if i < |s| - 1 {
      var shorter := s[..|s| - 1];
      assert SameBetween(shorter, i, |shorter|);
      TrailingRunCovers(shorter, i);
      assert s[|s| - 1] == s[i] && s[|s| - 2] == s[i];
    }
  }

  /** A trailing run is maximal: its elements are equal, and it does not extend to the left. */
  lemma {:induction false} TrailingRunIsMaximal(s: seq<string>)
    requires s != []
    ensures var run := TrailingRun(s);
      && 1 <= run <= |s| && SameBetween(s, |s| - run, |s|)
      && (run < |s| ==> s[|s| - run - 1] != s[|s| - 1])
  {
    if |s| >= 2 && s[|s| - 1] == s[|s| - 2] {
      var shorter := s[..|s| - 1];
      TrailingRunIsMaximal(shorter);
      var run := TrailingRun(shorter);
      forall k | |shorter| - run <= k < |s| ensures s[k] == s[|shorter| - run] {
        if k < |shorter| {
          assert shorter[k] == shorter[|shorter| - run];
        } else {
          assert shorter[|shorter| - 1] == shorter[|shorter| - run];
        }
      }
    }
  }

  lemma NoRunAppend(s: seq<string>, x: string, limit: int)
    requires NoRunLonger(s, limit) && TrailingRun(s) < limit
    ensures NoRunLonger(s + [x], limit)
  {
    var longer := s + [x];
    forall i, j | 0 <= i < j <= |longer| && SameBetween(longer, i, j) ensures j - i <= limit {
      assert forall k :: 0 <= k < |s| ==> longer[k] == s[k];
      if j <= |s| {
        assert SameBetween(s, i, j);
      } else if i < |s| {
        assert SameBetween(s, i, |s|);
        TrailingRunCovers(s, i);
      }
    }
  }

  /** What a round that did not end the loop tells. */
  lemma WentOn(limits: Limits, choose: Chooser, browser: Browser, n: nat, r: nat)
    requires browser.first.Some? && Reaches(limits, choose, browser, n) && 1 <= r < n
    ensures Chosen(choose, r).Runs? ==>
      browser.succeeds(r) && TrailingRun(MoveSignatures(Moves(choose, r))) < limits.maxRepeatActions
    ensures RoundFails(choose, browser, r) ==> Failures(choose, browser, r) <= limits.maxFailures
    ensures !RoundFails(choose, browser, r) ==>
      Chosen(choose, r).Runs? && TrailingRun(Captures(browser, Moves(choose, r))) <= limits.maxRepeatSnapshots
  {
    assert Verdict(limits, choose, browser, r).None?;
  }

  lemma ReachesEarlier(limits: Limits, choose: Chooser, browser: Browser, n: nat, r: nat)
    requires browser.first.Some? && Reaches(limits, choose, browser, n) && r <= n
    ensures Reaches(limits, choose, browser, r)
  {
  }

  /** Both histories are within their limits. */
  ghost predicate BelowLimits(limits: Limits, signatures: seq<string>, captures: seq<string>) {
    && NoRunLonger(signatures, limits.maxRepeatActions) && TrailingRun(signatures) < limits.maxRepeatActions
    && NoRunLonger(captures, limits.maxRepeatSnapshots + 1) && TrailingRun(captures) <= limits.maxRepeatSnapshots
  }

  /** While the loop goes on, both histories stay below their limits. */
  lemma {:induction false} RunsBefore(limits: Limits, choose: Chooser, browser: Browser, r: nat)
    requires LimitsOk(limits) && browser.first.Some? && Reaches(limits, choose, browser, r + 1)
    ensures BelowLimits(limits, MoveSignatures(Moves(choose, r)), Captures(browser, Moves(choose, r)))
  {
    if r > 0 {
      ReachesEarlier(limits, choose, browser, r + 1, r);
      RunsBefore(limits, choose, browser, r - 1);
      WentOn(limits, choose, browser, r + 1, r);
      RunsOneMore(limits, choose, browser, r);
    }
  }

  lemma RunsOneMore(limits: Limits, choose: Chooser, browser: Browser, r: nat)
    requires r >= 1 && browser.first.Some?
    requires BelowLimits(limits, MoveSignatures(Moves(choose, r - 1)), Captures(browser, Moves(choose, r - 1)))
    ensures NoRunLonger(MoveSignatures(Moves(choose, r)), limits.maxRepeatActions)
    ensures NoRunLonger(Captures(browser, Moves(choose, r)), limits.maxRepeatSnapshots + 1)
    ensures !Chosen(choose, r).Runs? ==> Moves(choose, r) == Moves(choose, r - 1)
    ensures browser.capture(r).None? ==>
      Captures(browser, Moves(choose, r)) == Captures(browser, Moves(choose, r - 1))
  {
    var choice := Chosen(choose, r);
    if choice.Runs? {
      MoveMade(choose, browser, r, choice.action, choice.signature);
      NoRunAppend(MoveSignatures(Moves(choose, r - 1)), choice.signature, limits.maxRepeatActions);
      if browser.capture(r).Some? {
        NoRunAppend(Captures(browser, Moves(choose, r - 1)), browser.capture(r).value, limits.maxRepeatSnapshots + 1);
      }
    }
  }

  lemma {:induction false} FailuresGrow(choose: Chooser, browser: Browser, i: nat, r: nat)
    requires i <= r
    ensures Failures(choose, browser, i) <= Failures(choose, browser, r)
  {
    if i < r {
      FailuresGrow(choose, browser, i, r - 1);
    }
  }

  /** While the loop goes on, it has not failed too often. */
  lemma {:induction false} FailuresBounded(limits: Limits, choose: Chooser, browser: Browser, n: nat, r: nat)
    requires LimitsOk(limits) && browser.first.Some? && Reaches(limits, choose, browser, n) && r < n
    ensures Failures(choose, browser, r) <= limits.maxFailures
  {
    if r > 0 {
      FailuresBounded(limits, choose, browser, n, r - 1);
      WentOn(limits, choose, browser, n, r);
    }
  }

  /** One move a round at most, in order, up to round `r`. */
  ghost predicate Increasing(moves: seq<Move>, r: int)
    decreases |moves|
  {
    moves == [] ||
    var last := moves[|moves| - 1].round;
    1 <= last <= r && Increasing(moves[..|moves| - 1], last - 1)
  }

  lemma {:induction false} IncreasingAt(moves: seq<Move>, r: int, i: nat, j: nat)
    requires Increasing(moves, r) && i <= j < |moves|
    ensures 1 <= moves[i].round && moves[j].round <= r && (i < j ==> moves[i].round < moves[j].round)
    decreases |moves|
  {
    var last := |moves| - 1;
    if j < last {
      IncreasingAt(moves[..last], moves[last].round - 1, i, j);
    } else if i < last {
      IncreasingAt(moves[..last], moves[last].round - 1, i, i);
    }
  }

  lemma MovesOneMore(choose: Chooser, r: nat)
    requires r >= 1
    ensures var choice, before := Chosen(choose, r), Moves(choose, r - 1);
      if choice.Runs? then
        && Moves(choose, r) == before + [Move(r, choice.action, choice.signature)]
        && Actions(Moves(choose, r)) == Actions(before) + [choice.action]
      else Moves(choose, r) == before
  {
    var choice, before := Chosen(choose, r), Moves(choose, r - 1);
    if choice.Runs? {
      assert Moves(choose, r)[..|before|] == before;
    }
  }

  lemma {:induction false} MovesIncrease(choose: Chooser, r: nat)
    ensures Increasing(Moves(choose, r), r)
  {
    if r > 0 {
      MovesIncrease(choose, r - 1);
      IncreasingAppend(Moves(choose, r - 1), r, Chosen(choose, r), Moves(choose, r));
    }
  }

  lemma IncreasingAppend(earlier: seq<Move>, r: nat, choice: Choice, moves: seq<Move>)
    requires r >= 1 && Increasing(earlier, r - 1)
    requires moves == if choice.Runs? then earlier + [Move(r, choice.action, choice.signature)] else earlier
    ensures Increasing(moves, r)
  {
    if choice.Runs? {
      assert moves[..|earlier|] == earlier;
    }
  }

  ghost function StepOf(choose: Chooser, browser: Browser, moves: seq<Move>, k: nat): TraceStep
    requires k < |moves| && moves[k].round >= 1
  {
    TraceStep(k + 1, moves[k].action, browser.succeeds(moves[k].round), moves[k].round,
              Failures(choose, browser, moves[k].round - 1), "")
  }

  lemma {:induction false} TraceAt(choose: Chooser, browser: Browser, moves: seq<Move>, k: nat)
    requires k < |moves| && moves[k].round >= 1
    ensures |TraceOf(choose, browser, moves)| == |moves|
    ensures TraceOf(choose, browser, moves)[k] == StepOf(choose, browser, moves, k)
    decreases |moves|
  {
    TraceLength(choose, browser, moves);
    TraceLength(choose, browser, moves[..|moves| - 1]);
    if k < |moves| - 1 {
      TraceAt(choose, browser, moves[..|moves| - 1], k);
    }
  }

  /** What holds of every trace the loop returns. */
  ghost predicate Guarded(limits: Limits, t: seq<TraceStep>) {
    && (forall k :: 0 <= k < |t| ==> StepGuarded(limits, t, k))
    && (forall i, j :: 0 <= i < j < |t| ==> PairGuarded(t, i, j))
  }

  ghost predicate StepGuarded(limits: Limits, t: seq<TraceStep>, k: nat)
    requires k < |t|
  {
    && t[k].index == k + 1 && 1 <= t[k].round <= limits.maxSteps && 0 <= t[k].failures <= limits.maxFailures
    && (k < |t| - 1 ==> t[k].stopReason == "" && t[k].succeeded)
  }

  ghost predicate PairGuarded(t: seq<TraceStep>, i: nat, j: nat)
    requires i < j < |t|
  {
    t[i].round < t[j].round && t[i].failures <= t[j].failures
  }

  lemma {:induction false} MoveIsChosen(choose: Chooser, r: nat, k: nat)
    requires k < |Moves(choose, r)|
    ensures var move := Moves(choose, r)[k];
      1 <= move.round <= r && Chosen(choose, move.round) == Runs(move.action, move.signature)
  {
    if k < |Moves(choose, r - 1)| {
      MoveIsChosen(choose, r - 1, k);
    }
  }

  /** What the guards give for the moves of the rounds up to `n`. */
  ghost predicate MovesOk(limits: Limits, choose: Chooser, browser: Browser, n: nat, moves: seq<Move>) {
    && Increasing(moves, n)
    && forall k :: 0 <= k < |moves| ==> RoundOk(limits, choose, browser, n, moves[k].round)
  }

  ghost predicate RoundOk(limits: Limits, choose: Chooser, browser: Browser, n: nat, r: nat) {
    r >= 1 && Failures(choose, browser, r - 1) <= limits.maxFailures && (r < n ==> browser.succeeds(r))
  }

  lemma RoundIsOk(limits: Limits, choose: Chooser, browser: Browser, n: nat, r: nat)
    requires LimitsOk(limits) && browser.first.Some? && Reaches(limits, choose, browser, n)
    requires 1 <= r <= n && Chosen(choose, r).Runs?
    ensures RoundOk(limits, choose, browser, n, r)
  {
    FailuresBounded(limits, choose, browser, n, r - 1);
    if r < n {
      WentOn(limits, choose, browser, n, r);
    }
  }

  lemma MovesAreOk(limits: Limits, choose: Chooser, browser: Browser, n: nat)
    requires LimitsOk(limits) && browser.first.Some? && Reaches(limits, choose, browser, n)
    ensures MovesOk(limits, choose, browser, n, Moves(choose, n))
  {
    MovesIncrease(choose, n);
    forall k | 0 <= k < |Moves(choose, n)| ensures RoundOk(limits, choose, browser, n, Moves(choose, n)[k].round) {
      MoveIsChosen(choose, n, k);
      RoundIsOk(limits, choose, browser, n, Moves(choose, n)[k].round);
    }
  }

  /** The trace of such moves before a stop reason is put on it. */
  lemma TraceIsGuarded(limits: Limits, choose: Chooser, browser: Browser, n: nat, moves: seq<Move>)
    requires n <= limits.maxSteps && MovesOk(limits, choose, browser, n, moves)
    ensures Guarded(limits, TraceOf(choose, browser, moves)) && |TraceOf(choose, browser, moves)| == |moves|
  {
    var t := TraceOf(choose, browser, moves);
    var failures := (r: nat) => Failures(choose, browser, r);
    TraceLength(choose, browser, moves);
    forall k | 0 <= k < |t| ensures StepFrom(limits, failures, n, moves[k].round, t[k], k) {
      IncreasingAt(moves, n, k, k);
      TraceAt(choose, browser, moves, k);
      assert RoundOk(limits, choose, browser, n, moves[k].round);
    }
    forall i: nat, j: nat | i <= j ensures failures(i) <= failures(j) {
      FailuresGrow(choose, browser, i, j);
    }
    StepsAreGuarded(limits, failures, n, moves, t);
  }

  /** Step `k` of a trace, made in round `r`. */
  ghost predicate StepFrom(limits: Limits, failures: nat -> nat, n: nat, r: nat, step: TraceStep, k: nat) {
    && 1 <= r <= n && step.index == k + 1 && step.round == r && step.stopReason == ""
    && step.failures == failures(r - 1) <= limits.maxFailures
    && (r < n ==> step.succeeded)
  }

  lemma StepsAreGuarded(limits: Limits, failures: nat -> nat, n: nat, moves: seq<Move>, t: seq<TraceStep>)
    requires n <= limits.maxSteps && Increasing(moves, n) && |t| == |moves|
    requires forall k :: 0 <= k < |t| ==> StepFrom(limits, failures, n, moves[k].round, t[k], k)
    requires forall i: nat, j: nat :: i <= j ==> failures(i) <= failures(j)
    ensures Guarded(limits, t)
  {
    forall k | 0 <= k < |t| ensures StepGuarded(limits, t, k) {
      IncreasingAt(moves, n, k, |t| - 1);
    }
    forall i, j | 0 <= i < j < |t| ensures PairGuarded(t, i, j) {
      IncreasingAt(moves, n, i, j);
      assert StepFrom(limits, failures, n, moves[i].round, t[i], i);
      assert StepFrom(limits, failures, n, moves[j].round, t[j], j);
    }
  }

  /** Whatever the planner and the page do: indices are 1 to k, rounds increase within the step limit, failure
      counts do not decrease and stay within the failure limit, only the last step may have failed or carry a
      stop reason, and a loop that gives up has exceeded the failure limit by exactly one. */
  lemma GuardedOutcome(limits: Limits, choose: Chooser, browser: Browser, n: nat)
    requires LimitsOk(limits) && browser.first.Some? && EndsIn(limits, choose, browser, n)
    ensures var outcome := OutcomeAt(limits, choose, browser, n);
      && (outcome.Answered? ==> Guarded(limits, outcome.trace) && |outcome.trace| <= limits.maxSteps)
      && (outcome.Failed? ==> outcome.failures == limits.maxFailures + 1)
  {
    MovesAreOk(limits, choose, browser, n);
    AnswerIsGuarded(limits, choose, browser, n);
    GivesUpAtOnce(limits, choose, browser, n);
    if Verdict(limits, choose, browser, n) == Some(GaveUp) {
      GaveUpMeans(limits, choose, browser, n);
    }
  }

  lemma AnswerIsGuarded(limits: Limits, choose: Chooser, browser: Browser, n: nat)
    requires 1 <= n <= limits.maxSteps && MovesOk(limits, choose, browser, n, Moves(choose, n))
    ensures forall reason :: var t := Marked(TraceOf(choose, browser, Moves(choose, n)), reason);
      Guarded(limits, t) && |t| <= limits.maxSteps
  {
    var t := TraceOf(choose, browser, Moves(choose, n));
    TraceIsGuarded(limits, choose, browser, n, Moves(choose, n));
    if t != [] {
      IndexBelowRound(limits, t, |t| - 1);
    }
    forall reason ensures Guarded(limits, Marked(t, reason)) && |Marked(t, reason)| == |t| {
      MarkedIsGuarded(limits, t, reason);
    }
  }

  lemma GivesUpAtOnce(limits: Limits, choose: Chooser, browser: Browser, n: nat)
    requires LimitsOk(limits) && browser.first.Some? && n >= 1 && Reaches(limits, choose, browser, n)
    ensures Failures(choose, browser, n) <= limits.maxFailures + 1
  {
    FailuresBounded(limits, choose, browser, n, n - 1);
  }

  lemma GaveUpMeans(limits: Limits, choose: Chooser, browser: Browser, n: nat)
    requires browser.first.Some? && n >= 1 && Verdict(limits, choose, browser, n) == Some(GaveUp)
    ensures Failures(choose, browser, n) > limits.maxFailures
  {
  }

  lemma MarkedIsGuarded(limits: Limits, t: seq<TraceStep>, reason: string)
    requires Guarded(limits, t)
    ensures Guarded(limits, Marked(t, reason)) && |Marked(t, reason)| == |t|
  {
    var u := Marked(t, reason);
    forall k | 0 <= k < |u| ensures StepGuarded(limits, u, k) {
      assert StepGuarded(limits, t, k);
    }
    forall i, j | 0 <= i < j < |u| ensures PairGuarded(u, i, j) {
      assert PairGuarded(t, i, j);
    }
  }

  lemma {:induction false} IndexBelowRound(limits: Limits, t: seq<TraceStep>, k: nat)
    requires Guarded(limits, t) && k < |t|
    ensures k + 1 <= t[k].round <= limits.maxSteps
  {
    assert StepGuarded(limits, t, k);
    if k > 0 {
      IndexBelowRound(limits, t, k - 1);
      assert PairGuarded(t, k - 1, k);
    }
  }

  lemma SanctionedIsClean(d: Decision)
    requires Sanctioned(d).Runs?
    ensures IsClean(Sanctioned(d).action) && Sanctioned(d).signature == JoinedFields(Sanctioned(d).action)
  {
    CleanIsClean(d.action);
    CleanFixesIff(Sanctioned(d).action);
  }

  /** What holds of every choice holds of every move. */
  lemma {:induction false} MovesAreAllowed(choose: Chooser, allowed: (Action, string) -> bool, r: nat)
    requires forall i: nat, prior: seq<Action> ::
      choose(i, prior).Runs? ==> allowed(choose(i, prior).action, choose(i, prior).signature)
    ensures var a, s := Actions(Moves(choose, r)), MoveSignatures(Moves(choose, r));
      |s| == |a| && forall k :: 0 <= k < |a| ==> allowed(a[k], s[k])
  {
    if r > 0 {
      MovesAreAllowed(choose, allowed, r - 1);
    }
  }

  lemma SignaturesAre(actions: seq<Action>, signatures: seq<string>, allowed: (Action, string) -> bool)
    requires |actions| == |signatures| && forall k :: 0 <= k < |actions| ==> allowed(actions[k], signatures[k])
    requires forall a, s :: allowed(a, s) ==> IsClean(a) && s == JoinedFields(a)
    ensures AllClean(actions) && signatures == Signatures(actions)
  {
  }

  /** The loop runs clean actions only, and counts the repetitions of their signatures. */
  lemma SignaturesAgree(decide: Decider, r: nat)
    ensures var moves := Moves(Sanitising(decide), r);
      AllClean(Actions(moves)) && MoveSignatures(moves) == Signatures(Actions(moves))
  {
    var choose := Sanitising(decide);
    var allowed := (a: Action, s: string) => IsClean(a) && s == JoinedFields(a);
    forall i: nat, prior: seq<Action> | choose(i, prior).Runs?
      ensures allowed(choose(i, prior).action, choose(i, prior).signature)
    {
      SanctionedIsClean(decide(i, prior));
    }
    MovesAreAllowed(choose, allowed, r);
    SignaturesAre(Actions(Moves(choose, r)), MoveSignatures(Moves(choose, r)), allowed);
  }

  lemma HistoriesAreBounded(limits: Limits, choose: Chooser, browser: Browser, n: nat)
    requires LimitsOk(limits) && browser.first.Some? && n >= 1 && Reaches(limits, choose, browser, n)
    ensures NoRunLonger(MoveSignatures(Moves(choose, n)), limits.maxRepeatActions)
    ensures NoRunLonger(Captures(browser, Moves(choose, n)), limits.maxRepeatSnapshots + 1)
  {
    RunsBefore(limits, choose, browser, n - 1);
    RunsOneMore(limits, choose, browser, n);
  }

  /** However the planner answers: every executed action is clean, no signature runs more often in a row than
      the repeat limit, and at most maxRepeatSnapshots captures in a row are unchanged (counting the capture
      after the last action even when the loop stopped before taking it). */
  lemma NoLongRepeats(limits: Limits, decide: Decider, browser: Browser, n: nat)
    requires LimitsOk(limits) && browser.first.Some? && EndsIn(limits, Sanitising(decide), browser, n)
    ensures var moves := Moves(Sanitising(decide), n);
      && AllClean(Actions(moves))
      && NoRunLonger(Signatures(Actions(moves)), limits.maxRepeatActions)
      && NoRunLonger(Captures(browser, moves), limits.maxRepeatSnapshots + 1)
  {
    HistoriesAreBounded(limits, Sanitising(decide), browser, n);
    SignaturesAgree(decide, n);
  }

  // ---------------------------------------------------------------- a fixed plan

  /** The static step planner around a planner that gives `plans(r)` in round r, none when it fails. */
  function StaticPlanner(plans: nat -> Option<seq<Action>>): Decider {
    (round: nat, prior: seq<Action>) => Answer(plans(round), prior)
  }

  lemma PlanStops(reason: string)
    requires reason == "no_actions" || reason == "plan_exhausted"
    ensures StopText(reason) == reason
  {
    WordIsFixed(reason);
    TrimmedIsFixed(reason);
  }

  /** A chooser that follows a plan: after a prefix it fails or runs the next action, and after all of the plan
      it fails or stops. */
  ghost predicate Follows(choose: Chooser, plan: seq<Action>) {
    forall r: nat, prior: seq<Action> :: prior <= plan ==> FollowsAt(choose(r, prior), plan, |prior|)
  }

  ghost predicate FollowsAt(choice: Choice, plan: seq<Action>, n: nat) {
    match choice
    case Fails => true
    case Runs(a, _) => n < |plan| && a == plan[n]
    case Stops(reason) => n == |plan| && reason == if plan == [] then "no_actions" else "plan_exhausted"
  }

  lemma SanctionedAnswer(plan: seq<Action>, n: nat, d: Decision)
    requires n <= |Sanitized(plan)|
    requires d == PlannerFailed || d == Answer(Some(plan), Sanitized(plan)[..n])
    ensures FollowsAt(Sanctioned(d), Sanitized(plan), n)
  {
    ClosedLoopAnswer(plan, n);
    PlanStops("no_actions");
    PlanStops("plan_exhausted");
    SanitizedIsClean(plan);
    if n < |Sanitized(plan)| {
      CleanFixesIff(Sanitized(plan)[n]);
    }
  }

  lemma {:induction false} FollowerRunsAPrefix(choose: Chooser, plan: seq<Action>, r: nat)
    requires Follows(choose, plan)
    ensures Actions(Moves(choose, r)) <= plan
  {
    if r > 0 {
      FollowerRunsAPrefix(choose, plan, r - 1);
      MovesOneMore(choose, r);
      ChoiceFollows(choose, plan, r, Actions(Moves(choose, r - 1)));
    }
  }

  lemma ChoiceFollows(choose: Chooser, plan: seq<Action>, r: nat, before: seq<Action>)
    requires Follows(choose, plan) && before <= plan
    ensures var choice := choose(r, before);
      && FollowsAt(choice, plan, |before|)
      && (choice.Runs? ==> before + [choice.action] <= plan)
      && (choice.Stops? ==> before == plan)
  {
    assert FollowsAt(choose(r, before), plan, |before|);
  }

  lemma StaticPlannerFollows(plans: nat -> Option<seq<Action>>, plan: seq<Action>)
    requires forall i :: plans(i).None? || plans(i) == Some(plan)
    ensures Follows(Sanitising(StaticPlanner(plans)), Sanitized(plan))
  {
    var choose := Sanitising(StaticPlanner(plans));
    forall r: nat, prior: seq<Action> | prior <= Sanitized(plan)
      ensures FollowsAt(choose(r, prior), Sanitized(plan), |prior|)
    {
      assert prior == Sanitized(plan)[..|prior|];
      SanctionedAnswer(plan, |prior|, Answer(plans(r), prior));
    }
  }

  /** For a planner that always gives the same plan, or fails, the executed actions are a prefix of the
      sanitised plan, in order. */
  lemma RunsAPrefixOfThePlan(plans: nat -> Option<seq<Action>>, plan: seq<Action>, r: nat)
    requires forall i :: plans(i).None? || plans(i) == Some(plan)
    ensures Actions(Moves(Sanitising(StaticPlanner(plans)), r)) <= Sanitized(plan)
  {
    StaticPlannerFollows(plans, plan);
    FollowerRunsAPrefix(Sanitising(StaticPlanner(plans)), Sanitized(plan), r);
  }

  lemma FollowerStops(choose: Chooser, plan: seq<Action>, r: nat)
    requires r >= 1 && Follows(choose, plan) && Chosen(choose, r).Stops?
    ensures Actions(Moves(choose, r - 1)) == plan && Moves(choose, r) == Moves(choose, r - 1)
    ensures Chosen(choose, r).reason == if plan == [] then "no_actions" else "plan_exhausted"
  {
    FollowerRunsAPrefix(choose, plan, r - 1);
    MovesOneMore(choose, r);
    ChoiceFollows(choose, plan, r, Actions(Moves(choose, r - 1)));
  }

  lemma StoppedMeans(limits: Limits, choose: Chooser, browser: Browser, n: nat, reason: string)
    requires browser.first.Some? && n >= 1 && Verdict(limits, choose, browser, n) == Some(PlannerStopped(reason))
    ensures Chosen(choose, n) == Stops(reason)
  {
  }

  /** When the planner stops the loop, the whole sanitised plan has run. */
  lemma StopsOnceThePlanHasRun(limits: Limits, plans: nat -> Option<seq<Action>>, plan: seq<Action>, browser: Browser,
                               n: nat, reason: string)
    requires browser.first.Some? && n >= 1 && forall i :: plans(i).None? || plans(i) == Some(plan)
    requires Verdict(limits, Sanitising(StaticPlanner(plans)), browser, n) == Some(PlannerStopped(reason))
    ensures Actions(Moves(Sanitising(StaticPlanner(plans)), n)) == Sanitized(plan)
    ensures reason == if Sanitized(plan) == [] then "no_actions" else "plan_exhausted"
  {
    StaticPlannerFollows(plans, plan);
    StoppedMeans(limits, Sanitising(StaticPlanner(plans)), browser, n, reason);
    FollowerStops(Sanitising(StaticPlanner(plans)), Sanitized(plan), n);
  }

  // ---------------------------------------------------------------- the whole plan runs

  /** A chooser that names the actions of the plan one after the other, with these signatures, then stops. */
  ghost predicate Obeys(choose: Chooser, plan: seq<Action>, signatures: seq<string>, reason: string) {
    && |signatures| == |plan|
    && forall r: nat, prior: seq<Action> :: prior <= plan ==>
         choose(r, prior) ==
           if |prior| < |plan| then Runs(plan[|prior|], signatures[|prior|]) else Stops(reason)
  }

  /** The page as seen after round `r`. */
  function PageAfter(browser: Browser, r: nat): Option<string> {
    if r == 0 then browser.first else browser.capture(r)
  }

  /** In round `r` the action succeeds, nothing blocks, and the page can be captured and has changed. */
  predicate GoodRound(browser: Browser, r: nat) {
    r >= 1 ==>
      && browser.succeeds(r) && !browser.blocked(r)
      && browser.capture(r).Some? && browser.capture(r) != PageAfter(browser, r - 1)
  }

  lemma ChoiceObeys(choose: Chooser, plan: seq<Action>, signatures: seq<string>, reason: string, r: nat, n: nat)
    requires Obeys(choose, plan, signatures, reason) && n <= |plan|
    ensures choose(r, plan[..n]) == if n < |plan| then Runs(plan[n], signatures[n]) else Stops(reason)
  {
    assert plan[..n] <= plan;
  }

  lemma {:induction false} ObeyedMoves(choose: Chooser, plan: seq<Action>, signatures: seq<string>, reason: string,
                                       r: nat)
    requires Obeys(choose, plan, signatures, reason) && r <= |plan|
    ensures Actions(Moves(choose, r)) == plan[..r] && MoveSignatures(Moves(choose, r)) == signatures[..r]
  {
    if r > 0 {
      ObeyedMoves(choose, plan, signatures, reason, r - 1);
      ChoiceObeys(choose, plan, signatures, reason, r, r - 1);
      MoveExtends(choose, r, plan, signatures);
    }
  }

  lemma MoveExtends(choose: Chooser, r: nat, plan: seq<Action>, signatures: seq<string>)
    requires 1 <= r <= |plan| && |signatures| == |plan|
    requires Chosen(choose, r) == Runs(plan[r - 1], signatures[r - 1])
    requires Actions(Moves(choose, r - 1)) == plan[..r - 1]
    requires MoveSignatures(Moves(choose, r - 1)) == signatures[..r - 1]
    ensures Actions(Moves(choose, r)) == plan[..r] && MoveSignatures(Moves(choose, r)) == signatures[..r]
  {
    MovesOneMore(choose, r);
    MoveSignaturesAppend(Moves(choose, r - 1), Move(r, plan[r - 1], signatures[r - 1]));
    SliceExtends(plan, r);
    SliceExtends(signatures, r);
  }

  lemma MoveSignaturesAppend(moves: seq<Move>, move: Move)
    ensures MoveSignatures(moves + [move]) == MoveSignatures(moves) + [move.signature]
  {
    assert (moves + [move])[..|moves|] == moves;
  }

  lemma SliceExtends<T>(s: seq<T>, r: nat)
    requires 1 <= r <= |s|
    ensures s[..r] == s[..r - 1] + [s[r - 1]]
  {
  }

  lemma DistinctRun(signatures: seq<string>, r: nat)
    requires Distinct(signatures) && r <= |signatures|
    ensures TrailingRun(signatures[..r]) <= 1
  {
    if r >= 2 {
      assert signatures[..r][r - 1] == signatures[r - 1] && signatures[..r][r - 2] == signatures[r - 2];
    }
  }

  lemma ObeyedChoice(choose: Chooser, plan: seq<Action>, signatures: seq<string>, reason: string, r: nat)
    requires Obeys(choose, plan, signatures, reason) && 1 <= r <= |plan|
    ensures Chosen(choose, r) == Runs(plan[r - 1], signatures[r - 1])
  {
    ObeyedMoves(choose, plan, signatures, reason, r - 1);
    ChoiceObeys(choose, plan, signatures, reason, r, r - 1);
  }

  /** The last capture differs from the one before it. */
  ghost predicate JustChanged(captures: seq<string>, page: Option<string>) {
    captures != [] && Some(captures[|captures| - 1]) == page && TrailingRun(captures) == 1
  }

  lemma ChangeOnceMore(captures: seq<string>, page: Option<string>, next: string)
    requires JustChanged(captures, page) && Some(next) != page
    ensures JustChanged(captures + [next], Some(next))
  {
    RememberNext(captures, captures[|captures| - 1], TrailingRun(captures), next);
  }

  /** In good rounds the page changes every time. */
  lemma {:induction false} CapturesChange(choose: Chooser, browser: Browser, r: nat, n: nat)
    requires browser.first.Some? && r <= n
    requires forall i :: 1 <= i <= n ==> Chosen(choose, i).Runs?
    requires forall i :: 0 <= i <= n ==> GoodRound(browser, i)
    ensures JustChanged(Captures(browser, Moves(choose, r)), PageAfter(browser, r))
  {
    if r > 0 {
      CapturesChange(choose, browser, r - 1, n);
      assert Chosen(choose, r).Runs? && GoodRound(browser, r);
      CapturesGrow(choose, browser, r, Chosen(choose, r).action, Chosen(choose, r).signature);
      ChangeOnceMore(Captures(browser, Moves(choose, r - 1)), PageAfter(browser, r - 1), browser.capture(r).value);
    }
  }

  lemma GoesOnUnlessRepeating(limits: Limits, choose: Chooser, browser: Browser, r: nat)
    requires LimitsOk(limits) && limits.maxRepeatActions >= 2 && browser.first.Some? && r >= 1
    requires Chosen(choose, r).Runs? && browser.succeeds(r) && !browser.blocked(r) && browser.capture(r).Some?
    requires TrailingRun(MoveSignatures(Moves(choose, r))) <= 1 && TrailingRun(Captures(browser, Moves(choose, r))) == 1
    ensures Verdict(limits, choose, browser, r).None?
  {
  }

  lemma GoodRoundGoesOn(limits: Limits, choose: Chooser, browser: Browser, plan: seq<Action>, signatures: seq<string>,
                        reason: string, r: nat)
    requires LimitsOk(limits) && limits.maxRepeatActions >= 2 && browser.first.Some?
    requires Obeys(choose, plan, signatures, reason) && Distinct(signatures) && 1 <= r <= |plan|
    requires forall i :: 0 <= i <= |plan| ==> GoodRound(browser, i)
    ensures Verdict(limits, choose, browser, r).None?
  {
    assert GoodRound(browser, r);
    ObeyedChoice(choose, plan, signatures, reason, r);
    ObeyedMoves(choose, plan, signatures, reason, r);
    DistinctRun(signatures, r);
    forall i | 1 <= i <= |plan| ensures Chosen(choose, i).Runs? {
      ObeyedChoice(choose, plan, signatures, reason, i);
    }
    CapturesChange(choose, browser, r, |plan|);
    GoesOnUnlessRepeating(limits, choose, browser, r);
  }

  lemma ObeyedPlanRuns(limits: Limits, choose: Chooser, browser: Browser, plan: seq<Action>, signatures: seq<string>,
                       reason: string)
    requires LimitsOk(limits) && limits.maxRepeatActions >= 2 && limits.maxSteps > |plan| && browser.first.Some?
    requires Obeys(choose, plan, signatures, reason) && Distinct(signatures)
    requires forall i :: 0 <= i <= |plan| ==> GoodRound(browser, i)
    ensures var n := |plan| + 1;
      && EndsIn(limits, choose, browser, n) && Verdict(limits, choose, browser, n) == Some(PlannerStopped(reason))
      && Actions(Moves(choose, n)) == plan
  {
    var n := |plan| + 1;
    forall r | 1 <= r < n ensures Verdict(limits, choose, browser, r).None? {
      GoodRoundGoesOn(limits, choose, browser, plan, signatures, reason, r);
    }
    ObeyedMoves(choose, plan, signatures, reason, |plan|);
    assert plan[..|plan|] == plan;
    assert Chosen(choose, n) == Stops(reason);
    MovesOneMore(choose, n);
  }

  function PlanReason(plan: seq<Action>): string {
    if plan == [] then "no_actions" else "plan_exhausted"
  }

  lemma SanctionedAnswerIs(plan: seq<Action>, n: nat)
    requires n <= |Sanitized(plan)|
    ensures var s := Sanitized(plan);
      Sanctioned(Answer(Some(plan), s[..n])) ==
        if n < |s| then Runs(s[n], JoinedFields(s[n])) else Stops(PlanReason(s))
  {
    SanctionedAnswer(plan, n, Answer(Some(plan), Sanitized(plan)[..n]));
    ClosedLoopAnswer(plan, n);
    SanitizedIsClean(plan);
    if n < |Sanitized(plan)| {
      CleanFixesIff(Sanitized(plan)[n]);
    }
  }

  lemma StaticPlannerObeys(plans: nat -> Option<seq<Action>>, plan: seq<Action>)
    requires forall i :: plans(i) == Some(plan)
    ensures var s := Sanitized(plan);
      Obeys(Sanitising(StaticPlanner(plans)), s, Signatures(s), PlanReason(s)) && Distinct(Signatures(s))
  {
    var s, choose := Sanitized(plan), Sanitising(StaticPlanner(plans));
    SanitizedIsClean(plan);
    forall r: nat, prior: seq<Action> | prior <= s
      ensures choose(r, prior) ==
        if |prior| < |s| then Runs(s[|prior|], Signatures(s)[|prior|]) else Stops(PlanReason(s))
    {
      assert prior == s[..|prior|];
      SanctionedAnswerIs(plan, |prior|);
    }
  }

  /** With more rounds than actions, a repeat limit of at least two, and no failures, blockers or unchanged pages, the
      loop runs exactly the sanitised plan and ends because it is exhausted. */
  lemma WholePlanRuns(limits: Limits, plans: nat -> Option<seq<Action>>, plan: seq<Action>, browser: Browser)
    requires LimitsOk(limits) && limits.maxRepeatActions >= 2 && limits.maxSteps > |Sanitized(plan)|
    requires browser.first.Some? && forall i :: plans(i) == Some(plan)
    requires forall i :: 0 <= i <= |Sanitized(plan)| ==> GoodRound(browser, i)
    ensures var s, choose := Sanitized(plan), Sanitising(StaticPlanner(plans));
      && EndsIn(limits, choose, browser, |s| + 1)
      && Verdict(limits, choose, browser, |s| + 1) == Some(PlannerStopped(PlanReason(s)))
      && Actions(Moves(choose, |s| + 1)) == s
  {
    var s := Sanitized(plan);
    StaticPlannerObeys(plans, plan);
    ObeyedPlanRuns(limits, Sanitising(StaticPlanner(plans)), browser, s, Signatures(s), PlanReason(s));
  }

  // ---------------------------------------------------------------- why the loop ended

  /** The last `n` elements are equal. */
  ghost predicate LastEqual(s: seq<string>, n: int) {
    1 <= n <= |s| && SameBetween(s, |s| - n, |s|)
  }

  lemma TrailingRunIs(s: seq<string>, n: int)
    requires n >= 1
    ensures TrailingRun(s) >= n <==> LastEqual(s, n)
  {
    if s != [] {
      TrailingRunIsMaximal(s);
      if LastEqual(s, n) {
        TrailingRunCovers(s, |s| - n);
      }
    }
  }

  /** In round `r` an action was applied: the planner named one, and it was valid. */
  ghost predicate Acted(choose: Chooser, r: nat) {
    r >= 1 && Chosen(choose, r).Runs?
  }

  /** The action of round `r` succeeded and no blocker was found on the page after it. */
  ghost predicate Passed(choose: Chooser, browser: Browser, r: nat) {
    Acted(choose, r) && browser.succeeds(r) && !browser.blocked(r)
  }

  /** The planning of round `r` failed, or the page could not be captured after its action. */
  ghost predicate Troubled(choose: Chooser, browser: Browser, r: nat) {
    r >= 1 && (Chosen(choose, r).Fails? || (Acted(choose, r) && browser.capture(r).None?))
  }

  ghost function TroubledRounds(choose: Chooser, browser: Browser, n: nat): set<nat> {
    set r: nat | r <= n && Troubled(choose, browser, r)
  }

  lemma TroubledOneMore(choose: Chooser, browser: Browser, n: nat)
    requires n >= 1
    ensures n !in TroubledRounds(choose, browser, n - 1)
    ensures TroubledRounds(choose, browser, n) ==
      TroubledRounds(choose, browser, n - 1) + if Troubled(choose, browser, n) then {n} else {}
  {
  }

  /** Failures are counted one for each troubled round. */
  lemma {:induction false} FailuresAreCounted(choose: Chooser, browser: Browser, n: nat)
    ensures Failures(choose, browser, n) == |TroubledRounds(choose, browser, n)|
  {
    if n > 0 {
      FailuresAreCounted(choose, browser, n - 1);
      TroubledOneMore(choose, browser, n);
    } else {
      assert TroubledRounds(choose, browser, 0) == {};
    }
  }

  /** The moves are the actions of the rounds that acted, each once; the captures are the first one and those taken
      after them. */
  lemma HistoryMeaning(choose: Chooser, browser: Browser, r: nat)
    requires browser.first.Some?
    ensures Moves(choose, 0) == [] && Captures(browser, []) == [browser.first.value]
    ensures r >= 1 && !Acted(choose, r) ==> Moves(choose, r) == Moves(choose, r - 1)
    ensures r >= 1 && Acted(choose, r) ==>
      var choice, earlier, moves := Chosen(choose, r), Moves(choose, r - 1), Moves(choose, r);
      && moves == earlier + [Move(r, choice.action, choice.signature)]
      && Captures(browser, moves) ==
           Captures(browser, earlier) + if browser.capture(r).Some? then [browser.capture(r).value] else []
  {
    if r >= 1 {
      MovesOneMore(choose, r);
      if Acted(choose, r) {
        CapturesGrow(choose, browser, r, Chosen(choose, r).action, Chosen(choose, r).signature);
      }
    }
  }

  /** No action is executed after one that failed or after a blocked page: before the last round every action passed,
      and neither the planner nor too many failures or repetitions ended the loop. */
  lemma EarlierRoundsPassed(limits: Limits, choose: Chooser, browser: Browser, n: nat, r: nat)
    requires LimitsOk(limits) && browser.first.Some? && EndsIn(limits, choose, browser, n) && 1 <= r < n
    ensures !Chosen(choose, r).Stops?
    ensures Acted(choose, r) ==> Passed(choose, browser, r)
    ensures Acted(choose, r) ==> !LastEqual(MoveSignatures(Moves(choose, r)), limits.maxRepeatActions)
    ensures !Troubled(choose, browser, r) ==>
      !LastEqual(Captures(browser, Moves(choose, r)), limits.maxRepeatSnapshots + 1)
    ensures Troubled(choose, browser, r) ==> Failures(choose, browser, r) <= limits.maxFailures
  {
    assert Verdict(limits, choose, browser, r).None?;
    TrailingRunIs(MoveSignatures(Moves(choose, r)), limits.maxRepeatActions);
    TrailingRunIs(Captures(browser, Moves(choose, r)), limits.maxRepeatSnapshots + 1);
  }

  /** The maximal number of equal signatures has been reached, or of unchanged captures. */
  ghost predicate Repeated(limits: Limits, choose: Chooser, n: nat) {
    LastEqual(MoveSignatures(Moves(choose, n)), limits.maxRepeatActions)
  }

  ghost predicate Stuck(limits: Limits, choose: Chooser, browser: Browser, n: nat)
    requires browser.first.Some?
  {
    LastEqual(Captures(browser, Moves(choose, n)), limits.maxRepeatSnapshots + 1)
  }

  /** The round gets as far as planning again, with or without a capture of the page. */
  ghost predicate GoesOn(limits: Limits, choose: Chooser, browser: Browser, n: nat)
    requires n >= 1
  {
    Chosen(choose, n).Fails? || (Passed(choose, browser, n) && !Repeated(limits, choose, n))
  }

  lemma EndingIff(limits: Limits, choose: Chooser, browser: Browser, n: nat)
    requires LimitsOk(limits) && browser.first.Some? && n >= 1
    ensures var choice, v := Chosen(choose, n), Verdict(limits, choose, browser, n);
      var troubled := GoesOn(limits, choose, browser, n) && Troubled(choose, browser, n);
      && (choice.Stops? ==> v == Some(PlannerStopped(choice.reason)))
      && (v.Some? && v.value.PlannerStopped? ==> choice.Stops?)
      && (v == Some(ActionFailed) <==> Acted(choose, n) && !browser.succeeds(n))
      && (v == Some(Blocked) <==> Acted(choose, n) && browser.succeeds(n) && browser.blocked(n))
      && (v == Some(RepeatedAction) <==> Passed(choose, browser, n) && Repeated(limits, choose, n))
      && (v == Some(GaveUp) <==> troubled && Failures(choose, browser, n) > limits.maxFailures)
      && (v == Some(RepeatedSnapshot) <==>
            GoesOn(limits, choose, browser, n) && !troubled && Stuck(limits, choose, browser, n))
  {
    TrailingRunIs(MoveSignatures(Moves(choose, n)), limits.maxRepeatActions);
    TrailingRunIs(Captures(browser, Moves(choose, n)), limits.maxRepeatSnapshots + 1);
  }

  lemma TextIff(limits: Limits, ending: Option<Ending>, steps: nat)
    requires LimitsOk(limits) && ending != Some(GaveUp) && !(ending.Some? && ending.value.PlannerStopped?)
    ensures var text := ReasonText(limits, ending, steps);
      && (text == "action_failed" <==> ending == Some(ActionFailed))
      && (text == "blocker_detected" <==> ending == Some(Blocked))
      && (text == "loop_detected_repeated_action" <==> ending == Some(RepeatedAction))
      && (text == "loop_detected_repeated_snapshot" <==> ending == Some(RepeatedSnapshot))
      && (text == "max_planner_steps_reached" <==> ending == None && steps >= limits.maxSteps)
      && (text == "no_actions" <==> ending == None && steps == 0)
      && (text == "" <==> ending == None && 0 < steps < limits.maxSteps)
  {
    assert |"action_failed"| == 13 && |"blocker_detected"| == 16 && |"loop_detected_repeated_action"| == 29;
    assert |"loop_detected_repeated_snapshot"| == 31 && |"max_planner_steps_reached"| == 25 && |"no_actions"| == 10;
  }

  /** What is answered, in terms of the planner, the browser and the limits alone, when the loop ends in round `n`:
      the planner's reason exactly when it stopped; action_failed exactly when the last action failed;
      blocker_detected exactly when it succeeded and the page is blocked then; the repeated action exactly when it
      passed and was the last of so many of one signature; a failure without a trace exactly when the round was
      troubled once too often; the repeated snapshot exactly when the page had then not changed for so many captures;
      and otherwise the rounds were used up. */
  lemma ReasonMeaning(limits: Limits, choose: Chooser, browser: Browser, n: nat)
    requires LimitsOk(limits) && browser.first.Some? && EndsIn(limits, choose, browser, n)
    ensures var choice, out := Chosen(choose, n), OutcomeAt(limits, choose, browser, n);
      var goesOn := GoesOn(limits, choose, browser, n);
      var troubled, stuck := goesOn && Troubled(choose, browser, n), Stuck(limits, choose, browser, n);
      && (out.Failed? <==> troubled && |TroubledRounds(choose, browser, n)| > limits.maxFailures)
      && (out.Failed? ==> out.failures == |TroubledRounds(choose, browser, n)|)
      && (choice.Stops? ==> out.Answered? && out.stopReason == choice.reason)
      && (!choice.Stops? && out.Answered? ==>
            && (out.stopReason == "action_failed" <==> Acted(choose, n) && !browser.succeeds(n))
            && (out.stopReason == "blocker_detected" <==>
                  Acted(choose, n) && browser.succeeds(n) && browser.blocked(n))
            && (out.stopReason == "loop_detected_repeated_action" <==>
                  Passed(choose, browser, n) && Repeated(limits, choose, n))
            && (out.stopReason == "loop_detected_repeated_snapshot" <==> goesOn && !troubled && stuck)
            && (out.stopReason == "max_planner_steps_reached" <==>
                  goesOn && (troubled || !stuck) && |Moves(choose, n)| >= limits.maxSteps)
            && (out.stopReason == "no_actions" <==> goesOn && (troubled || !stuck) && |Moves(choose, n)| == 0)
            && (out.stopReason == "" <==>
                  goesOn && (troubled || !stuck) && 0 < |Moves(choose, n)| < limits.maxSteps))
  {
    var ending := Verdict(limits, choose, browser, n);
    FailuresAreCounted(choose, browser, n);
    EndingIff(limits, choose, browser, n);
    if ending != Some(GaveUp) && !(ending.Some? && ending.value.PlannerStopped?) {
      TextIff(limits, ending, |Moves(choose, n)|);
    }
    NoOtherEnding(limits, choose, browser, n);
  }

  lemma NoOtherEnding(limits: Limits, choose: Chooser, browser: Browser, n: nat)
    requires LimitsOk(limits) && browser.first.Some? && n >= 1
    ensures var goesOn := GoesOn(limits, choose, browser, n);
      var troubled := goesOn && Troubled(choose, browser, n);
      Verdict(limits, choose, browser, n) == None <==>
        goesOn && (if troubled then Failures(choose, browser, n) <= limits.maxFailures
                   else !Stuck(limits, choose, browser, n))
  {
    EndingIff(limits, choose, browser, n);
  }

  /** What a step of the trace says about the move it stands for. */
  ghost predicate Tells(choose: Chooser, browser: Browser, move: Move, k: nat, step: TraceStep) {
    && step.index == k + 1 && step.action == move.action && step.round == move.round >= 1
    && step.succeeded == browser.succeeds(move.round)
    && step.failures == |TroubledRounds(choose, browser, move.round - 1)|
  }

  lemma StepTells(choose: Chooser, browser: Browser, moves: seq<Move>, k: nat)
    requires k < |moves| && moves[k].round >= 1
    ensures |TraceOf(choose, browser, moves)| == |moves|
    ensures Tells(choose, browser, moves[k], k, TraceOf(choose, browser, moves)[k])
    ensures TraceOf(choose, browser, moves)[k].stopReason == ""
  {
    TraceAt(choose, browser, moves, k);
    FailuresAreCounted(choose, browser, moves[k].round - 1);
  }

  lemma MarkedTells(choose: Chooser, browser: Browser, moves: seq<Move>, t: seq<TraceStep>, reason: string)
    requires |t| == |moves|
    requires forall k :: 0 <= k < |t| ==> Tells(choose, browser, moves[k], k, t[k]) && t[k].stopReason == ""
    ensures |Marked(t, reason)| == |moves|
    ensures forall k :: 0 <= k < |t| ==>
      && Tells(choose, browser, moves[k], k, Marked(t, reason)[k])
      && Marked(t, reason)[k].stopReason == if k == |t| - 1 then reason else ""
  {
  }

  /** The returned trace has one step for every executed action, in order, with its round, its success and the number
      of troubled rounds before it; the reason of the answer is on the last step alone. */
  lemma TraceTells(limits: Limits, choose: Chooser, browser: Browser, n: nat)
    requires LimitsOk(limits) && browser.first.Some? && EndsIn(limits, choose, browser, n)
    requires OutcomeAt(limits, choose, browser, n).Answered?
    ensures var out, moves := OutcomeAt(limits, choose, browser, n), Moves(choose, n);
      && |out.trace| == |moves|
      && (forall k :: 0 <= k < |moves| ==>
            && Tells(choose, browser, moves[k], k, out.trace[k])
            && out.trace[k].stopReason == if k == |moves| - 1 then out.stopReason else "")
  {
    var moves := Moves(choose, n);
    var t := TraceOf(choose, browser, moves);
    TraceLength(choose, browser, moves);
    forall k | 0 <= k < |moves| ensures Tells(choose, browser, moves[k], k, t[k]) && t[k].stopReason == "" {
      MoveIsChosen(choose, n, k);
      StepTells(choose, browser, moves, k);
    }
    MarkedTells(choose, browser, moves, t, OutcomeAt(limits, choose, browser, n).stopReason);
  }

  /** What a planner's answer makes of a round, in terms of the answer: an error fails it; a stop ends the loop with
      the trimmed reason, or planner_stop when that is blank; no action ends it as well; an action runs exactly when
      the sanitiser keeps it, as the sanitiser leaves it. */
  lemma ChoiceMeaning(d: Decision)
    ensures d == PlannerFailed ==> Sanctioned(d) == Fails
    ensures d.Stop? ==>
      Sanctioned(d) == Stops(if TrimSpace(d.reason) != "" then TrimSpace(d.reason) else "planner_stop")
    ensures d == NoAction ==> Sanctioned(d) == Stops("planner_no_action")
    ensures d.Next? ==>
      match Sanctioned(d)
      case Fails => Sanitized([d.action]) == []
      case Stops(_) => false
      case Runs(a, signature) => Sanitized([d.action]) == [a] && signature == Signature(a)
  {
    if d.Next? {
      SanitizedOfOne(d.action);
    }
  }
}
