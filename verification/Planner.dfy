/** The plan sanitiser and the static step planner of the node agent (cmd/node-agent/planner.go). */
module Planner {
  import opened Text
  import opened Wrappers
  import opened Sequences

  datatype Action = Action(kind: string, selector: string, text: string, timeoutMs: int, delayMs: int, pixels: int)

  const MaxActions: nat := 12
  const MaxText: nat := 320

  predicate NeedsSelector(kind: string) {
    || kind == "wait_for" || kind == "click" || kind == "type"
    || kind == "extract_text" || kind == "press_enter" || kind == "submit_search"
  }

  predicate Allowed(kind: string) {
    NeedsSelector(kind) || kind == "scroll" || kind == "wait" || kind == "wait_for_url_contains"
  }

  // ---------------------------------------------------------------- snippets

  /** White space trimmed and collapsed, then cut to `max` bytes and trimmed again; no cut when `max` is
      not positive. */
  function TrimSnippet(value: string, max: int): string {
    var normalized := Collapse(TrimSpace(value));
    if max <= 0 || |normalized| <= max then normalized else TrimSpace(normalized[..max])
  }

  lemma SnippetIsTidy(value: string, max: int)
    ensures Trimmed(TrimSnippet(value, max)) && Collapsed(TrimSnippet(value, max))
    ensures max > 0 ==> |TrimSnippet(value, max)| <= max
  {
    var normalized := Collapse(TrimSpace(value));
    TrimSpaceTrims(value);
    CollapseCollapses(TrimSpace(value));
    CollapseKeepsTrimmed(TrimSpace(value));
    if 0 < max < |normalized| {
      TrimSpaceTrims(normalized[..max]);
      CollapsedSlice(normalized, 0, max);
      TrimSpaceKeepsCollapsed(normalized[..max]);
    }
  }

  /** The strings a snippet leaves alone are exactly the tidy ones that fit. */
  lemma SnippetFixesIff(value: string, max: int)
    ensures TrimSnippet(value, max) == value <==>
            Trimmed(value) && Collapsed(value) && (max > 0 ==> |value| <= max)
  {
    SnippetIsTidy(value, max);
    if Trimmed(value) && Collapsed(value) {
      TrimmedIsFixed(value);
      CollapsedIsFixed(value);
    }
  }

  // ---------------------------------------------------------------- one action

  function Clamp(x: int, high: int): int
    requires 0 <= high
  {
    if x < 0 then 0 else if x > high then high else x
  }

  /** normalizeTraceAction. */
  function NormalizeTraceAction(a: Action): Action {
    a.(kind := ToLower(TrimSpace(a.kind)), selector := TrimSpace(a.selector), text := TrimSpace(a.text))
  }

  function JoinedFields(a: Action): string {
    a.kind + "|" + a.selector + "|" + a.text + "|"
    + ItoaInt(a.timeoutMs) + "|" + ItoaInt(a.delayMs) + "|" + ItoaInt(a.pixels)
  }

  /** plannerActionSignature. */
  function Signature(a: Action): string {
    JoinedFields(NormalizeTraceAction(a))
  }

  function Direction(text: string): string {
    var direction := ToLower(TrimSpace(text));
    if direction == "up" || direction == "down" then direction else "down"
  }

  function Normalised(a: Action): Action {
    Action(ToLower(TrimSpace(a.kind)), TrimSpace(a.selector), TrimSnippet(TrimSpace(a.text), MaxText),
           Clamp(a.timeoutMs, 60000), Clamp(a.delayMs, 15000), Clamp(a.pixels, 3000))
  }

  /** The fields an action of this kind cannot do without. */
  predicate Complete(a: Action) {
    && (NeedsSelector(a.kind) ==> a.selector != "")
    && (a.kind == "type" ==> a.text != "")
    && (a.kind == "wait_for_url_contains" ==> |a.text| >= 2)
  }

  /** What is kept of a normalised action, if anything. */
  function Checked(n: Action): Option<Action> {
    if !Allowed(n.kind) || !Complete(n) then None
    else if n.kind == "scroll" then Some(n.(text := Direction(n.text)))
    else Some(n)
  }

  /** What the sanitiser makes of one action, if anything. */
  function Clean(a: Action): Option<Action> {
    Checked(Normalised(a))
  }

  predicate Tidy(text: string) {
    Trimmed(text) && Collapsed(text) && |text| <= MaxText
  }

  predicate IsDirection(text: string) {
    text == "up" || text == "down"
  }

  predicate InRange(a: Action) {
    0 <= a.timeoutMs <= 60000 && 0 <= a.delayMs <= 15000 && 0 <= a.pixels <= 3000
  }

  /** The actions that may leave the sanitiser. */
  predicate IsClean(a: Action) {
    && Allowed(a.kind) && Complete(a) && InRange(a) && Trimmed(a.selector) && Tidy(a.text)
    && (a.kind == "scroll" ==> IsDirection(a.text))
  }

  predicate IsWord(word: string) {
    2 <= |word| <= 30 && forall i :: 0 <= i < |word| ==> 'a' <= word[i] <= 'z' || word[i] == '_'
  }

  lemma AllowedIsWord(kind: string)
    requires Allowed(kind) || IsDirection(kind)
    ensures IsWord(kind)
  {
    if NeedsSelector(kind) {
      SelectorKindIsWord(kind);
    }
  }

  lemma SelectorKindIsWord(kind: string)
    requires NeedsSelector(kind)
    ensures IsWord(kind)
  {
  }

  lemma WordIsFixed(word: string)
    requires IsWord(word)
    ensures Tidy(word) && ToLower(TrimSpace(word)) == word
  {
    WordIsPlain(word);
    PrintableEndsAreTrimmed(word);
    NoBlankIsCollapsed(word);
    TrimmedIsFixed(word);
    ToLowerOfPlain(word);
  }

  lemma WordIsPlain(word: string)
    requires IsWord(word)
    ensures PlainLower(word) && NoBlank(word)
  {
  }

  lemma DirectionIsTidy(text: string)
    ensures IsDirection(Direction(text)) && Tidy(Direction(text))
  {
    AllowedIsWord(Direction(text));
    WordIsFixed(Direction(text));
  }

  lemma DirectionIsFixed(text: string)
    requires IsDirection(text)
    ensures Direction(text) == text
  {
    AllowedIsWord(text);
    WordIsFixed(text);
  }

  lemma NormalisedIsTidy(a: Action)
    ensures Trimmed(Normalised(a).selector) && Tidy(Normalised(a).text)
  {
    TrimSpaceTrims(a.selector);
    SnippetIsTidy(TrimSpace(a.text), MaxText);
  }

  lemma CheckedIsClean(n: Action)
    requires InRange(n) && Trimmed(n.selector) && Tidy(n.text)
    ensures Checked(n).Some? ==> IsClean(Checked(n).value)
  {
    if n.kind == "scroll" {
      DirectionIsTidy(n.text);
      ScrollIsClean(n, Direction(n.text));
    }
  }

  lemma ScrollIsClean(n: Action, direction: string)
    requires n.kind == "scroll" && InRange(n) && Trimmed(n.selector) && IsDirection(direction) && Tidy(direction)
    ensures IsClean(n.(text := direction))
  {
  }

  /** Cleaning produces clean actions only. */
  lemma CleanIsClean(a: Action)
    ensures Clean(a).Some? ==> IsClean(Clean(a).value)
  {
    NormalisedIsTidy(a);
    CheckedIsClean(Normalised(a));
  }

  /** Normalising changes none of the fields. */
  predicate IsFixed(a: Action) {
    && ToLower(TrimSpace(a.kind)) == a.kind && TrimSpace(a.selector) == a.selector
    && TrimSpace(a.text) == a.text && TrimSnippet(a.text, MaxText) == a.text
  }

  lemma CleanFieldsAreFixed(a: Action)
    requires IsClean(a)
    ensures IsFixed(a)
  {
    KindIsFixed(a.kind);
    TrimmedIsFixed(a.selector);
    TidyIsFixed(a.text);
  }

  lemma KindIsFixed(kind: string)
    requires Allowed(kind)
    ensures ToLower(TrimSpace(kind)) == kind
  {
    AllowedIsWord(kind);
    WordIsFixed(kind);
  }

  lemma TidyIsFixed(text: string)
    requires Tidy(text)
    ensures TrimSpace(text) == text && TrimSnippet(text, MaxText) == text
  {
    TrimmedIsFixed(text);
    SnippetFixesIff(text, MaxText);
  }

  lemma NormalisedIsFixed(a: Action)
    requires IsFixed(a) && InRange(a)
    ensures Normalised(a) == a && NormalizeTraceAction(a) == a
  {
  }

  /** Clean actions are exactly the fixed points of cleaning; normalising them for the trace changes
      nothing either, so both ways to compute a signature agree on them. */
  lemma CleanFixesIff(a: Action)
    ensures Clean(a) == Some(a) <==> IsClean(a)
    ensures IsClean(a) ==> NormalizeTraceAction(a) == a && Signature(a) == JoinedFields(a)
  {
    CleanIsClean(a);
    if IsClean(a) {
      CleanFieldsAreFixed(a);
      NormalisedIsFixed(a);
      if a.kind == "scroll" {
        DirectionIsFixed(a.text);
      }
    }
  }

  // ---------------------------------------------------------------- the sanitiser

  /** Every action cleaned, in place. */
  function CleanAll(actions: seq<Action>): (r: seq<Option<Action>>)
    ensures |r| == |actions|
  {
    if actions == [] then [] else CleanAll(actions[..|actions| - 1]) + [Clean(actions[|actions| - 1])]
  }

  function Somes(found: seq<Option<Action>>): seq<Action> {
    if found == [] then []
    else
      var last := found[|found| - 1];
      Somes(found[..|found| - 1]) + if last.Some? then [last.value] else []
  }

  lemma {:induction false} CleanAllAt(actions: seq<Action>, i: nat)
    requires i < |actions|
    ensures CleanAll(actions)[i] == Clean(actions[i])
    decreases |actions|
  {
    if i < |actions| - 1 {
      CleanAllAt(actions[..|actions| - 1], i);
    }
  }

  function Signatures(actions: seq<Action>): (s: seq<string>)
    ensures |s| == |actions|
  {
    seq(|actions|, i requires 0 <= i < |actions| => JoinedFields(actions[i]))
  }

  /** Where a string occurs for the first time, in increasing order. */
  function FirstPlaces(s: seq<string>): (places: seq<nat>)
    ensures forall i :: 0 <= i < |places| ==> places[i] < |s|
  {
    if s == [] then []
    else
      var n := |s| - 1;
      FirstPlaces(s[..n]) + if s[n] in s[..n] then [] else [n]
  }

  /** `places` are the places of the first occurrences in `s`, in increasing order. */
  ghost predicate AreFirst(places: seq<nat>, s: seq<string>) {
    && (forall i, j :: 0 <= i < j < |places| ==> places[i] < places[j])
    && (forall k :: k in places <==> 0 <= k < |s| && s[k] !in s[..k])
  }

  lemma {:induction false} FirstPlacesAreFirst(s: seq<string>)
    ensures AreFirst(FirstPlaces(s), s)
  {
    if s != [] {
      var n := |s| - 1;
      FirstPlacesAreFirst(s[..n]);
      FirstAppend(FirstPlaces(s[..n]), s[..n], s[n]);
      assert s == s[..n] + [s[n]];
    }
  }

  lemma FirstAppend(places: seq<nat>, s: seq<string>, x: string)
    requires AreFirst(places, s)
    ensures AreFirst(places + if x in s then [] else [|s|], s + [x])
  {
    var longer := s + [x];
    forall k: nat | k <= |s| ensures longer[..k] == s[..k] {
    }
    forall i | 0 <= i < |places| ensures places[i] < |s| {
      assert places[i] in places;
    }
  }

  /** The first action of each signature, in order. */
  function Deduped(actions: seq<Action>): seq<Action> {
    var places := FirstPlaces(Signatures(actions));
    seq(|places|, i requires 0 <= i < |places| => actions[places[i]])
  }

  function Kept(found: seq<Option<Action>>): seq<Action> {
    var d := Deduped(Somes(found));
    if |d| <= MaxActions then d else d[..MaxActions]
  }

  /** The sanitised plan: clean every action, keep the first of each signature, keep the first twelve. */
  function Sanitized(actions: seq<Action>): seq<Action> {
    Kept(CleanAll(actions))
  }

  lemma SignaturesAppend(c: seq<Action>, a: Action)
    ensures Signatures(c + [a]) == Signatures(c) + [JoinedFields(a)]
  {
  }

  lemma DedupedAppend(c: seq<Action>, a: Action)
    ensures Deduped(c + [a]) == Deduped(c) + if JoinedFields(a) in Signatures(c) then [] else [a]
  {
    SignaturesAppend(c, a);
    var longer := Signatures(c + [a]);
    assert longer[..|c|] == Signatures(c);
  }

  /** What one more cleaned action changes: nothing when it was dropped or its signature is known. */
  lemma OneMore(found: seq<Option<Action>>, i: nat)
    requires i < |found|
    ensures var before, after := Somes(found[..i]), Somes(found[..i + 1]);
      if found[i].None? then after == before
      else
        var sig := JoinedFields(found[i].value);
        && Signatures(after) == Signatures(before) + [sig]
        && (sig in Signatures(before) ==> Deduped(after) == Deduped(before))
        && (sig !in Signatures(before) ==> Deduped(after) == Deduped(before) + [found[i].value])
  {
    assert found[..i + 1][..i] == found[..i];
    if found[i].Some? {
      SignaturesAppend(Somes(found[..i]), found[i].value);
      DedupedAppend(Somes(found[..i]), found[i].value);
    }
  }

  /** More input never changes what has been kept. */
  lemma {:induction false} DedupedGrows(found: seq<Option<Action>>, i: nat)
    requires i <= |found|
    ensures Deduped(Somes(found[..i])) <= Deduped(Somes(found))
    decreases |found| - i
  {
    if i == |found| {
      assert found[..i] == found;
    } else {
      DedupedGrows(found, i + 1);
      OneMore(found, i);
    }
  }

  method ClampFields(a: Action) returns (n: Action)
    ensures n == a.(timeoutMs := Clamp(a.timeoutMs, 60000), delayMs := Clamp(a.delayMs, 15000),
                    pixels := Clamp(a.pixels, 3000))
  {
    n := a;
    if n.timeoutMs < 0 { n := n.(timeoutMs := 0); }
    if n.timeoutMs > 60000 { n := n.(timeoutMs := 60000); }
    if n.delayMs < 0 { n := n.(delayMs := 0); }
    if n.delayMs > 15000 { n := n.(delayMs := 15000); }
    if n.pixels < 0 { n := n.(pixels := 0); }
    if n.pixels > 3000 { n := n.(pixels := 3000); }
  }

  method CheckFields(n: Action) returns (r: Option<Action>)
    requires Allowed(n.kind)
    ensures r == Checked(n)
  {
    if NeedsSelector(n.kind) {
      if n.selector == "" { return None; }
      if n.kind == "type" && n.text == "" { return None; }
    } else if n.kind == "wait_for_url_contains" {
      if |n.text| < 2 { return None; }
    } else if n.kind == "scroll" {
      return Some(n.(text := Direction(n.text)));
    }
    return Some(n);
  }

  /** One action of the loop: the fields are normalised and clamped one after the other, then checked. */
  method CleanAction(a: Action) returns (r: Option<Action>)
    ensures r == Clean(a)
  {
    var kind := ToLower(TrimSpace(a.kind));
    if !Allowed(kind) { return None; }
    var text := TrimSnippet(TrimSpace(a.text), MaxText);
    var n := ClampFields(Action(kind, TrimSpace(a.selector), text, a.timeoutMs, a.delayMs, a.pixels));
    r := CheckFields(n);
  }

  method CleanAt(actions: seq<Action>, i: nat) returns (r: Option<Action>)
    requires i < |actions|
    ensures r == CleanAll(actions)[i]
  {
    r := CleanAction(actions[i]);
    CleanAllAt(actions, i);
  }

  /** The state of the loop after `i` actions. */
  ghost predicate Passed(found: seq<Option<Action>>, i: nat, cleaned: seq<Action>, seen: set<string>)
    requires i <= |found|
  {
    && cleaned == Deduped(Somes(found[..i]))
    && seen == Elements(Signatures(Somes(found[..i])))
  }

  lemma PassedOneMore(found: seq<Option<Action>>, i: nat, cleaned: seq<Action>, seen: set<string>, signature: string)
    requires i < |found| && found[i].Some? && Passed(found, i, cleaned, seen)
    requires signature == JoinedFields(found[i].value)
    ensures if signature in seen then Passed(found, i + 1, cleaned, seen)
      else Passed(found, i + 1, cleaned + [found[i].value], seen + {signature})
  {
    OneMore(found, i);
    ghost var before := Signatures(Somes(found[..i]));
    ElementsAppend(before, signature);
  }

  /** The action is kept when its signature is new. */
  method Keep(ghost found: seq<Option<Action>>, ghost i: nat, cleaned: seq<Action>, seen: set<string>, a: Action)
    returns (cleaned': seq<Action>, seen': set<string>)
    requires i < |found| && found[i] == Some(a) && Passed(found, i, cleaned, seen)
    ensures Passed(found, i + 1, cleaned', seen') && |cleaned| <= |cleaned'| <= |cleaned| + 1
  {
    var signature := JoinedFields(a);
    PassedOneMore(found, i, cleaned, seen, signature);
    if signature in seen {
      return cleaned, seen;
    }
    return cleaned + [a], seen + {signature};
  }

  lemma Skipped(found: seq<Option<Action>>, i: nat, cleaned: seq<Action>, seen: set<string>)
    requires i < |found| && found[i].None? && Passed(found, i, cleaned, seen)
    ensures Passed(found, i + 1, cleaned, seen)
  {
    OneMore(found, i);
  }

  /** The loop may stop at the end or once it has twelve actions. */
  lemma Finished(found: seq<Option<Action>>, i: nat, cleaned: seq<Action>, seen: set<string>)
    requires i <= |found| && Passed(found, i, cleaned, seen) && |cleaned| <= MaxActions
    requires i == |found| || |cleaned| == MaxActions
    ensures cleaned == Kept(found)
  {
    DedupedGrows(found, i);
    assert found[..|found|] == found;
  }

  /** sanitizePlannedActions: one pass with a set of signatures seen, stopping at the twelfth action. */
  method SanitizePlannedActions(actions: seq<Action>) returns (cleaned: seq<Action>)
    ensures cleaned == Sanitized(actions)
  {
    cleaned := [];
    var seen: set<string> := {};
    ghost var found := CleanAll(actions);
    for i := 0 to |actions|
      invariant Passed(found, i, cleaned, seen) && |cleaned| < MaxActions
    {
      var normalized := CleanAt(actions, i);
      if normalized.None? {
        Skipped(found, i, cleaned, seen);
        continue;
      }
      cleaned, seen := Keep(found, i, cleaned, seen, normalized.value);
      if |cleaned| >= MaxActions {
        Finished(found, i + 1, cleaned, seen);
        return;
      }
    }
    Finished(found, |actions|, cleaned, seen);
  }

  // ---------------------------------------------------------------- what sanitising means

  ghost predicate Distinct(s: seq<string>) {
    forall i, j :: 0 <= i < j < |s| ==> s[i] != s[j]
  }

  lemma DedupedIsDistinct(c: seq<Action>)
    ensures Distinct(Signatures(Deduped(c))) && forall x :: x in Deduped(c) ==> x in c
  {
    var s, p := Signatures(c), FirstPlaces(Signatures(c));
    FirstPlacesAreFirst(s);
    assert AreFirst(p, s);
    forall i, j | 0 <= i < j < |p| ensures s[p[i]] != s[p[j]] {
      assert p[j] in p;
      assert s[p[i]] == s[..p[j]][p[i]];
    }
    DedupedSignatures(c);
  }

  lemma DedupedSignatures(c: seq<Action>)
    ensures var s, p := Signatures(c), FirstPlaces(Signatures(c));
      |Deduped(c)| == |p| && forall i :: 0 <= i < |p| ==> Signatures(Deduped(c))[i] == s[p[i]]
  {
  }

  lemma {:induction false} AllPlacesAreFirst(s: seq<string>)
    requires Distinct(s)
    ensures FirstPlaces(s) == seq(|s|, i => i)
  {
    if s != [] {
      AllPlacesAreFirst(s[..|s| - 1]);
    }
  }

  lemma DedupedKeepsDistinct(c: seq<Action>)
    requires Distinct(Signatures(c))
    ensures Deduped(c) == c
  {
    AllPlacesAreFirst(Signatures(c));
  }

  lemma {:induction false} SomesAreFound(found: seq<Option<Action>>)
    ensures forall x :: x in Somes(found) ==> Some(x) in found
  {
    if found != [] {
      SomesAreFound(found[..|found| - 1]);
    }
  }

  lemma {:induction false} SomesOfAll(found: seq<Option<Action>>, c: seq<Action>)
    requires |found| == |c| && forall i :: 0 <= i < |c| ==> found[i] == Some(c[i])
    ensures Somes(found) == c
  {
    if found != [] {
      SomesOfAll(found[..|found| - 1], c[..|c| - 1]);
    }
  }

  ghost predicate AllClean(actions: seq<Action>) {
    forall i :: 0 <= i < |actions| ==> IsClean(actions[i])
  }

  /** What is kept was found, at most twelve actions, no two with one signature. */
  lemma KeptIsFound(found: seq<Option<Action>>)
    ensures |Kept(found)| <= MaxActions && Distinct(Signatures(Kept(found)))
    ensures forall x :: x in Kept(found) ==> Some(x) in found
  {
    SomesAreFound(found);
    DedupedIsDistinct(Somes(found));
    var d := Deduped(Somes(found));
    forall i | 0 <= i < |Kept(found)| ensures Kept(found)[i] == d[i] && Signatures(Kept(found))[i] == Signatures(d)[i] {
    }
  }

  /** Every action that leaves the sanitiser is clean, there are at most twelve, and no two have the same
      signature. */
  lemma SanitizedIsClean(actions: seq<Action>)
    ensures var s := Sanitized(actions); AllClean(s) && Distinct(Signatures(s)) && |s| <= MaxActions
  {
    var found := CleanAll(actions);
    KeptIsFound(found);
    forall i | 0 <= i < |Kept(found)| ensures IsClean(Kept(found)[i]) {
      assert Kept(found)[i] in Kept(found);
      FoundIsClean(actions, Kept(found)[i]);
    }
  }

  lemma FoundIsClean(actions: seq<Action>, x: Action)
    requires Some(x) in CleanAll(actions)
    ensures IsClean(x)
  {
    var i :| 0 <= i < |actions| && CleanAll(actions)[i] == Some(x);
    CleanAllAt(actions, i);
    CleanIsClean(actions[i]);
  }

  lemma CleanAllFixes(actions: seq<Action>)
    requires AllClean(actions)
    ensures Somes(CleanAll(actions)) == actions
  {
    forall i | 0 <= i < |actions| ensures CleanAll(actions)[i] == Some(actions[i]) {
      CleanAllAt(actions, i);
      CleanFixesIff(actions[i]);
    }
    SomesOfAll(CleanAll(actions), actions);
  }

  /** The plans the sanitiser leaves alone are exactly those of at most twelve clean actions with distinct
      signatures. */
  lemma SanitizedFixesIff(actions: seq<Action>)
    ensures Sanitized(actions) == actions <==>
            AllClean(actions) && Distinct(Signatures(actions)) && |actions| <= MaxActions
  {
    SanitizedIsClean(actions);
    if AllClean(actions) && Distinct(Signatures(actions)) && |actions| <= MaxActions {
      CleanAllFixes(actions);
      DedupedKeepsDistinct(actions);
    }
  }

  /** Sanitising twice is sanitising once. */
  lemma SanitizedIsIdempotent(actions: seq<Action>)
    ensures Sanitized(Sanitized(actions)) == Sanitized(actions)
  {
    SanitizedIsClean(actions);
    SanitizedFixesIff(Sanitized(actions));
  }

  /** One action alone is either cleaned or dropped. */
  lemma SanitizedOfOne(a: Action)
    ensures Sanitized([a]) == if Clean(a).Some? then [Clean(a).value] else []
  {
    var found := CleanAll([a]);
    CleanAllAt([a], 0);
    assert found == [found[0]] && found[..0] == [] && Somes([]) == [];
    KeptOfOne(found);
  }

  lemma KeptOfOne(found: seq<Option<Action>>)
    requires |found| == 1
    ensures Kept(found) == if found[0].Some? then [found[0].value] else []
  {
    assert found[..0] == [];
    OneMore(found, 0);
    assert found[..1] == found;
  }

  /** `y` is `x` put between 0 and `high`. */
  predicate Bounded(x: int, high: int, y: int) {
    (x < 0 ==> y == 0) && (x > high ==> y == high) && (0 <= x <= high ==> y == x)
  }

  /** The text of an action as the sanitiser takes it: trimmed, white space collapsed, cut after 320 bytes. */
  function TextOf(a: Action): string {
    var whole := Collapse(TrimSpace(a.text));
    if |whole| <= 320 then whole else TrimSpace(whole[..320])
  }

  /** The action has a known type and the fields that type needs. */
  predicate Keeps(a: Action) {
    var kind, selector, text := ToLower(TrimSpace(a.kind)), TrimSpace(a.selector), TextOf(a);
    if kind == "type" then selector != "" && text != ""
    else if kind == "wait_for_url_contains" then |text| >= 2
    else if kind == "scroll" || kind == "wait" then true
    else
      && selector != ""
      && (kind == "wait_for" || kind == "click" || kind == "extract_text" || kind == "press_enter"
          || kind == "submit_search")
  }

  /** What the sanitiser makes of a kept action. */
  predicate Becomes(a: Action, c: Action) {
    && c.kind == ToLower(TrimSpace(a.kind)) && c.selector == TrimSpace(a.selector)
    && (c.kind != "scroll" ==> c.text == TextOf(a))
    && (c.kind == "scroll" ==> c.text == if ToLower(TrimSpace(TextOf(a))) == "up" then "up" else "down")
    && Bounded(a.timeoutMs, 60000, c.timeoutMs) && Bounded(a.delayMs, 15000, c.delayMs)
    && Bounded(a.pixels, 3000, c.pixels)
  }

  lemma SnippetIsText(a: Action)
    ensures TrimSnippet(TrimSpace(a.text), MaxText) == TextOf(a)
  {
    TrimSpaceTrims(a.text);
  }

  lemma KindIsKept(kind: string, selector: string, text: string, n: Action)
    requires n.kind == kind && n.selector == selector && n.text == text
    ensures Allowed(kind) && Complete(n) <==>
      if kind == "type" then selector != "" && text != ""
      else if kind == "wait_for_url_contains" then |text| >= 2
      else if kind == "scroll" || kind == "wait" then true
      else
        && selector != ""
        && (kind == "wait_for" || kind == "click" || kind == "extract_text" || kind == "press_enter"
            || kind == "submit_search")
  {
  }

  lemma DirectionOf(text: string)
    ensures Direction(text) == if ToLower(TrimSpace(text)) == "up" then "up" else "down"
  {
  }

  lemma ClampBounds(x: int, high: int)
    requires high >= 0
    ensures Bounded(x, high, Clamp(x, high))
  {
  }

  /** What sanitising does to any one action: it is dropped exactly when its type is unknown or a field its type needs
      is missing, and otherwise becomes exactly this. */
  lemma SanitizedActionMeaning(a: Action)
    ensures if Keeps(a) then |Sanitized([a])| == 1 && Becomes(a, Sanitized([a])[0]) else Sanitized([a]) == []
  {
    var n := Normalised(a);
    SanitizedOfOne(a);
    SnippetIsText(a);
    KindIsKept(n.kind, n.selector, n.text, n);
    DirectionOf(n.text);
    ClampBounds(a.timeoutMs, 60000);
    ClampBounds(a.delayMs, 15000);
    ClampBounds(a.pixels, 3000);
  }

  // ---------------------------------------------------------------- what sanitising does to a plan

  /** Where the actions that survive cleaning come from. */
  function Origins(found: seq<Option<Action>>): (o: seq<nat>)
    ensures forall i :: 0 <= i < |o| ==> o[i] < |found|
  {
    if found == [] then []
    else
      var n := |found| - 1;
      Origins(found[..n]) + if found[n].Some? then [n] else []
  }

  lemma {:induction false} OriginsAre(found: seq<Option<Action>>)
    ensures var o := Origins(found);
      && |o| == |Somes(found)|
      && (forall i :: 0 <= i < |o| ==> found[o[i]] == Some(Somes(found)[i]))
      && (forall i, j :: 0 <= i < j < |o| ==> o[i] < o[j])
      && (forall i :: 0 <= i < |found| && found[i].Some? ==> i in o)
  {
    if found != [] {
      OriginsAre(found[..|found| - 1]);
    }
  }

  /** The signatures of the actions that survive cleaning, in place. */
  function OptionalSignatures(found: seq<Option<Action>>): (s: seq<Option<string>>)
    ensures |s| == |found|
  {
    if found == [] then []
    else
      var last := found[|found| - 1];
      OptionalSignatures(found[..|found| - 1]) + [if last.Some? then Some(JoinedFields(last.value)) else None]
  }

  lemma {:induction false} OptionalSignatureAt(found: seq<Option<Action>>, i: nat)
    requires i < |found|
    ensures OptionalSignatures(found)[i] == if found[i].Some? then Some(JoinedFields(found[i].value)) else None
    decreases |found|
  {
    if i < |found| - 1 {
      OptionalSignatureAt(found[..|found| - 1], i);
    }
  }

  /** `places` are the places in the plan of the actions that are kept: each is the first of its signature, in order,
      and an action that survives cleaning but is not kept repeats a signature or comes after twelve others. */
  ghost predicate KeptAt(found: seq<Option<Action>>, kept: seq<Action>, places: seq<nat>) {
    var s := OptionalSignatures(found);
    && |places| == |kept| <= 12
    && (forall k :: 0 <= k < |kept| ==> places[k] < |found| && found[places[k]] == Some(kept[k]))
    && (forall j, k :: 0 <= j < k < |kept| ==> places[j] < places[k])
    && (forall k :: 0 <= k < |kept| ==> IsFirst(s, places[k]))
    && (forall i :: 0 <= i < |found| && IsFirst(s, i) ==>
          i in places || (|kept| == 12 && forall k :: 0 <= k < 12 ==> places[k] < i))
  }

  /** There is a signature at place `i`, and it does not occur before. */
  ghost predicate IsFirst(s: seq<Option<string>>, i: nat) {
    i < |s| && s[i].Some? && s[i] !in s[..i]
  }

  /** The signatures `t` stand at the places `o` of `s`. */
  ghost predicate StandsAt(s: seq<Option<string>>, o: seq<nat>, t: seq<string>) {
    && |o| == |t|
    && (forall i :: 0 <= i < |o| ==> o[i] < |s| && s[o[i]] == Some(t[i]))
    && (forall i, j :: 0 <= i < j < |o| ==> o[i] < o[j])
    && (forall i :: 0 <= i < |s| && s[i].Some? ==> i in o)
  }

  lemma FirstIff(s: seq<Option<string>>, o: seq<nat>, t: seq<string>, k: nat)
    requires StandsAt(s, o, t) && k < |o|
    ensures IsFirst(s, o[k]) <==> t[k] !in t[..k]
  {
    if t[k] in t[..k] {
      var i :| 0 <= i < k && t[..k][i] == t[k];
      assert s[..o[k]][o[i]] == s[o[k]];
    }
    if s[o[k]] in s[..o[k]] {
      var j :| 0 <= j < o[k] && s[j] == s[o[k]];
      var i :| 0 <= i < |o| && o[i] == j;
      assert t[..k][i] == t[k];
    }
  }

  lemma SignaturesStand(found: seq<Option<Action>>)
    ensures StandsAt(OptionalSignatures(found), Origins(found), Signatures(Somes(found)))
  {
    OriginsAre(found);
    var s, o := OptionalSignatures(found), Origins(found);
    forall i | 0 <= i < |found| ensures s[i].Some? <==> found[i].Some? {
      OptionalSignatureAt(found, i);
    }
    forall i | 0 <= i < |o| ensures s[o[i]] == Some(Signatures(Somes(found))[i]) {
      OptionalSignatureAt(found, o[i]);
    }
  }

  lemma FirstOfSomes(found: seq<Option<Action>>, k: nat)
    requires k < |Origins(found)|
    ensures |Signatures(Somes(found))| == |Origins(found)|
    ensures var t := Signatures(Somes(found));
      IsFirst(OptionalSignatures(found), Origins(found)[k]) <==> t[k] !in t[..k]
  {
    SignaturesStand(found);
    FirstIff(OptionalSignatures(found), Origins(found), Signatures(Somes(found)), k);
  }

  /** The places of the first action of each signature. */
  function FirstOrigins(found: seq<Option<Action>>): seq<nat> {
    var o, p := Origins(found), FirstPlaces(Signatures(Somes(found)));
    seq(|p|, k requires 0 <= k < |p| => if p[k] < |o| then o[p[k]] else 0)
  }

  lemma FirstOriginAt(found: seq<Option<Action>>, k: nat)
    requires k < |FirstPlaces(Signatures(Somes(found)))|
    ensures var p, all := FirstPlaces(Signatures(Somes(found))), FirstOrigins(found);
      && |all| == |p| == |Deduped(Somes(found))| && p[k] < |Origins(found)| && all[k] == Origins(found)[p[k]]
      && found[all[k]] == Some(Deduped(Somes(found))[k]) && IsFirst(OptionalSignatures(found), all[k])
  {
    var s := Signatures(Somes(found));
    OriginsAre(found);
    FirstPlacesAreFirst(s);
    assert FirstPlaces(s)[k] in FirstPlaces(s);
    FirstOfSomes(found, FirstPlaces(s)[k]);
  }

  lemma FirstIsPlaced(found: seq<Option<Action>>, i: nat)
    requires i < |found| && IsFirst(OptionalSignatures(found), i)
    ensures i in FirstOrigins(found)
  {
    var s, o := Signatures(Somes(found)), Origins(found);
    SignaturesStand(found);
    FirstPlacesAreFirst(s);
    var j :| 0 <= j < |o| && o[j] == i;
    FirstOfSomes(found, j);
    assert j in FirstPlaces(s);
    var k :| 0 <= k < |FirstPlaces(s)| && FirstPlaces(s)[k] == j;
    FirstOriginAt(found, k);
    assert FirstOrigins(found)[k] == i;
  }

  lemma FirstOriginsIncrease(found: seq<Option<Action>>, j: nat, k: nat)
    requires j < k < |FirstOrigins(found)|
    ensures FirstOrigins(found)[j] < FirstOrigins(found)[k]
  {
    OriginsAre(found);
    FirstPlacesAreFirst(Signatures(Somes(found)));
    FirstOriginAt(found, j);
    FirstOriginAt(found, k);
  }

  lemma KeptPlaces(found: seq<Option<Action>>) returns (places: seq<nat>)
    ensures KeptAt(found, Kept(found), places)
  {
    var all, kept := FirstOrigins(found), Kept(found);
    assert |all| == |Deduped(Somes(found))|;
    places := if |all| <= 12 then all else all[..12];
    forall k | 0 <= k < |kept|
      ensures places[k] < |found| && found[places[k]] == Some(kept[k]) && IsFirst(OptionalSignatures(found), places[k])
    {
      FirstOriginAt(found, k);
    }
    forall j, k | 0 <= j < k < |kept| ensures places[j] < places[k] {
      FirstOriginsIncrease(found, j, k);
    }
    forall i | 0 <= i < |found| && IsFirst(OptionalSignatures(found), i)
      ensures i in places || (|kept| == 12 && forall k :: 0 <= k < 12 ==> places[k] < i)
    {
      FirstIsPlaced(found, i);
      var k :| 0 <= k < |all| && all[k] == i;
      if k < |places| {
        assert places[k] == i;
      } else {
        forall j | 0 <= j < 12 ensures places[j] < i {
          FirstOriginsIncrease(found, j, k);
        }
      }
    }
  }

  ghost predicate IsKept(found: seq<Option<Action>>, kept: seq<Action>) {
    exists places :: KeptAt(found, kept, places)
  }

  lemma KeptIsKept(found: seq<Option<Action>>)
    ensures IsKept(found, Kept(found))
  {
    var places := KeptPlaces(found);
  }

  /** What sanitising makes of any plan: the actions it keeps, at most twelve, are the first of each signature in the
      order of the plan, each as it would be kept alone (`CandidateIsFound`); the others are dropped alone too, repeat
      a signature, or come after twelve. */
  lemma SanitizedMeaning(actions: seq<Action>)
    ensures IsKept(CleanAll(actions), Sanitized(actions))
  {
    KeptIsKept(CleanAll(actions));
  }

  /** What two actions have in common when they have one signature. */
  predicate SameSignature(x: Action, y: Action) {
    && x.kind == y.kind && x.timeoutMs == y.timeoutMs && x.delayMs == y.delayMs && x.pixels == y.pixels
    && x.selector + "|" + x.text == y.selector + "|" + y.text
  }

  lemma LastNumber(a: string, m: nat, b: string, n: nat)
    ensures a + "|" + ItoaInt(m) == b + "|" + ItoaInt(n) <==> a == b && m == n
  {
    if a + "|" + ItoaInt(m) == b + "|" + ItoaInt(n) {
      BarNumberInjective(a, m, b, n);
    }
  }

  lemma FirstPart(kind1: string, rest1: string, kind2: string, rest2: string)
    requires NoBar(kind1) && NoBar(kind2)
    ensures kind1 + "|" + rest1 == kind2 + "|" + rest2 <==> kind1 == kind2 && rest1 == rest2
  {
    if kind1 + "|" + rest1 == kind2 + "|" + rest2 {
      FirstBarInjective(kind1, rest1, kind2, rest2);
    }
  }

  lemma JoinedFieldsEqualIff(x: Action, y: Action)
    requires NoBar(x.kind) && NoBar(y.kind) && InRange(x) && InRange(y)
    ensures JoinedFields(x) == JoinedFields(y) <==> SameSignature(x, y)
  {
    var a, b := x.kind + "|" + x.selector + "|" + x.text, y.kind + "|" + y.selector + "|" + y.text;
    var c, d := a + "|" + ItoaInt(x.timeoutMs), b + "|" + ItoaInt(y.timeoutMs);
    var e, f := c + "|" + ItoaInt(x.delayMs), d + "|" + ItoaInt(y.delayMs);
    assert JoinedFields(x) == e + "|" + ItoaInt(x.pixels) && JoinedFields(y) == f + "|" + ItoaInt(y.pixels);
    LastNumber(e, x.pixels, f, y.pixels);
    LastNumber(c, x.delayMs, d, y.delayMs);
    LastNumber(a, x.timeoutMs, b, y.timeoutMs);
    assert a == x.kind + "|" + (x.selector + "|" + x.text) && b == y.kind + "|" + (y.selector + "|" + y.text);
    FirstPart(x.kind, x.selector + "|" + x.text, y.kind, y.selector + "|" + y.text);
  }

  lemma AllowedHasNoBar(kind: string)
    requires Allowed(kind)
    ensures NoBar(kind)
  {
    AllowedIsWord(kind);
  }

  /** When two clean actions have one signature: their types and numbers agree, and so do their selectors and
      texts joined by a bar. */
  lemma SignaturesEqualIff(x: Action, y: Action)
    requires IsClean(x) && IsClean(y)
    ensures Signature(x) == Signature(y) <==> SameSignature(x, y)
  {
    CleanFixesIff(x);
    CleanFixesIff(y);
    AllowedHasNoBar(x.kind);
    AllowedHasNoBar(y.kind);
    JoinedFieldsEqualIff(x, y);
  }

  lemma SameSignatureOfBarFree(x: Action, y: Action)
    requires NoBar(x.selector) && NoBar(y.selector)
    ensures SameSignature(x, y) <==> x == y
  {
    FirstPart(x.selector, x.text, y.selector, y.text);
  }

  /** Signatures determine clean actions whose selectors have no bar. */
  lemma SignatureDeterminesIfNoBar(x: Action, y: Action)
    requires IsClean(x) && IsClean(y) && NoBar(x.selector) && NoBar(y.selector)
    ensures Signature(x) == Signature(y) <==> x == y
  {
    SignaturesEqualIff(x, y);
    SameSignatureOfBarFree(x, y);
  }

  lemma PairSignatures(x: Action, y: Action)
    ensures Signatures([x, y]) == [JoinedFields(x), JoinedFields(y)]
    ensures Distinct(Signatures([x, y])) <==> JoinedFields(x) != JoinedFields(y)
  {
    var s := Signatures([x, y]);
    assert s[0] == JoinedFields(x) && s[1] == JoinedFields(y);
  }

  /** Two clean actions both survive exactly when their signatures differ: the sanitiser can drop an action
      that differs from all others, but only one whose selector and text join to the same string. */
  lemma PairSurvivesIff(x: Action, y: Action)
    requires IsClean(x) && IsClean(y)
    ensures Sanitized([x, y]) == [x, y] <==> !SameSignature(x, y)
    ensures Sanitized([x, y]) == [x] <==> SameSignature(x, y)
  {
    PairIsClean(x, y);
    SanitizedFixesIff([x, y]);
    PairSignatures(x, y);
    SignaturesEqualIff(x, y);
    CleanFixesIff(x);
    CleanFixesIff(y);
    if SameSignature(x, y) {
      LaterIsDropped(x, y);
    }
  }

  lemma LaterIsDropped(x: Action, y: Action)
    requires AllClean([x, y]) && JoinedFields(x) == JoinedFields(y)
    ensures Sanitized([x, y]) == [x]
  {
    CleanAllFixes([x, y]);
    PairSignatures(x, y);
    KeptOfTwins(CleanAll([x, y]), x, y, JoinedFields(x));
  }

  lemma KeptOfTwins(found: seq<Option<Action>>, x: Action, y: Action, signature: string)
    requires Somes(found) == [x, y] && Signatures([x, y]) == [signature, signature]
    ensures Kept(found) == [x]
  {
    FirstPlaceOfTwins(signature);
  }

  lemma FirstPlaceOfTwins(x: string)
    ensures FirstPlaces([x, x]) == [0]
  {
    assert [x, x][..1] == [x] && [x][..0] == [];
    assert FirstPlaces([x]) == FirstPlaces([]) + [0];
  }

  lemma PairIsClean(x: Action, y: Action)
    requires IsClean(x) && IsClean(y)
    ensures AllClean([x, y])
  {
    forall i | 0 <= i < 2 ensures IsClean([x, y][i]) {
      assert [x, y][i] == x || [x, y][i] == y;
    }
  }

  /** The condition is met: two different clean actions of one signature. */
  lemma SignaturesCollide()
    ensures var x, y := Action("click", "a|b", "c", 0, 0, 0), Action("click", "a", "b|c", 0, 0, 0);
      x != y && IsClean(x) && IsClean(y) && SameSignature(x, y) && Sanitized([x, y]) == [x]
  {
    var x, y := Action("click", "a|b", "c", 0, 0, 0), Action("click", "a", "b|c", 0, 0, 0);
    PlainIsTidy("a|b");
    PlainIsTidy("a");
    PlainIsTidy("b|c");
    PlainIsTidy("c");
    assert "a|b" + "|" + "c" == "a" + "|" + "b|c";
    PairSurvivesIff(x, y);
  }

  lemma PlainIsTidy(s: string)
    requires 1 <= |s| <= 3 && forall i :: 0 <= i < |s| ==> 'a' <= s[i] <= '|'
    ensures Tidy(s)
  {
    PrintableEndsAreTrimmed(s);
    NoBlankIsCollapsed(s);
  }

  // ---------------------------------------------------------------- the static step planner

  /** What a step planner answers: an error, a stop with its reason, an answer that names no action, or the
      next action. */
  datatype Decision = PlannerFailed | Stop(reason: string) | NoAction | Next(action: Action)

  /** The signatures of the prior actions, cleaned. */
  function UsedSignatures(found: seq<Option<Action>>): set<string> {
    if found == [] then {}
    else
      var last := found[|found| - 1];
      UsedSignatures(found[..|found| - 1]) + if last.Some? then {Signature(last.value)} else {}
  }

  function FirstUnused(plan: seq<Action>, used: set<string>): Decision {
    if plan == [] then Stop("plan_exhausted")
    else if Signature(plan[0]) in used then FirstUnused(plan[1..], used)
    else Next(plan[0])
  }

  /** The answer for a plan (none when planning failed) and the actions already run. */
  function Answer(plan: Option<seq<Action>>, prior: seq<Action>): Decision {
    if plan.None? then PlannerFailed else AnswerFrom(Sanitized(plan.value), prior)
  }

  function AnswerFrom(actions: seq<Action>, prior: seq<Action>): Decision {
    if actions == [] then Stop("no_actions")
    else if |prior| < |actions| then Next(actions[|prior|])
    else FirstUnused(actions, UsedSignatures(CleanAll(prior)))
  }

  method CollectUsed(prior: seq<Action>) returns (used: set<string>)
    ensures used == UsedSignatures(CleanAll(prior))
  {
    used := {};
    ghost var found := CleanAll(prior);
    for i := 0 to |prior|
      invariant used == UsedSignatures(found[..i])
    {
      used := AddUsed(prior, i, used);
    }
    assert found[..|prior|] == found;
  }

  /** The signature of one prior action, if it survives cleaning. */
  method AddUsed(prior: seq<Action>, i: nat, used: set<string>) returns (used': set<string>)
    requires i < |prior| && used == UsedSignatures(CleanAll(prior)[..i])
    ensures used' == UsedSignatures(CleanAll(prior)[..i + 1])
  {
    var candidate := SanitizePlannedActions([prior[i]]);
    CandidateIsFound(prior, i);
    UsedOneMore(CleanAll(prior), i);
    if candidate == [] {
      return used;
    }
    return used + {Signature(candidate[0])};
  }

  lemma UsedOneMore(found: seq<Option<Action>>, i: nat)
    requires i < |found|
    ensures UsedSignatures(found[..i + 1]) ==
      UsedSignatures(found[..i]) + if found[i].Some? then {Signature(found[i].value)} else {}
  {
    assert found[..i + 1][..i] == found[..i];
  }

  /** Every action of a plan is kept or dropped as it would be alone. */
  lemma CandidateIsFound(prior: seq<Action>, i: nat)
    requires i < |prior|
    ensures Sanitized([prior[i]]) == if CleanAll(prior)[i].Some? then [CleanAll(prior)[i].value] else []
  {
    SanitizedOfOne(prior[i]);
    CleanAllAt(prior, i);
  }

  lemma {:induction false} UsedAt(found: seq<Option<Action>>, i: nat)
    requires i < |found| && found[i].Some?
    ensures Signature(found[i].value) in UsedSignatures(found)
    decreases |found|
  {
    if i < |found| - 1 {
      UsedAt(found[..|found| - 1], i);
    }
  }

  method FindUnused(actions: seq<Action>, used: set<string>) returns (d: Decision)
    ensures d == FirstUnused(actions, used)
  {
    for i := 0 to |actions|
      invariant FirstUnused(actions, used) == FirstUnused(actions[i..], used)
    {
      var candidate := actions[i];
      assert actions[i..][1..] == actions[i + 1..];
      if Signature(candidate) !in used {
        return Next(candidate);
      }
    }
    return Stop("plan_exhausted");
  }

  /** staticStepPlanner.PlanStep for the plan the wrapped planner gave in this round. */
  method PlanStep(plan: Option<seq<Action>>, prior: seq<Action>) returns (d: Decision)
    ensures d == Answer(plan, prior)
  {
    if plan.None? { return PlannerFailed; }
    var actions := SanitizePlannedActions(plan.value);
    if actions == [] { return Stop("no_actions"); }
    if |prior| < |actions| { return Next(actions[|prior|]); }
    var used := CollectUsed(prior);
    d := FindUnused(actions, used);
  }

  lemma {:induction false} UsedComesFrom(found: seq<Option<Action>>, signature: string) returns (i: nat)
    requires signature in UsedSignatures(found)
    ensures i < |found| && found[i].Some? && Signature(found[i].value) == signature
  {
    i := |found| - 1;
    if found[i].None? || signature in UsedSignatures(found[..i]) {
      i := UsedComesFrom(found[..i], signature);
    }
  }

  /** The signatures in use are those of the prior actions the sanitiser keeps. */
  lemma UsedIff(found: seq<Option<Action>>, signature: string)
    ensures signature in UsedSignatures(found) <==>
      exists i :: 0 <= i < |found| && found[i].Some? && Signature(found[i].value) == signature
  {
    if signature in UsedSignatures(found) {
      var i := UsedComesFrom(found, signature);
    }
    forall i | 0 <= i < |found| && found[i].Some? ensures Signature(found[i].value) in UsedSignatures(found) {
      UsedAt(found, i);
    }
  }

  /** The fallback answers the first action of the plan whose signature has not been used, and stops exactly
      when all have been. */
  lemma {:induction false} FirstUnusedIsFirst(plan: seq<Action>, used: set<string>)
    ensures match FirstUnused(plan, used)
      case Next(a) => exists k :: 0 <= k < |plan| && plan[k] == a && Signature(a) !in used
                                  && forall i :: 0 <= i < k ==> Signature(plan[i]) in used
      case Stop(reason) => reason == "plan_exhausted" && forall i :: 0 <= i < |plan| ==> Signature(plan[i]) in used
      case _ => false
  {
    if plan != [] && Signature(plan[0]) in used {
      var rest := plan[1..];
      FirstUnusedIsFirst(rest, used);
      match FirstUnused(rest, used)
      case Next(a) =>
        var k :| 0 <= k < |rest| && rest[k] == a && Signature(a) !in used
                 && forall i :: 0 <= i < k ==> Signature(rest[i]) in used;
        assert plan[k + 1] == a;
        forall i | 0 <= i < k + 1 ensures Signature(plan[i]) in used {
          if i > 0 { assert plan[i] == rest[i - 1]; }
        }
      case Stop(reason) =>
        forall i | 0 <= i < |plan| ensures Signature(plan[i]) in used {
          if i > 0 { assert plan[i] == rest[i - 1]; }
        }
    }
  }

  /** The closed loop, one step: when the first n actions of the sanitised plan have run, the answer is the
      next one, and plan_exhausted exactly when all have run. */
  lemma ClosedLoopAnswer(plan: seq<Action>, n: nat)
    requires n <= |Sanitized(plan)|
    ensures var s := Sanitized(plan);
      Answer(Some(plan), s[..n]) ==
      if s == [] then Stop("no_actions") else if n < |s| then Next(s[n]) else Stop("plan_exhausted")
  {
    SanitizedIsClean(plan);
    ClosedLoopFrom(Sanitized(plan), n);
  }

  lemma ClosedLoopFrom(s: seq<Action>, n: nat)
    requires AllClean(s) && n <= |s|
    ensures AnswerFrom(s, s[..n]) ==
      if s == [] then Stop("no_actions") else if n < |s| then Next(s[n]) else Stop("plan_exhausted")
  {
    if s != [] && n == |s| {
      assert s[..n] == s;
      AllAreUsed(s);
      FirstUnusedIsFirst(s, UsedSignatures(CleanAll(s)));
    }
  }

  lemma AllAreUsed(s: seq<Action>)
    requires AllClean(s)
    ensures forall i :: 0 <= i < |s| ==> Signature(s[i]) in UsedSignatures(CleanAll(s))
  {
    forall i | 0 <= i < |s| ensures Signature(s[i]) in UsedSignatures(CleanAll(s)) {
      CleanAllAt(s, i);
      CleanFixesIff(s[i]);
      UsedAt(CleanAll(s), i);
    }
  }
}
