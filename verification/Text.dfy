/** Strings as the Go program handles them.

    A Go string is a sequence of bytes, so a Dafny `char` stands for ONE BYTE here. White space that
    Go's `strings.TrimSpace` removes includes characters whose UTF-8 encoding takes two or three bytes;
    the regular expression `\s` of the planner matches five single-byte characters only. */
module Text {

  /** The bytes are exactly the UTF-8 encoding of one Unicode white-space character. */
  predicate IsSpaceRune(s: string) {
    || (|s| == 1 && (9 <= s[0] as int <= 13 || s[0] == ' '))
    || (|s| == 2 && s[0] as int == 0xC2 && s[1] as int in {0x85, 0xA0})
    || (|s| == 3 && IsWideSpace(s[0] as int, s[1] as int, s[2] as int))
  }

  predicate IsWideSpace(a: int, b: int, c: int) {
    || (a == 0xE1 && b == 0x9A && c == 0x80)
    || (a == 0xE2 && b == 0x80 && (0x80 <= c <= 0x8A || c in {0xA8, 0xA9, 0xAF}))
    || (a == 0xE2 && b == 0x81 && c == 0x9F)
    || (a == 0xE3 && b == 0x80 && c == 0x80)
  }

  /** Number of bytes of the white-space character at the front of `s`, 0 when there is none; it has at
      least `k` bytes. */
  function LeadFrom(s: string, k: nat): (n: nat)
    ensures n <= |s|
    decreases 4 - k
  {
    if k > 3 || k > |s| then 0 else if IsSpaceRune(s[..k]) then k else LeadFrom(s, k + 1)
  }

  /** The same at the end of `s`. */
  function TrailFrom(s: string, k: nat): (n: nat)
    ensures n <= |s|
    decreases 4 - k
  {
    if k > 3 || k > |s| then 0 else if IsSpaceRune(s[|s| - k..]) then k else TrailFrom(s, k + 1)
  }

  function LeadSpace(s: string): nat {
    LeadFrom(s, 1)
  }

  function TrailSpace(s: string): nat {
    TrailFrom(s, 1)
  }

  predicate Trimmed(s: string) {
    LeadSpace(s) == 0 && TrailSpace(s) == 0
  }

  function TrimLeft(s: string): string
    decreases |s|
  {
    if LeadSpace(s) == 0 then s else TrimLeft(s[LeadSpace(s)..])
  }

  function TrimRight(s: string): string
    decreases |s|
  {
    if TrailSpace(s) == 0 then s else TrimRight(s[..|s| - TrailSpace(s)])
  }

  /** Go's `strings.TrimSpace`. */
  function TrimSpace(s: string): string {
    TrimRight(TrimLeft(s))
  }

  lemma {:induction false} TrimLeftIsSuffix(s: string)
    ensures |TrimLeft(s)| <= |s| && TrimLeft(s) == s[|s| - |TrimLeft(s)|..]
    ensures LeadSpace(TrimLeft(s)) == 0
    decreases |s|
  {
    if LeadSpace(s) != 0 {
      TrimLeftIsSuffix(s[LeadSpace(s)..]);
    }
  }

  lemma {:induction false} TrimRightIsPrefix(s: string)
    ensures |TrimRight(s)| <= |s| && TrimRight(s) == s[..|TrimRight(s)|]
    ensures TrailSpace(TrimRight(s)) == 0
    decreases |s|
  {
    if TrailSpace(s) != 0 {
      TrimRightIsPrefix(s[..|s| - TrailSpace(s)]);
    }
  }

  /** Trimming reaches a fixed point at once. */
  lemma TrimSpaceTrims(s: string)
    ensures Trimmed(TrimSpace(s)) && TrimSpace(TrimSpace(s)) == TrimSpace(s)
  {
    TrimLeftIsSuffix(s);
    TrimRightIsPrefix(TrimLeft(s));
    LeadSpaceOfPrefix(TrimLeft(s), TrimSpace(s));
  }

  lemma LeadSpaceOfPrefix(s: string, p: string)
    requires p <= s && LeadSpace(s) == 0
    ensures LeadSpace(p) == 0
  {
    if |p| >= 1 { assert p[..1] == s[..1]; }
    if |p| >= 2 { assert p[..2] == s[..2]; }
    if |p| >= 3 { assert p[..3] == s[..3]; }
  }

  lemma TrimmedIsFixed(s: string)
    requires Trimmed(s)
    ensures TrimSpace(s) == s
  {
  }

  /** A string whose first and last bytes are printable ASCII is trimmed. */
  lemma PrintableEndsAreTrimmed(s: string)
    requires s != "" && '!' <= s[0] <= '~' && '!' <= s[|s| - 1] <= '~'
    ensures Trimmed(s)
  {
    forall k | 1 <= k <= 3 && k <= |s| ensures !IsSpaceRune(s[..k]) && !IsSpaceRune(s[|s| - k..]) {
      assert s[..k][0] == s[0] && s[|s| - k..][k - 1] == s[|s| - 1];
      PrintableEndIsNoSpace(s[..k]);
      PrintableEndIsNoSpace(s[|s| - k..]);
    }
  }

  lemma PrintableEndIsNoSpace(r: string)
    requires r != "" && ('!' <= r[0] <= '~' || '!' <= r[|r| - 1] <= '~')
    ensures !IsSpaceRune(r)
  {
  }

  // ---------------------------------------------------------------- lower case

  /** Go's `strings.ToLower`, as far as a comparison with an ASCII word can see it: the ASCII letters,
      and the two other characters whose lower case is ASCII (U+212A to k, U+0130 to i). */
  function ToLower(s: string): string
    decreases |s|
  {
    if s == "" then ""
    else if |s| >= 3 && s[0] as int == 0xE2 && s[1] as int == 0x84 && s[2] as int == 0xAA then
      "k" + ToLower(s[3..])
    else if |s| >= 2 && s[0] as int == 0xC4 && s[1] as int == 0xB0 then
      "i" + ToLower(s[2..])
    else
      [if 'A' <= s[0] <= 'Z' then (s[0] as int + 32) as char else s[0]] + ToLower(s[1..])
  }

  predicate PlainLower(s: string) {
    forall i :: 0 <= i < |s| ==> s[i] as int < 0x80 && !('A' <= s[i] <= 'Z')
  }

  lemma {:induction false} ToLowerOfPlain(s: string)
    requires PlainLower(s)
    ensures ToLower(s) == s
    decreases |s|
  {
    if s != "" {
      ToLowerOfPlain(s[1..]);
    }
  }

  // ---------------------------------------------------------------- white-space collapse

  /** What `\s` matches. */
  predicate IsBlank(c: char) {
    c as int in {9, 10, 12, 13, 32}
  }

  /** Every maximal run of blanks becomes one space. */
  function Collapse(s: string): string {
    if s == "" then ""
    else if !IsBlank(s[0]) then [s[0]] + Collapse(s[1..])
    else if |s| > 1 && IsBlank(s[1]) then Collapse(s[1..])
    else " " + Collapse(s[1..])
  }

  predicate Collapsed(s: string) {
    forall i :: 0 <= i < |s| && IsBlank(s[i]) ==> s[i] == ' ' && (i + 1 < |s| ==> !IsBlank(s[i + 1]))
  }

  predicate NoBlank(s: string) {
    forall i :: 0 <= i < |s| ==> !IsBlank(s[i])
  }

  lemma NoBlankIsCollapsed(s: string)
    requires NoBlank(s)
    ensures Collapsed(s)
  {
  }

  lemma {:induction false} CollapseCollapses(s: string)
    ensures Collapsed(Collapse(s))
    ensures s != "" ==> Collapse(s) != "" && (IsBlank(Collapse(s)[0]) <==> IsBlank(s[0]))
  {
    if s != "" {
      CollapseCollapses(s[1..]);
    }
  }

  lemma {:induction false} CollapsedIsFixed(s: string)
    requires Collapsed(s)
    ensures Collapse(s) == s
  {
    if s != "" {
      var t := s[1..];
      forall i | 0 <= i < |t| && IsBlank(t[i])
        ensures t[i] == ' ' && (i + 1 < |t| ==> !IsBlank(t[i + 1]))
      {
        assert t[i] == s[i + 1];
      }
      CollapsedIsFixed(t);
      assert s == [s[0]] + t;
    }
  }

  /** Blank-free ends are copied byte for byte. */
  lemma {:induction false} CollapseKeepsHead(s: string, k: nat)
    requires k <= |Collapse(s)| && NoBlank(Collapse(s)[..k])
    ensures k <= |s| && s[..k] == Collapse(s)[..k]
    decreases |s|
  {
    if k > 0 {
      CollapseCollapses(s);
      assert Collapse(s)[..k][0] == Collapse(s)[0];
      var t := s[1..];
      assert Collapse(s) == [s[0]] + Collapse(t);
      assert Collapse(t)[..k - 1] == Collapse(s)[..k][1..];
      CollapseKeepsHead(t, k - 1);
      assert s[..k] == [s[0]] + t[..k - 1];
    }
  }

  lemma {:induction false} CollapseKeepsTail(s: string, k: nat)
    requires k <= |Collapse(s)| && NoBlank(Collapse(s)[|Collapse(s)| - k..])
    ensures k <= |s| && s[|s| - k..] == Collapse(s)[|Collapse(s)| - k..]
    decreases |s|
  {
    var c := Collapse(s);
    if k == |c| {
      assert c[|c| - k..] == c;
      CollapseNoBlank(s);
    } else {
      var d := Collapse(s[1..]);
      assert c == d || c == [c[0]] + d;
      assert c[|c| - k..] == d[|d| - k..];
      CollapseKeepsTail(s[1..], k);
      assert s[|s| - k..] == s[1..][|s| - 1 - k..];
    }
  }

  lemma {:induction false} CollapseNoBlank(s: string)
    requires NoBlank(Collapse(s))
    ensures Collapse(s) == s
  {
    if s != "" {
      CollapseCollapses(s);
      assert Collapse(s)[1..] == Collapse(s[1..]);
      CollapseNoBlank(s[1..]);
    }
  }

  lemma CollapseKeepsTrimmed(s: string)
    requires Trimmed(s)
    ensures Trimmed(Collapse(s))
  {
    CollapseKeepsLead(s);
    CollapseKeepsTrail(s);
  }

  lemma CollapseKeepsLead(s: string)
    requires LeadSpace(s) == 0
    ensures LeadSpace(Collapse(s)) == 0
  {
    var c := Collapse(s);
    var k := LeadSpace(c);
    if s != "" && 0 < k {
      CollapseCollapses(s);
      NoBlankAtLead(s);
      LeadIsSpaceRune(c);
      SpaceRuneHasNoBlank(c[..k], 0);
      CollapseKeepsHead(s, k);
      SpaceRuneAtFront(s, k);
    }
  }

  lemma CollapseKeepsTrail(s: string)
    requires TrailSpace(s) == 0
    ensures TrailSpace(Collapse(s)) == 0
  {
    var c := Collapse(s);
    var k := TrailSpace(c);
    if s != "" && 0 < k {
      CollapseLastBlank(s);
      NoBlankAtTrail(s);
      TrailIsSpaceRune(c);
      SpaceRuneHasNoBlank(c[|c| - k..], k - 1);
      CollapseKeepsTail(s, k);
      SpaceRuneAtEnd(s, k);
    }
  }

  lemma NoBlankAtLead(s: string)
    requires s != "" && LeadSpace(s) == 0
    ensures !IsBlank(s[0])
  {
    assert s[..1] == [s[0]];
  }

  lemma NoBlankAtTrail(s: string)
    requires s != "" && TrailSpace(s) == 0
    ensures !IsBlank(s[|s| - 1])
  {
    assert s[|s| - 1..] == [s[|s| - 1]];
  }

  lemma SpaceRuneHasNoBlank(r: string, i: nat)
    requires IsSpaceRune(r) && i < |r| && !IsBlank(r[i])
    ensures NoBlank(r)
  {
  }

  lemma {:induction false} CollapseLastBlank(s: string)
    requires s != ""
    ensures Collapse(s) != "" && (IsBlank(Collapse(s)[|Collapse(s)| - 1]) <==> IsBlank(s[|s| - 1]))
    decreases |s|
  {
    if |s| > 1 {
      CollapseLastBlank(s[1..]);
    } else {
      assert s[1..] == "";
    }
  }

  lemma LeadIsSpaceRune(s: string)
    requires LeadSpace(s) != 0
    ensures IsSpaceRune(s[..LeadSpace(s)])
  {
  }

  lemma TrailIsSpaceRune(s: string)
    requires TrailSpace(s) != 0
    ensures IsSpaceRune(s[|s| - TrailSpace(s)..])
  {
  }

  lemma SpaceRuneAtFront(s: string, k: nat)
    requires k <= |s|
    ensures 0 < k && IsSpaceRune(s[..k]) ==> LeadSpace(s) != 0
  {
  }

  lemma SpaceRuneAtEnd(s: string, k: nat)
    requires k <= |s|
    ensures 0 < k && IsSpaceRune(s[|s| - k..]) ==> TrailSpace(s) != 0
  {
  }

  lemma CollapsedSlice(s: string, i: nat, j: nat)
    requires Collapsed(s) && i <= j <= |s|
    ensures Collapsed(s[i..j])
  {
    var t := s[i..j];
    forall x | 0 <= x < |t| && IsBlank(t[x])
      ensures t[x] == ' ' && (x + 1 < |t| ==> !IsBlank(t[x + 1]))
    {
      assert t[x] == s[i + x];
      if x + 1 < |t| { assert t[x + 1] == s[i + x + 1]; }
    }
  }

  /** Trimming keeps a collapsed string collapsed and never lengthens it. */
  lemma TrimSpaceKeepsCollapsed(s: string)
    requires Collapsed(s)
    ensures Collapsed(TrimSpace(s)) && |TrimSpace(s)| <= |s|
  {
    var l := TrimLeft(s);
    TrimLeftIsSuffix(s);
    TrimRightIsPrefix(l);
    CollapsedSlice(s, |s| - |l|, |s|);
    CollapsedSlice(l, 0, |TrimRight(l)|);
  }

  // ---------------------------------------------------------------- decimal numbers

  function Digit(d: nat): char
    requires d < 10
  {
    (48 + d) as char
  }

  predicate IsDigit(c: char) {
    '0' <= c <= '9'
  }

  predicate AllDigits(s: string) {
    forall i :: 0 <= i < |s| ==> IsDigit(s[i])
  }

  /** Go's `%d` of a non-negative number. */
  function Itoa(n: nat): (s: string)
    ensures |s| >= 1 && AllDigits(s)
  {
    if n < 10 then [Digit(n)] else Itoa(n / 10) + [Digit(n % 10)]
  }

  function ItoaInt(n: int): string {
    if n < 0 then "-" + Itoa(-n) else Itoa(n)
  }

  /** The number a digit string denotes; leading zeros do not matter. */
  function Value(s: string): nat
    requires AllDigits(s)
  {
    if s == "" then 0 else Value(s[..|s| - 1]) * 10 + (s[|s| - 1] as int - 48)
  }

  lemma {:induction false} ValueOfItoa(n: nat)
    ensures Value(Itoa(n)) == n
  {
    if n >= 10 {
      ValueOfItoa(n / 10);
      assert Itoa(n)[..|Itoa(n)| - 1] == Itoa(n / 10);
    } else {
      assert Itoa(n)[..0] == "";
    }
  }

  /** Go's `%06d` of a non-negative number. */
  function Pad6(n: nat): (s: string)
    ensures |s| >= 6 && AllDigits(s)
  {
    var d := Itoa(n);
    if |d| >= 6 then d else seq(6 - |d|, _ => '0') + d
  }

  lemma ValueOfPad6(n: nat)
    ensures Value(Pad6(n)) == n
  {
    var d := Itoa(n);
    ValueOfItoa(n);
    if |d| < 6 {
      ValueOfZeros(seq(6 - |d|, _ => '0'), d);
    }
  }

  lemma {:induction false} ValueOfZeros(z: string, d: string)
    requires (forall i :: 0 <= i < |z| ==> z[i] == '0') && AllDigits(d)
    ensures AllDigits(z + d) && Value(z + d) == Value(d)
    decreases |d|, |z|
  {
    if d != "" {
      ValueOfZeros(z, d[..|d| - 1]);
      assert (z + d)[..|z + d| - 1] == z + d[..|d| - 1];
    } else if z != "" {
      ValueOfZeros(z[..|z| - 1], "");
      assert z + d == z && z[..|z| - 1] + "" == z[..|z| - 1];
    } else {
      assert z + d == "";
    }
  }

  /** `owner|number` determines both parts, even when the owner itself contains a bar: the digits end
      at the last bar. */
  lemma BarNumberInjective(o1: string, n1: nat, o2: string, n2: nat)
    requires o1 + "|" + Itoa(n1) == o2 + "|" + Itoa(n2)
    ensures o1 == o2 && n1 == n2
  {
    BarDigitsInjective(o1, Itoa(n1), o2, Itoa(n2));
    ValueOfItoa(n1);
    ValueOfItoa(n2);
  }

  lemma BarDigitsInjective(o1: string, d1: string, o2: string, d2: string)
    requires AllDigits(d1) && AllDigits(d2) && o1 + "|" + d1 == o2 + "|" + d2
    ensures o1 == o2 && d1 == d2
  {
    var w := o1 + "|" + d1;
    assert w[|o1|] == '|' && w[|o2|] == '|';
    assert forall i :: |o1| < i < |w| ==> w[i] == d1[i - |o1| - 1];
    assert forall i :: |o2| < i < |w| ==> w[i] == d2[i - |o2| - 1];
    assert |o1| == |o2|;
    assert o1 == w[..|o1|] && o2 == w[..|o2|];
    assert d1 == w[|o1| + 1..] && d2 == w[|o2| + 1..];
  }

  predicate NoBar(s: string) {
    '|' !in s
  }

  /** A part without a bar ends at the first bar. */
  lemma FirstBarInjective(a1: string, r1: string, a2: string, r2: string)
    requires NoBar(a1) && NoBar(a2) && a1 + "|" + r1 == a2 + "|" + r2
    ensures a1 == a2 && r1 == r2
  {
    var w := a1 + "|" + r1;
    assert w[|a1|] == '|' && w[|a2|] == '|';
    assert forall i :: 0 <= i < |a1| ==> w[i] == a1[i];
    assert forall i :: 0 <= i < |a2| ==> w[i] == a2[i];
    assert |a1| == |a2|;
    assert a1 == w[..|a1|] && a2 == w[..|a2|];
    assert r1 == w[|a1| + 1..] && r2 == w[|a2| + 1..];
  }

  // ---------------------------------------------------------------- what the string functions do

  function Flatten(parts: seq<string>): string {
    if parts == [] then "" else Flatten(parts[..|parts| - 1]) + parts[|parts| - 1]
  }

  lemma FlattenAppend(parts: seq<string>, part: string)
    ensures Flatten(parts + [part]) == Flatten(parts) + part
  {
    assert (parts + [part])[..|parts|] == parts;
  }

  lemma {:induction false} FlattenPrepend(part: string, parts: seq<string>)
    ensures Flatten([part] + parts) == part + Flatten(parts)
    decreases |parts|
  {
    if parts == [] {
      FlattenAppend([], part);
      assert [part] + parts == [] + [part];
    } else {
      var shorter, last := parts[..|parts| - 1], parts[|parts| - 1];
      FlattenPrepend(part, shorter);
      FlattenAppend([part] + shorter, last);
      assert [part] + parts == ([part] + shorter) + [last];
    }
  }

  /** Every part is one white-space character. */
  predicate SpaceRunes(parts: seq<string>) {
    forall i :: 0 <= i < |parts| ==> IsSpaceRune(parts[i])
  }

  lemma SpaceRunesAppend(parts: seq<string>, part: string)
    requires SpaceRunes(parts) && IsSpaceRune(part)
    ensures SpaceRunes(parts + [part]) && SpaceRunes([part] + parts)
  {
  }

  lemma LeadFromIsSpace(s: string, k: nat)
    requires 1 <= k && LeadFrom(s, k) != 0
    ensures k <= LeadFrom(s, k) <= 3 && IsSpaceRune(s[..LeadFrom(s, k)])
    decreases 4 - k
  {
    if !IsSpaceRune(s[..k]) {
      LeadFromIsSpace(s, k + 1);
    }
  }

  lemma TrailFromIsSpace(s: string, k: nat)
    requires 1 <= k && TrailFrom(s, k) != 0
    ensures k <= TrailFrom(s, k) <= 3 && IsSpaceRune(s[|s| - TrailFrom(s, k)..])
    decreases 4 - k
  {
    if !IsSpaceRune(s[|s| - k..]) {
      TrailFromIsSpace(s, k + 1);
    }
  }

  /** One step of trimming on the left. */
  lemma FirstRune(s: string) returns (first: string, back: string)
    requires LeadSpace(s) != 0
    ensures s == first + back && IsSpaceRune(first) && |back| < |s| && TrimLeft(s) == TrimLeft(back)
  {
    LeadFromIsSpace(s, 1);
    first, back := s[..LeadSpace(s)], s[LeadSpace(s)..];
  }

  /** One step of trimming on the right. */
  lemma LastRune(s: string) returns (front: string, last: string)
    requires TrailSpace(s) != 0
    ensures s == front + last && IsSpaceRune(last) && |front| < |s| && TrimRight(s) == TrimRight(front)
  {
    TrailFromIsSpace(s, 1);
    front, last := s[..|s| - TrailSpace(s)], s[|s| - TrailSpace(s)..];
  }

  lemma {:induction false} TrimLeftRemovesSpace(s: string) returns (parts: seq<string>)
    ensures SpaceRunes(parts) && s == Flatten(parts) + TrimLeft(s)
    decreases |s|
  {
    parts := [];
    if LeadSpace(s) != 0 {
      var first, back := FirstRune(s);
      var rest := TrimLeftRemovesSpace(back);
      FlattenPrepend(first, rest);
      SpaceRunesAppend(rest, first);
      parts := [first] + rest;
      JoinStarts(s, first, back, Flatten(rest), TrimLeft(back));
    }
  }

  lemma JoinStarts(s: string, first: string, back: string, spaces: string, kept: string)
    requires s == first + back && back == spaces + kept
    ensures s == (first + spaces) + kept
  {
  }

  lemma JoinEnds(s: string, front: string, kept: string, spaces: string, last: string)
    requires s == front + last && front == kept + spaces
    ensures s == kept + (spaces + last)
  {
  }

  lemma {:induction false} TrimRightRemovesSpace(s: string) returns (parts: seq<string>)
    ensures SpaceRunes(parts) && s == TrimRight(s) + Flatten(parts)
    decreases |s|
  {
    parts := [];
    if TrailSpace(s) != 0 {
      var front, last := LastRune(s);
      var rest := TrimRightRemovesSpace(front);
      parts := rest + [last];
      SpaceRunesAppend(rest, last);
      FlattenAppend(rest, last);
      JoinEnds(s, front, TrimRight(front), Flatten(rest), last);
    }
  }

  /** Trimming removes white space at both ends, nothing else, and all of it. */
  lemma TrimSpaceRemovesSpace(s: string) returns (before: seq<string>, after: seq<string>)
    ensures SpaceRunes(before) && SpaceRunes(after)
    ensures s == Flatten(before) + TrimSpace(s) + Flatten(after) && Trimmed(TrimSpace(s))
  {
    before := TrimLeftRemovesSpace(s);
    after := TrimRightRemovesSpace(TrimLeft(s));
    TrimSpaceTrims(s);
  }

  /** On ASCII, lower-casing changes the capital letters alone, each to the letter 32 further. */
  lemma {:induction false} ToLowerOfAscii(s: string)
    requires forall i :: 0 <= i < |s| ==> s[i] as int < 0x80
    ensures |ToLower(s)| == |s|
    ensures forall i :: 0 <= i < |s| ==>
      ToLower(s)[i] == if 'A' <= s[i] <= 'Z' then (s[i] as int + 32) as char else s[i]
    decreases |s|
  {
    if s != "" {
      ToLowerOfAscii(s[1..]);
    }
  }

  /** A run of blanks collapses to one space. */
  lemma {:induction false} CollapseOfBlanks(s: string)
    requires s != "" && forall i :: 0 <= i < |s| ==> IsBlank(s[i])
    ensures Collapse(s) == " "
  {
    if |s| > 1 {
      CollapseOfBlanks(s[1..]);
    } else {
      assert s[1..] == "";
    }
  }

  /** Parts that do not meet in a run of blanks collapse independently. */
  lemma {:induction false} CollapseOfParts(a: string, b: string)
    requires a != "" && b != "" ==> !(IsBlank(a[|a| - 1]) && IsBlank(b[0]))
    ensures Collapse(a + b) == Collapse(a) + Collapse(b)
    decreases |a|
  {
    if a == "" {
      assert a + b == b;
    } else {
      CollapseOfParts(a[1..], b);
      assert (a + b)[1..] == a[1..] + b;
    }
  }

  /** The blanks of the regular expression: tab, line feed, form feed, carriage return and space. */
  lemma BlankIff(c: char)
    ensures IsBlank(c) <==> c == '\t' || c == '\n' || c as int == 12 || c == '\r' || c == ' '
  {
  }

  /** The UTF-8 encoding of a character below U+10000. */
  function Utf8(c: nat): string
    requires c < 0x10000
  {
    if c < 0x80 then [c as char]
    else if c < 0x800 then [(0xC0 + c / 64) as char, (0x80 + c % 64) as char]
    else [(0xE0 + c / 4096) as char, (0x80 + c / 64 % 64) as char, (0x80 + c % 64) as char]
  }

  /** Unicode's White_Space. */
  predicate IsWhite(c: nat) {
    9 <= c <= 13 || c in {0x20, 0x85, 0xA0, 0x1680, 0x2028, 0x2029, 0x202F, 0x205F, 0x3000} || 0x2000 <= c <= 0x200A
  }

  lemma WhiteIsSpaceRune(c: nat)
    requires IsWhite(c)
    ensures c < 0x10000 && IsSpaceRune(Utf8(c))
  {
  }

  lemma SpaceRuneIsWhite(s: string) returns (c: nat)
    requires IsSpaceRune(s)
    ensures IsWhite(c) && c < 0x10000 && Utf8(c) == s
  {
    c := if |s| == 1 then s[0] as int
      else if |s| == 2 then s[1] as int
      else if s[0] as int == 0xE1 then 0x1680
      else if s[0] as int == 0xE3 then 0x3000
      else if s[1] as int == 0x80 then 0x2000 + (s[2] as int - 0x80)
      else 0x205F;
  }

  /** A white-space character is the encoding of one of Unicode's. */
  lemma SpaceRuneIff(s: string)
    ensures IsSpaceRune(s) <==> exists c: nat :: c < 0x10000 && IsWhite(c) && Utf8(c) == s
  {
    if IsSpaceRune(s) {
      var c := SpaceRuneIsWhite(s);
    }
    forall c: nat | c < 0x10000 && IsWhite(c) && Utf8(c) == s ensures IsSpaceRune(s) {
      WhiteIsSpaceRune(c);
    }
  }
}
