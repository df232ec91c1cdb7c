/**
 The wildcard matcher of the include and exclude patterns: `?` stands for one byte, `*` for any number of
 bytes. The program backtracks only to the last `*` it has seen.

 It decides the glob relation for every text without a `*` and every pattern without two `*` in a row, and
 both restrictions are needed: every pattern that breaks the one, and every text that breaks the other, is
 matched wrongly against something. File names, being file names, contain no zero byte.
 */
module Wildcard {

  /** What it means for a text to match a pattern. */
  predicate Glob(text: string, pattern: string)
    decreases |text| + |pattern|
  {
    if pattern == "" then text == ""
    else if pattern[0] == '*' then Glob(text, pattern[1..]) || (text != "" && Glob(text[1..], pattern))
    else text != "" && (pattern[0] == '?' || pattern[0] == text[0]) && Glob(text[1..], pattern[1..])
  }

  predicate IsPlain(text: string) {
    '*' !in text
  }

  predicate HasDoubleStar(pattern: string) {
    exists i :: 0 <= i < |pattern| - 1 && pattern[i] == '*' && pattern[i + 1] == '*'
  }

  predicate IsFileName(text: string) {
    '\0' !in text
  }

  // ---------- the relation on suffixes ----------

  /** The text from `t` on matches the pattern from `p` on. */
  ghost predicate From(text: string, pattern: string, t: nat, p: nat)
    requires t <= |text| && p <= |pattern|
  {
    Glob(text[t..], pattern[p..])
  }

  ghost predicate Fits(text: string, pattern: string, t: nat, p: nat)
    requires t < |text| && p < |pattern|
  {
    pattern[p] == '?' || pattern[p] == text[t]
  }

  lemma Unfold(text: string, pattern: string, t: nat, p: nat)
    requires t <= |text| && p <= |pattern|
    ensures p == |pattern| ==> (From(text, pattern, t, p) <==> t == |text|)
    ensures p < |pattern| && pattern[p] == '*' ==>
      (From(text, pattern, t, p) <==> From(text, pattern, t, p + 1) || (t < |text| && From(text, pattern, t + 1, p)))
    ensures p < |pattern| && pattern[p] != '*' ==>
      (From(text, pattern, t, p) <==> t < |text| && Fits(text, pattern, t, p) && From(text, pattern, t + 1, p + 1))
  {
    if p < |pattern| {
      assert pattern[p..][1..] == pattern[p + 1..];
      if t < |text| {
        assert text[t..][1..] == text[t + 1..];
      }
    }
  }

  /** What a `*` can skip it can skip from further back. */
  lemma {:induction false} StarReaches(text: string, pattern: string, t: nat, k: nat, p: nat)
    requires t <= k <= |text| && p < |pattern| && pattern[p] == '*' && From(text, pattern, k, p)
    ensures From(text, pattern, t, p)
    decreases k - t
  {
    if t < k {
      StarReaches(text, pattern, t + 1, k, p);
      Unfold(text, pattern, t, p);
    }
  }

  lemma {:induction false} StarSkips(text: string, pattern: string, t: nat, p: nat) returns (k: nat)
    requires t <= |text| && p < |pattern| && pattern[p] == '*' && From(text, pattern, t, p)
    ensures t <= k <= |text| && From(text, pattern, k, p + 1)
    decreases |text| - t
  {
    Unfold(text, pattern, t, p);
    if From(text, pattern, t, p + 1) {
      k := t;
    } else {
      k := StarSkips(text, pattern, t + 1, p);
    }
  }

  /** A stretch of the pattern without `*` consumes one byte of the text per byte. */
  lemma {:induction false} Consumes(text: string, pattern: string, k: nat, s: nat, p: nat)
    requires k <= |text| && s <= p <= |pattern| && (forall i :: s <= i < p ==> pattern[i] != '*')
    requires From(text, pattern, k, s)
    ensures k + (p - s) <= |text| && From(text, pattern, k + (p - s), p)
    decreases p - s
  {
    if s < p {
      Unfold(text, pattern, k, s);
      Consumes(text, pattern, k + 1, s + 1, p);
    }
  }

  // ---------- the state of the loop ----------

  /** Some way of matching the text exists exactly when one exists that the loop still considers. `m` is
      where the text matched behind the last `*`, which is just before `s`; zero means there was none. */
  ghost predicate Tracks(text: string, pattern: string, t: nat, p: nat, s: nat, m: nat)
    requires t <= |text| && s <= |pattern| && m <= |text|
  {
    && p <= |pattern|
    && (t == |text| || s == 0 ==> (Glob(text, pattern) <==> From(text, pattern, t, p)))
    && (t < |text| && s > 0 ==>
          && m <= t && s <= p && p - s == t - m && pattern[s - 1] == '*'
          && (forall i :: s <= i < p ==> pattern[i] != '*')
          && (Glob(text, pattern) <==> From(text, pattern, m, s - 1))
          && (From(text, pattern, m, s) <==> From(text, pattern, t, p)))
  }

  /** The last byte of the text has been matched: starting later behind the last `*` would leave too little text. */
  lemma EndReached(text: string, pattern: string, p: nat, s: nat, m: nat)
    requires 0 < s < p <= |pattern| && m < |text| && p - s == |text| - m
    requires pattern[s - 1] == '*' && (forall i :: s <= i < p ==> pattern[i] != '*')
    requires Glob(text, pattern) <==> From(text, pattern, m, s - 1)
    requires From(text, pattern, m, s) <==> From(text, pattern, |text|, p)
    ensures Glob(text, pattern) <==> From(text, pattern, |text|, p)
  {
    Unfold(text, pattern, m, s - 1);
    if From(text, pattern, m + 1, s - 1) {
      var k := StarSkips(text, pattern, m + 1, s - 1);
      Consumes(text, pattern, k, s, p);
    }
  }

  lemma StepKeepsTracks(text: string, pattern: string, t: nat, p: nat, s: nat, m: nat)
    requires t < |text| && p < |pattern| && s <= |pattern| && m <= |text|
    requires Tracks(text, pattern, t, p, s, m) && pattern[p] != '*' && Fits(text, pattern, t, p)
    ensures Tracks(text, pattern, t + 1, p + 1, s, m)
  {
    Unfold(text, pattern, t, p);
    if s > 0 && t + 1 == |text| {
      EndReached(text, pattern, p + 1, s, m);
    }
  }

  /** A new `*` makes the previous one irrelevant. */
  lemma NewStar(text: string, pattern: string, t: nat, p: nat, s: nat, m: nat)
    requires t < |text| && p < |pattern| && s <= |pattern| && m <= |text|
    requires Tracks(text, pattern, t, p, s, m) && pattern[p] == '*'
    ensures Glob(text, pattern) <==> From(text, pattern, t, p)
  {
    if s > 0 {
      Unfold(text, pattern, m, s - 1);
      if From(text, pattern, m, s - 1) {
        var k := StarSkips(text, pattern, m, s - 1);
        Consumes(text, pattern, k, s, p);
        StarReaches(text, pattern, t, k + (p - s), p);
      }
    }
  }

  /** On a mismatch the text behind the last `*` has to start at least one byte later. */
  lemma Backtrack(text: string, pattern: string, t: nat, p: nat, s: nat, m: nat)
    requires t < |text| && 0 < s <= |pattern| && m <= |text|
    requires Tracks(text, pattern, t, p, s, m)
    requires p == |pattern| || (pattern[p] != '*' && !Fits(text, pattern, t, p))
    ensures Glob(text, pattern) <==> From(text, pattern, m + 1, s - 1)
  {
    Unfold(text, pattern, t, p);
    Unfold(text, pattern, m, s - 1);
  }

  /** Behind the `*` just before `p` the text matches again at `t`. */
  lemma Resumed(text: string, pattern: string, p: nat, t: nat)
    requires 0 < p < |pattern| && t < |text| && pattern[p - 1] == '*' && pattern[p] != '*' && Fits(text, pattern, t, p)
    requires Glob(text, pattern) <==> From(text, pattern, t, p - 1)
    ensures Tracks(text, pattern, t + 1, p + 1, p, t)
  {
    Unfold(text, pattern, t, p);
    if t + 1 == |text| {
      EndReached(text, pattern, p + 1, p, t);
    }
  }

  // ---------- the loop as a function ----------

  /** The first byte at or after `t` that fits the byte `c` of the pattern. */
  function ScanFor(text: string, c: char, t: nat): (t': nat)
    requires t <= |text|
    ensures t <= t' <= |text|
    decreases |text| - t
  {
    if t < |text| && text[t] != c && c != '?' then ScanFor(text, c, t + 1) else t
  }

  /** What the loop returns from the state `t`, `p`, `s` (behind the last `*`) and `m` (where the text matched
      behind it). */
  predicate Run(text: string, pattern: string, t: nat, p: nat, s: nat, m: nat)
    requires t <= |text| && s <= p && (s > 0 ==> s < |pattern|) && (s > 0 ==> m < |text|)
    decreases |pattern| - s, |text| - (if s > 0 then m else 0), |text| - t, |pattern| - p
  {
    if t == |text| then
      p >= |pattern| || (pattern[p] == '*' && Run(text, pattern, t, p + 1, s, m))
    else
      var w := if p < |pattern| then pattern[p] else '\0';
      if text[t] == w || w == '?' then Run(text, pattern, t + 1, p + 1, s, m)
      else if w == '*' then p + 1 == |pattern| || Restart(text, pattern, t, p + 1, s, m)
      else s > 0 && Restart(text, pattern, m + 1, s, s, m)
  }

  /** Looks for the text to match again, from `t` on, behind the `*` just before `s'`. */
  predicate Restart(text: string, pattern: string, t: nat, s': nat, s: nat, m: nat)
    requires t <= |text| && 0 < s' < |pattern| && s <= s' && (s' == s ==> m < t)
    decreases |pattern| - s, |text| - (if s > 0 then m else 0), 0, 0
  {
    var t' := ScanFor(text, pattern[s'], t);
    t' < |text| && Run(text, pattern, t' + 1, s' + 1, s', t')
  }

  ghost predicate Supported(text: string, pattern: string) {
    IsFileName(text) && IsPlain(text) && !HasDoubleStar(pattern)
  }

  /** Everything skipped behind a `*` could not have started a match. */
  lemma {:induction false} ScanKeepsGlob(text: string, pattern: string, t: nat, p: nat)
    requires t <= |text| && 0 < p < |pattern| && pattern[p - 1] == '*' && pattern[p] != '*'
    ensures var t' := ScanFor(text, pattern[p], t);
      && (t' == |text| ==> !From(text, pattern, t, p - 1))
      && (t' < |text| ==> Fits(text, pattern, t', p) && (From(text, pattern, t, p - 1) <==> From(text, pattern, t', p - 1)))
    decreases |text| - t
  {
    Unfold(text, pattern, t, p - 1);
    Unfold(text, pattern, t, p);
    if t < |text| && text[t] != pattern[p] && pattern[p] != '?' {
      ScanKeepsGlob(text, pattern, t + 1, p);
    }
  }

  lemma NoStarAfterStar(pattern: string, p: nat)
    requires !HasDoubleStar(pattern) && 0 < p < |pattern| && pattern[p - 1] == '*'
    ensures pattern[p] != '*'
  {
  }

  lemma {:induction false} RestartIsGlob(text: string, pattern: string, t: nat, s': nat, s: nat, m: nat)
    requires Supported(text, pattern) && t <= |text| && 0 < s' < |pattern| && s <= s' && (s' == s ==> m < t)
    requires pattern[s' - 1] == '*' && (Glob(text, pattern) <==> From(text, pattern, t, s' - 1))
    ensures Restart(text, pattern, t, s', s, m) <==> Glob(text, pattern)
    decreases |pattern| - s, |text| - (if s > 0 then m else 0), 0, 0
  {
    NoStarAfterStar(pattern, s');
    ScanKeepsGlob(text, pattern, t, s');
    var t' := ScanFor(text, pattern[s'], t);
    if t' < |text| {
      Resumed(text, pattern, s', t');
      RunIsGlob(text, pattern, t' + 1, s' + 1, s', t');
    }
  }

  /** From every state that tracks the possible matches, the loop returns whether the text matches. */
  lemma {:induction false} RunIsGlob(text: string, pattern: string, t: nat, p: nat, s: nat, m: nat)
    requires Supported(text, pattern)
    requires t <= |text| && s <= p && (s > 0 ==> s < |pattern| && m < |text|) && m <= |text| && s <= |pattern|
    requires Tracks(text, pattern, t, p, s, m)
    ensures Run(text, pattern, t, p, s, m) <==> Glob(text, pattern)
    decreases |pattern| - s, |text| - (if s > 0 then m else 0), |text| - t, |pattern| - p
  {
    Unfold(text, pattern, t, p);
    if t == |text| {
      if p < |pattern| && pattern[p] == '*' {
        RunIsGlob(text, pattern, t, p + 1, s, m);
      }
    } else if p < |pattern| && (text[t] == pattern[p] || pattern[p] == '?') {
      StepKeepsTracks(text, pattern, t, p, s, m);
      RunIsGlob(text, pattern, t + 1, p + 1, s, m);
    } else if p < |pattern| && pattern[p] == '*' {
      NewStar(text, pattern, t, p, s, m);
      if p + 1 == |pattern| {
        Unfold(text, pattern, |text|, p);
        Unfold(text, pattern, |text|, p + 1);
        StarReaches(text, pattern, t, |text|, p);
      } else {
        RestartIsGlob(text, pattern, t, p + 1, s, m);
      }
    } else if s > 0 {
      Backtrack(text, pattern, t, p, s, m);
      RestartIsGlob(text, pattern, m + 1, s, s, m);
    }
  }

  // ---------- patterns with `**` ----------

  /** The first place where two `*` follow each other. */
  ghost function DoubleStarAt(pattern: string): (d: nat)
    requires HasDoubleStar(pattern)
    ensures d < |pattern| - 1 && pattern[d] == '*' && pattern[d + 1] == '*'
    ensures forall i :: 0 <= i < d ==> pattern[i] != '*' || pattern[i + 1] != '*'
  {
    if pattern[0] == '*' && pattern[1] == '*' then 0
    else
      var i :| 0 <= i < |pattern| - 1 && pattern[i] == '*' && pattern[i + 1] == '*';
      assert pattern[1..][i - 1] == '*' && pattern[1..][i] == '*';
      var e := DoubleStarAt(pattern[1..]);
      assert forall i :: 0 < i < e + 1 ==> pattern[i] == pattern[1..][i - 1] && pattern[i + 1] == pattern[1..][i];
      e + 1
  }

  /** The shortest text a pattern matches, with an `x` for every `?`. */
  function Shortest(pattern: string): (text: string)
  {
    if pattern == "" then ""
    else if pattern[0] == '*' then Shortest(pattern[1..])
    else [if pattern[0] == '?' then 'x' else pattern[0]] + Shortest(pattern[1..])
  }

  lemma {:induction false} ShortestIsPlain(pattern: string)
    ensures IsPlain(Shortest(pattern)) && (IsFileName(pattern) ==> IsFileName(Shortest(pattern)))
  {
    if pattern != "" {
      ShortestIsPlain(pattern[1..]);
    }
  }

  lemma {:induction false} ShortestConcat(left: string, right: string)
    ensures Shortest(left + right) == Shortest(left) + Shortest(right)
  {
    if left == "" {
      assert left + right == right;
    } else {
      assert (left + right)[1..] == left[1..] + right;
      ShortestConcat(left[1..], right);
    }
  }

  lemma {:induction false} ShortestMatches(pattern: string)
    ensures Glob(Shortest(pattern), pattern)
  {
    if pattern != "" {
      ShortestMatches(pattern[1..]);
    }
  }

  lemma {:induction false} GlobConcat(text: string, text': string, pattern: string, pattern': string)
    requires Glob(text, pattern) && Glob(text', pattern')
    ensures Glob(text + text', pattern + pattern')
    decreases |text| + |pattern|
  {
    var all, all' := text + text', pattern + pattern';
    if pattern == "" {
      assert all == text' && all' == pattern';
    } else {
      assert all'[1..] == pattern[1..] + pattern';
      if pattern[0] == '*' {
        if Glob(text, pattern[1..]) {
          GlobConcat(text, text', pattern[1..], pattern');
        } else {
          GlobConcat(text[1..], text', pattern, pattern');
          assert all[1..] == text[1..] + text';
        }
      } else {
        GlobConcat(text[1..], text', pattern[1..], pattern');
        assert all[1..] == text[1..] + text';
      }
    }
  }

  /** A text that a pattern with `**` matches: the `**` stands for one byte, every other `*` for none. */
  ghost function Doubled(pattern: string): (text: string)
    requires HasDoubleStar(pattern)
  {
    var d := DoubleStarAt(pattern);
    Shortest(pattern[..d]) + "x" + Shortest(pattern[d..])
  }

  lemma DoubledIsPlain(pattern: string)
    requires HasDoubleStar(pattern)
    ensures IsPlain(Doubled(pattern)) && (IsFileName(pattern) ==> IsFileName(Doubled(pattern)))
  {
    var d := DoubleStarAt(pattern);
    ShortestIsPlain(pattern[..d]);
    ShortestIsPlain(pattern[d..]);
  }

  lemma DoubledMatches(pattern: string)
    requires HasDoubleStar(pattern)
    ensures Glob(Doubled(pattern), pattern)
  {
    var d := DoubleStarAt(pattern);
    var left, right := pattern[..d], pattern[d..];
    ShortestMatches(left);
    ShortestMatches(right);
    assert ("x" + Shortest(right))[1..] == Shortest(right);
    assert Glob("x" + Shortest(right), right);
    GlobConcat(Shortest(left), "x" + Shortest(right), left, right);
    assert left + right == pattern;
    assert Shortest(left) + "x" + Shortest(right) == Shortest(left) + ("x" + Shortest(right));
  }

  /** Before the `**` the matcher follows the pattern byte by byte. */
  ghost predicate Follows(text: string, pattern: string, t: nat, p: nat) {
    && HasDoubleStar(pattern) && text == Doubled(pattern)
    && p <= DoubleStarAt(pattern) && t == |Shortest(pattern[..p])| < |text|
  }

  function Stand(c: char): (d: char) {
    if c == '?' then 'x' else c
  }

  lemma ShortestOfOne(c: char)
    requires c != '*'
    ensures Shortest([c]) == [Stand(c)]
  {
    assert [c][1..] == "";
  }

  lemma ShortestIsMonotone(left: string, n: nat)
    requires n <= |left|
    ensures Shortest(left[..n]) <= Shortest(left)
  {
    var front, back := left[..n], left[n..];
    ShortestConcat(front, back);
    assert front + back == left;
  }

  lemma ShortestGrows(left: string, p: nat)
    requires p < |left| && left[p] != '*'
    ensures Shortest(left[..p + 1]) == Shortest(left[..p]) + [Stand(left[p])]
  {
    ShortestConcat(left[..p], [left[p]]);
    ShortestOfOne(left[p]);
    assert left[..p + 1] == left[..p] + [left[p]];
  }

  lemma FollowsAt(pattern: string, p: nat)
    requires HasDoubleStar(pattern) && p < DoubleStarAt(pattern) && pattern[p] != '*'
    ensures var text, t := Doubled(pattern), |Shortest(pattern[..p])|;
      t < |text| && text[t] == Stand(pattern[p]) && Follows(text, pattern, t + 1, p + 1)
  {
    var left := pattern[..DoubleStarAt(pattern)];
    assert left[..p] == pattern[..p] && left[..p + 1] == pattern[..p + 1];
    ShortestGrows(left, p);
    ShortestIsMonotone(left, p + 1);
  }

  lemma FollowsStar(pattern: string, p: nat)
    requires HasDoubleStar(pattern) && p < DoubleStarAt(pattern) && pattern[p] == '*'
    ensures p + 1 < DoubleStarAt(pattern) && pattern[p + 1] != '*'
    ensures Shortest(pattern[..p + 1]) == Shortest(pattern[..p])
  {
    assert pattern[..p + 1] == pattern[..p] + "*";
    ShortestConcat(pattern[..p], "*");
    assert "*"[1..] == "" && Shortest("*") == "";
  }

  // ---------- texts with `*` ----------

  /** A pattern that matches a given text with a `*` in it, though the matcher takes both `*` for equal bytes. */
  ghost function Trap(text: string): (pattern: string)
    requires !IsPlain(text)
  {
    var i := StarAt(text);
    text[..i] + if i == |text| - 1 then "*?" else "*"
  }

  ghost function StarAt(text: string): (i: nat)
    requires !IsPlain(text)
    ensures i < |text| && text[i] == '*' && '*' !in text[..i]
  {
    if text[0] == '*' then 0
    else
      var j := StarAt(text[1..]);
      assert text[..j + 1] == [text[0]] + text[1..][..j];
      j + 1
  }

  lemma {:induction false} LiteralMatches(text: string)
    requires IsPlain(text)
    ensures Glob(text, text)
  {
    if text != "" {
      LiteralMatches(text[1..]);
    }
  }

  lemma {:induction false} StarMatchesAll(text: string)
    ensures Glob(text, "*")
  {
    if text != "" {
      StarMatchesAll(text[1..]);
    }
  }

  lemma TrapMatches(text: string)
    requires !IsPlain(text)
    ensures Glob(text, Trap(text)) && !HasDoubleStar(Trap(text))
  {
    var i := StarAt(text);
    LiteralMatches(text[..i]);
    assert text == text[..i] + text[i..];
    if i == |text| - 1 {
      assert text[i..] == "*" && "*?"[1..] == "?" && "*"[1..] == "" && "?"[1..] == "";
      assert Glob("*", "?");
      GlobConcat(text[..i], "*", text[..i], "*?");
    } else {
      StarMatchesAll(text[i..]);
      GlobConcat(text[..i], text[i..], text[..i], "*");
    }
    var pattern := Trap(text);
    forall k | 0 <= k < |pattern| - 1 ensures pattern[k] != '*' || pattern[k + 1] != '*' {
      assert k < i ==> pattern[k] == text[..i][k];
    }
  }

  /** In step with its trap, the matcher takes every byte for equal up to and including the `*`. */
  ghost predicate InTrap(text: string, pattern: string, t: nat) {
    && !IsPlain(text) && pattern == Trap(text) && t <= StarAt(text) + 1
  }

  lemma TrapCloses(text: string, pattern: string, t: nat)
    requires InTrap(text, pattern, t)
    ensures t < |text| && t < |pattern| ==> pattern[t] == text[t] && InTrap(text, pattern, t + 1)
    ensures t < |text| || (t < |pattern| && pattern[t] == '?')
  {
  }

  lemma {:induction false} ScanFindsNoStar(text: string, t: nat)
    requires t <= |text| && IsPlain(text)
    ensures ScanFor(text, '*', t) == |text|
    decreases |text| - t
  {
    if t < |text| {
      ScanFindsNoStar(text, t + 1);
    }
  }

  /** On the text made for a pattern with `**` the loop looks for a `*` in the text and gives up. */
  lemma {:induction false} RunOnDoubled(text: string, pattern: string, t: nat, p: nat, s: nat, m: nat)
    requires t <= |text| && s <= p && (s > 0 ==> s < |pattern| && m < |text|) && (s > 0 ==> m < t)
    requires Follows(text, pattern, t, p)
    ensures !Run(text, pattern, t, p, s, m)
    decreases |pattern| - p
  {
    var d := DoubleStarAt(pattern);
    DoubledIsPlain(pattern);
    if p == d {
      ScanFindsNoStar(text, t);
    } else if pattern[p] == '*' {
      FollowsStar(pattern, p);
      FollowsAt(pattern, p + 1);
      RunOnDoubled(text, pattern, t + 1, p + 2, p + 1, t);
    } else {
      FollowsAt(pattern, p);
      RunOnDoubled(text, pattern, t + 1, p + 1, s, m);
    }
  }

  lemma {:induction false} RunInTrap(text: string, pattern: string, t: nat)
    requires IsFileName(text) && InTrap(text, pattern, t) && t <= |text|
    ensures !Run(text, pattern, t, t, 0, 0)
    decreases |text| - t
  {
    TrapCloses(text, pattern, t);
    if t < |text| && t < |pattern| {
      RunInTrap(text, pattern, t + 1);
    }
  }

  // ---------- the matcher ----------

  lemma RunFromStart(text: string, pattern: string)
    ensures Supported(text, pattern) ==> (Run(text, pattern, 0, 0, 0, 0) <==> Glob(text, pattern))
    ensures HasDoubleStar(pattern) && text == Doubled(pattern) ==> !Run(text, pattern, 0, 0, 0, 0)
    ensures IsFileName(text) && !IsPlain(text) && pattern == Trap(text) ==> !Run(text, pattern, 0, 0, 0, 0)
  {
    assert text[0..] == text && pattern[0..] == pattern && pattern[..0] == "";
    if Supported(text, pattern) {
      RunIsGlob(text, pattern, 0, 0, 0, 0);
    }
    if HasDoubleStar(pattern) && text == Doubled(pattern) {
      RunOnDoubled(text, pattern, 0, 0, 0, 0);
    }
    if IsFileName(text) && !IsPlain(text) && pattern == Trap(text) {
      RunInTrap(text, pattern, 0);
    }
  }

  /** The result is right for every file name without `*` and pattern without `**`, and wrong on the texts and
      patterns constructed above. */
  method MatchPattern(text: string, pattern: string) returns (matched: bool)
    ensures Supported(text, pattern) ==> (matched <==> Glob(text, pattern))
    ensures HasDoubleStar(pattern) && text == Doubled(pattern) ==> !matched
    ensures IsFileName(text) && !IsPlain(text) && pattern == Trap(text) ==> !matched
  {
    RunFromStart(text, pattern);
    matched := MatchLoop(text, pattern);
  }

  method Scan(text: string, c: char, start: nat) returns (t: nat)
    requires start <= |text|
    ensures t == ScanFor(text, c, start)
  {
    t := start;
    while t < |text| && text[t] != c && c != '?'
      invariant start <= t <= |text|
      invariant ScanFor(text, c, t) == ScanFor(text, c, start)
    {
      t := t + 1;
    }
  }

  /** The loop itself, which backtracks to the last `*` only. */
  method MatchLoop(text: string, pattern: string) returns (matched: bool)
    ensures matched == Run(text, pattern, 0, 0, 0, 0)
  {
    var afterLastWildcard: nat, afterLastMatched: nat := 0, 0;
    var t: nat, p: nat := 0, 0;
    while true
      invariant t <= |text| && afterLastWildcard <= p
      invariant afterLastWildcard > 0 ==> afterLastWildcard < |pattern| && afterLastMatched < |text|
      invariant afterLastWildcard == 0 ==> afterLastMatched == 0
      invariant Run(text, pattern, t, p, afterLastWildcard, afterLastMatched) == Run(text, pattern, 0, 0, 0, 0)
      decreases |pattern| - afterLastWildcard, |text| - afterLastMatched, |text| - t, |pattern| - p
    {
      if t >= |text| {
        if p >= |pattern| {
          return true;
        } else if pattern[p] == '*' {
          p := p + 1;
          continue;
        }
        return false;
      }
      var w := if p < |pattern| then pattern[p] else '\0';
      if text[t] != w {
        if w == '?' {
          t, p := t + 1, p + 1;
          continue;
        }
        ghost var s, m := afterLastWildcard, afterLastMatched;
        if w == '*' {
          p := p + 1;
          afterLastWildcard := p;
          if p >= |pattern| {
            return true;
          }
        } else if afterLastWildcard > 0 {
          p := afterLastWildcard;
          t := afterLastMatched;
          t := t + 1;
        } else {
          return false;
        }
        assert Restart(text, pattern, t, p, s, m) == Run(text, pattern, 0, 0, 0, 0);
        t := Scan(text, pattern[p], t);
        if t >= |text| {
          return false;
        }
        afterLastMatched := t;
      }
      t, p := t + 1, p + 1;
    }
  }

  // ---------- both restrictions are needed ----------

  /** Whatever the matcher returns, for every pattern with `**` it is wrong on some plain text. */
  lemma DoubleStarDefeats(pattern: string, matched: bool)
    requires HasDoubleStar(pattern) && matched == Run(Doubled(pattern), pattern, 0, 0, 0, 0)
    ensures IsPlain(Doubled(pattern)) && (IsFileName(pattern) ==> IsFileName(Doubled(pattern)))
    ensures matched != Glob(Doubled(pattern), pattern)
  {
    DoubledIsPlain(pattern);
    DoubledMatches(pattern);
    RunFromStart(Doubled(pattern), pattern);
  }

  /** For every file name with a `*` it is wrong on some pattern without `**`. */
  lemma StarInTextDefeats(text: string, matched: bool)
    requires IsFileName(text) && !IsPlain(text) && matched == Run(text, Trap(text), 0, 0, 0, 0)
    ensures !HasDoubleStar(Trap(text)) && matched != Glob(text, Trap(text))
  {
    TrapMatches(text);
    RunFromStart(text, Trap(text));
  }
}
