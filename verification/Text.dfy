/** The handful of string operations the parsers are written with. */
module Text {
  import opened Prelude

  predicate IsAt(s: string, pattern: string, i: nat) {
    i + |pattern| <= |s| && s[i..i + |pattern|] == pattern
  }

  ghost predicate Contains(s: string, pattern: string) {
    exists i: nat :: IsAt(s, pattern, i)
  }

  /** The first place at or after `i` where the pattern occurs. */
  function FindFrom(s: string, pattern: string, i: nat): (r: Option<nat>)
    requires i <= |s|
    ensures r.Some? ==>
              i <= r.value && IsAt(s, pattern, r.value) && forall j: nat :: i <= j < r.value ==> !IsAt(s, pattern, j)
    ensures r.None? ==> forall j: nat :: i <= j ==> !IsAt(s, pattern, j)
    decreases |s| - i
  {
    if IsAt(s, pattern, i) then Some(i)
    else if i == |s| then None
    else FindFrom(s, pattern, i + 1)
  }

  function SplitOnce(s: string, pattern: string): (r: Option<(string, string)>)
    ensures r.Some? ==> s == r.value.0 + pattern + r.value.1
    ensures r.None? <==> !Contains(s, pattern)
  {
    match FindFrom(s, pattern, 0)
    case None => None
    case Some(i) => Some((s[..i], s[i + |pattern|..]))
  }

  /** The split is at the given place when nothing earlier matches. */
  lemma SplitsAt(s: string, pattern: string, i: nat)
    requires IsAt(s, pattern, i) && forall j: nat :: j < i ==> !IsAt(s, pattern, j)
    ensures SplitOnce(s, pattern) == Some((s[..i], s[i + |pattern|..]))
  {
  }

  function StripSuffix(s: string, suffix: string): (r: Option<string>)
    ensures r.Some? ==> s == r.value + suffix
    ensures r.None? <==> !(|suffix| <= |s| && s[|s| - |suffix|..] == suffix)
  {
    if |suffix| <= |s| && s[|s| - |suffix|..] == suffix then Some(s[..|s| - |suffix|]) else None
  }

  /** Everything before the first occurrence of a character, or all of it. */
  function Before(s: string, c: char): (r: string)
    ensures c !in r && r <= s
    ensures r == s || s[|r|] == c
  {
    if s == [] || s[0] == c then [] else [s[0]] + Before(s[1..], c)
  }

  lemma {:induction false} BeforeStops(s: string, c: char, rest: string)
    requires c !in s && (rest == [] || rest[0] == c)
    ensures Before(s + rest, c) == s
  {
    if s == [] {
      assert s + rest == rest;
    } else {
      assert (s + rest)[1..] == s[1..] + rest;
      BeforeStops(s[1..], c, rest);
    }
  }
}
