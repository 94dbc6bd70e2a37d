/** Escaping a user's prefix for SQL `LIKE`. */
module LikePrefix {

  predicate Special(c: char) {
    c == '%' || c == '_' || c == '\\'
  }

  function Escaped(p: string): string {
    if p == [] then []
    else Escaped(p[..|p| - 1]) + (if Special(p[|p| - 1]) then ['\\'] else []) + [p[|p| - 1]]
  }

  function PatternFor(p: string): string {
    Escaped(p) + "%"
  }

  /** What `LIKE` matches: `%` any run, `_` any one character, a backslash the next character itself. */
  predicate Like(pattern: string, s: string)
    decreases |pattern| + |s|
  {
    if pattern == [] then s == []
    else if pattern[0] == '%' then Like(pattern[1..], s) || (s != [] && Like(pattern, s[1..]))
    else if s == [] then false
    else if pattern[0] == '\\' then |pattern| > 1 && s[0] == pattern[1] && Like(pattern[2..], s[1..])
    else (pattern[0] == '_' || s[0] == pattern[0]) && Like(pattern[1..], s[1..])
  }

  method BuildPattern(prefix: string) returns (escaped: string)
    ensures escaped == PatternFor(prefix)
    ensures forall s :: Like(escaped, s) <==> prefix <= s
  {
    escaped := [];
    for i := 0 to |prefix|
      invariant escaped == Escaped(prefix[..i])
    {
      assert prefix[..i + 1][..i] == prefix[..i];
      if Special(prefix[i]) {
        escaped := escaped + ['\\'];
      }
      escaped := escaped + [prefix[i]];
    }
    assert prefix[..|prefix|] == prefix;
    escaped := escaped + ['%'];
    forall s ensures Like(escaped, s) <==> prefix <= s {
      MatchesExactlyThePrefixed(prefix, s);
    }
  }

  lemma {:induction false} PercentMatchesAll(s: string)
    ensures Like("%", s)
  {
    if s != [] {
      PercentMatchesAll(s[1..]);
    } else {
      assert Like("%"[1..], s);
    }
  }

  lemma {:induction false} EscapedHead(p: string)
    requires p != []
    ensures Escaped(p) == (if Special(p[0]) then ['\\', p[0]] else [p[0]]) + Escaped(p[1..])
  {
    if |p| > 1 {
      EscapedHead(p[..|p| - 1]);
      assert p[..|p| - 1][1..] == p[1..][..|p| - 2];
    }
  }

  /** For all strings: a string matches the escaped prefix exactly when it starts with it. */
  lemma {:induction false} MatchesExactlyThePrefixed(p: string, s: string)
    ensures Like(PatternFor(p), s) <==> p <= s
  {
    if p == [] {
      assert PatternFor(p) == "%";
      PercentMatchesAll(s);
    } else {
      EscapedHead(p);
      var pattern := PatternFor(p);
      if Special(p[0]) {
        assert pattern == ['\\', p[0]] + PatternFor(p[1..]);
        assert pattern[2..] == PatternFor(p[1..]);
      } else {
        assert pattern == [p[0]] + PatternFor(p[1..]);
        assert pattern[1..] == PatternFor(p[1..]);
      }
      if s != [] {
        MatchesExactlyThePrefixed(p[1..], s[1..]);
        assert p <= s <==> p[0] == s[0] && p[1..] <= s[1..] by {
          assert p == [p[0]] + p[1..] && s == [s[0]] + s[1..];
        }
      }
    }
  }
}
