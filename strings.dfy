/** The string operations the handlers use: global single-character
    replacement, the text before the first '@', and the ordering used by
    `ORDER BY` on a text column. */
module Strings {

  /** `s.replace(/[...]/g, sub)`: every character of `s` that belongs to
      `targets` is replaced by `sub`; every other character is kept. */
  function ReplaceIn(s: string, targets: set<char>, sub: char): (r: string)
    ensures |r| == |s|
    ensures forall i :: 0 <= i < |s| ==> r[i] == if s[i] in targets then sub else s[i]
  {
    if s == [] then [] else [if s[0] in targets then sub else s[0]] + ReplaceIn(s[1..], targets, sub)
  }

  /** `s.split('@')[0]`: the text before the first '@', or all of `s` when it
      holds none. */
  function LocalPart(s: string): (r: string)
    ensures r <= s
    ensures '@' !in r
    ensures |r| < |s| ==> s[|r|] == '@'
  {
    if s == [] then [] else if s[0] == '@' then [] else [s[0]] + LocalPart(s[1..])
  }

  /** Splitting `a + "@" + b` at its first '@' gives what splitting `a`
      alone gives: all of `a` when it holds no '@'. */
  lemma {:induction false} LocalPartOfJoin(a: string, b: string)
    ensures LocalPart(a + "@" + b) == LocalPart(a)
    ensures '@' !in a ==> LocalPart(a + "@" + b) == a
  {
    if a != [] {
      assert (a + "@" + b)[1..] == a[1..] + "@" + b;
      LocalPartOfJoin(a[1..], b);
    }
  }

  /** Lexicographic order on code points: the collation assumed for
      `ORDER BY display_name ASC`. */
  predicate StrLe(a: string, b: string)
  {
    a == [] || (b != [] && (a[0] < b[0] || (a[0] == b[0] && StrLe(a[1..], b[1..]))))
  }

  lemma {:induction false} StrLeTotal(a: string, b: string)
    ensures StrLe(a, b) || StrLe(b, a)
  {
    if a != [] && b != [] && a[0] == b[0] {
      StrLeTotal(a[1..], b[1..]);
    }
  }

  lemma {:induction false} StrLeTransitive(a: string, b: string, c: string)
    requires StrLe(a, b) && StrLe(b, c)
    ensures StrLe(a, c)
  {
    if a != [] && b != [] && c != [] && a[0] == b[0] && b[0] == c[0] {
      StrLeTransitive(a[1..], b[1..], c[1..]);
    }
  }
}
