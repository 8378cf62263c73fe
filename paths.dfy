/** Path composition as .NET's `Path.Combine` performs it with '/' as the
    directory separator. */
module Paths {

  const Sep: char := '/'

  predicate IsRooted(p: string) {
    |p| > 0 && p[0] == Sep
  }

  /** `Path.Combine(a, b)`: an empty part is ignored, a rooted second part
      replaces the first, and a separator is inserted only when missing. */
  function Combine(a: string, b: string): (r: string)
    ensures b == [] ==> r == a
    ensures b != [] && IsRooted(b) ==> r == b
    ensures b != [] && !IsRooted(b) && a != [] && a[|a| - 1] != Sep ==> r == a + [Sep] + b
  {
    if b == [] then a
    else if a == [] then b
    else if IsRooted(b) then b
    else if a[|a| - 1] == Sep then a + b
    else a + [Sep] + b
  }

  /** `Path.Combine(parts...)`: the pairwise combination from left to right. */
  function CombineAll(parts: seq<string>): string
  {
    if parts == [] then [] else Combine(CombineAll(parts[..|parts| - 1]), parts[|parts| - 1])
  }

  /** `Path.GetFileNameWithoutExtension(p)`: the text after the last '/',
      cut before its last '.' when it has one. */
  function FileNameWithoutExtension(p: string): (r: string)
    ensures Sep !in r
  {
    var name := AfterLast(p, Sep);
    if '.' in name then BeforeLast(name, '.') else name
  }

  /** The part of `s` after the last `c` (all of `s` when it has none). */
  function AfterLast(s: string, c: char): (r: string)
    ensures c !in r
    ensures |r| <= |s|
  {
    if s == [] then []
    else if s[|s| - 1] == c then []
    else AfterLast(s[..|s| - 1], c) + [s[|s| - 1]]
  }

  /** When `s` has a `c`, the character just before the result is that
      `c`, so the result is everything after the last one. */
  lemma {:induction false} AfterLastFollowsSeparator(s: string, c: char)
    requires c in s
    ensures |AfterLast(s, c)| < |s| && s[|s| - |AfterLast(s, c)| - 1] == c
  {
    if s[|s| - 1] != c {
      var init := s[..|s| - 1];
      assert c in init by {
        var i :| 0 <= i < |s| && s[i] == c;
        assert init[i] == c;
      }
      AfterLastFollowsSeparator(init, c);
    }
  }

  /** The part of `s` before its last `c`. */
  function BeforeLast(s: string, c: char): (r: string)
    requires c in s
    ensures |r| < |s|
    ensures Sep !in s ==> Sep !in r
  {
    if s[|s| - 1] == c then s[..|s| - 1] else BeforeLast(s[..|s| - 1], c)
  }

  /** The result is the prefix of `s` ending just before a `c`, and no `c`
      follows that one: the cut is at the last `c`. */
  lemma {:induction false} BeforeLastPrecedesSeparator(s: string, c: char)
    requires c in s
    ensures var r := BeforeLast(s, c);
      r == s[..|r|] && s[|r|] == c && c !in s[|r| + 1..]
  {
    if s[|s| - 1] != c {
      var init := s[..|s| - 1];
      assert c in init by {
        var i :| 0 <= i < |s| && s[i] == c;
        assert init[i] == c;
      }
      BeforeLastPrecedesSeparator(init, c);
      var r := BeforeLast(init, c);
      assert s[|r| + 1..] == init[|r| + 1..] + [s[|s| - 1]];
    }
  }
}
