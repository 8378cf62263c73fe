/** String helpers shared by the editor tooling: suffix tests, splitting on a
    separator, character replacement and identifier filtering. */
module Text {

  predicate EndsWith(s: string, suffix: string) {
    |suffix| <= |s| && s[|s| - |suffix|..] == suffix
  }

  /** `s.Split(sep)` in C#: always at least one part; an empty string splits into [""]. */
  function Split(s: string, sep: char): (parts: seq<string>)
    ensures |parts| >= 1
    ensures forall i :: 0 <= i < |parts| ==> sep !in parts[i]
  {
    if s == [] then [[]]
    else
      var rest := Split(s[1..], sep);
      if s[0] == sep then [[]] + rest
      else [[s[0]] + rest[0]] + rest[1..]
  }

  /** `string.Join(sep, parts)`. */
  function Join(parts: seq<string>, sep: char): string
    requires |parts| >= 1
  {
    if |parts| == 1 then parts[0] else parts[0] + [sep] + Join(parts[1..], sep)
  }

  /** Splitting and joining on the same separator gives the string back. */
  lemma {:induction false} JoinSplit(s: string, sep: char)
    ensures Join(Split(s, sep), sep) == s
  {
    if s != [] {
      var rest := Split(s[1..], sep);
      JoinSplit(s[1..], sep);
      if s[0] == sep {
        assert Split(s, sep)[1..] == rest;
      } else {
        var parts := Split(s, sep);
        assert parts[0] == [s[0]] + rest[0];
        if |rest| == 1 {
          assert parts == [[s[0]] + rest[0]];
        } else {
          assert parts[1..] == rest[1..];
          assert Join(rest, sep) == rest[0] + [sep] + Join(rest[1..], sep);
        }
      }
    }
  }

  /** `s.Replace(from, to)` for single characters. */
  function ReplaceChar(s: string, from: char, to: char): (r: string)
    ensures |r| == |s|
    ensures forall i :: 0 <= i < |s| ==> r[i] == (if s[i] == from then to else s[i])
  {
    if s == [] then [] else [if s[0] == from then to else s[0]] + ReplaceChar(s[1..], from, to)
  }

  /** The character class `[a-zA-Z0-9_]`. */
  predicate IsIdentChar(c: char) {
    ('a' <= c <= 'z') || ('A' <= c <= 'Z') || ('0' <= c <= '9') || c == '_'
  }

  predicate IsAsciiDigit(c: char) {
    '0' <= c <= '9'
  }

  /** `Regex.Replace(s, "[^a-zA-Z0-9_]", "")`: drops every character outside the class. */
  function KeepIdentChars(s: string): (r: string)
    ensures |r| <= |s|
    ensures forall i :: 0 <= i < |r| ==> IsIdentChar(r[i])
    ensures (forall i :: 0 <= i < |s| ==> IsIdentChar(s[i])) ==> r == s
  {
    if s == [] then []
    else if IsIdentChar(s[0]) then [s[0]] + KeepIdentChars(s[1..])
    else KeepIdentChars(s[1..])
  }

  /** Every identifier character of `s` is kept, as often as it occurs,
      and no other character is. */
  lemma {:induction false} KeepIdentCharsCounts(s: string, ch: char)
    ensures multiset(KeepIdentChars(s))[ch] == if IsIdentChar(ch) then multiset(s)[ch] else 0
  {
    if s != [] {
      assert s == [s[0]] + s[1..];
      KeepIdentCharsCounts(s[1..], ch);
    }
  }

  /** The filter works character by character and keeps the order: the
      kept text of a concatenation is the kept text of each part, in turn. */
  lemma {:induction false} KeepIdentCharsAppend(a: string, b: string)
    ensures KeepIdentChars(a + b) == KeepIdentChars(a) + KeepIdentChars(b)
  {
    if a == [] {
      assert a + b == b;
    } else {
      assert (a + b)[0] == a[0] && (a + b)[1..] == a[1..] + b;
      KeepIdentCharsAppend(a[1..], b);
    }
  }

  /** A single character is kept exactly when it is an identifier character. */
  lemma KeepIdentCharsOne(ch: char)
    ensures KeepIdentChars([ch]) == if IsIdentChar(ch) then [ch] else []
  {
    assert [ch][1..] == [];
  }
}
