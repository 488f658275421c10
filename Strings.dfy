/**
 * The JavaScript string built-ins that the lesson core relies on, restated over
 * `string` (a `seq<char>`): `split` and `join` on a one-character separator,
 * `trim` and the regex class `\s`, `startsWith`, `includes`, and `toLowerCase`
 * restricted to ASCII letters.
 */
module Strings {

  /** The code points `String.prototype.trim` removes and `\s` matches: the
      ECMAScript WhiteSpace and LineTerminator characters. */
  predicate IsWhitespace(c: char) {
    || c == '\t' || c == '\n' || c == '\U{B}' || c == '\U{C}' || c == '\r' || c == ' '
    || c == '\U{A0}' || c == '\U{1680}' || ('\U{2000}' <= c <= '\U{200A}')
    || c == '\U{2028}' || c == '\U{2029}' || c == '\U{202F}' || c == '\U{205F}'
    || c == '\U{3000}' || c == '\U{FEFF}'
  }

  /** Every character of `s` is whitespace (vacuously so for the empty string). */
  predicate IsBlank(s: string) {
    forall i :: 0 <= i < |s| ==> IsWhitespace(s[i])
  }

  /** The regex class `\d`: an ASCII decimal digit. */
  predicate IsDigit(c: char) {
    '0' <= c <= '9'
  }

  /** `s.startsWith(p)`. */
  predicate StartsWith(s: string, p: string) {
    |p| <= |s| && s[..|p|] == p
  }

  /** `s.includes(t)`: `t` occurs in `s` at some offset. */
  predicate Contains(s: string, t: string) {
    exists i :: 0 <= i <= |s| && StartsWith(s[i..], t)
  }

  /** `s.slice(n)` for a non-negative `n`: JavaScript clamps `n` to the length. */
  function Drop(s: string, n: nat): (r: string)
    ensures n <= |s| ==> r == s[n..]
    ensures |s| < n ==> r == ""
  {
    if n <= |s| then s[n..] else ""
  }

  /** Leading whitespace removed. */
  function TrimStart(s: string): (r: string)
    ensures |r| <= |s| && r == s[|s| - |r|..]
    ensures r == [] || !IsWhitespace(r[0])
    ensures forall i :: 0 <= i < |s| - |r| ==> IsWhitespace(s[i])
    decreases |s|
  {
    if |s| > 0 && IsWhitespace(s[0]) then TrimStart(s[1..]) else s
  }

  /** Trailing whitespace removed. */
  function TrimEnd(s: string): (r: string)
    ensures |r| <= |s| && r == s[..|r|]
    ensures r == [] || !IsWhitespace(r[|r| - 1])
    ensures forall i :: |r| <= i < |s| ==> IsWhitespace(s[i])
    decreases |s|
  {
    if |s| > 0 && IsWhitespace(s[|s| - 1]) then TrimEnd(s[..|s| - 1]) else s
  }

  /** `s.trim()`: empty exactly for a blank string, and otherwise neither starting nor ending
      with whitespace. `TrimRemovesOuterWhitespace` states which slice of `s` it is. */
  function Trim(s: string): (r: string)
    ensures |r| <= |s|
    ensures r == [] <==> IsBlank(s)
    ensures r != [] ==> !IsWhitespace(r[0]) && !IsWhitespace(r[|r| - 1])
  {
    TrimEnd(TrimStart(s))
  }

  /** The length of the whitespace run that `s` starts with. */
  function LeadingBlanks(s: string): nat {
    |s| - |TrimStart(s)|
  }

  /** `s.trim()` is `s` with its leading and its trailing whitespace removed: the result is the
      slice of `s` that starts after the leading whitespace run, and what lies before and after
      it is blank. As the result neither starts nor ends with whitespace, those are exactly the
      whitespace runs at the two ends. */
  lemma TrimRemovesOuterWhitespace(s: string)
    ensures LeadingBlanks(s) + |Trim(s)| <= |s|
    ensures Trim(s) == s[LeadingBlanks(s)..LeadingBlanks(s) + |Trim(s)|]
    ensures IsBlank(s[..LeadingBlanks(s)]) && IsBlank(s[LeadingBlanks(s) + |Trim(s)|..])
  {
    TrimmedSlice(s, LeadingBlanks(s), TrimStart(s), Trim(s));
  }

  /** The result `r` of trimming the end of `t`, which is `s` with its start trimmed, `a`
      characters shorter. */
  lemma TrimmedSlice(s: string, a: nat, t: string, r: string)
    requires t == TrimStart(s) && a == |s| - |t| && r == TrimEnd(t)
    ensures a + |r| <= |s| && r == s[a..a + |r|]
    ensures IsBlank(s[..a]) && IsBlank(s[a + |r|..])
  {
    SliceBetweenBlanks(s, a, t, r);
  }

  /** `r`, a prefix of the suffix `t` of `s`, with whitespace before and after it in `s`. */
  lemma SliceBetweenBlanks(s: string, a: nat, t: string, r: string)
    requires |t| <= |s| && t == s[|s| - |t|..] && a == |s| - |t|
    requires |r| <= |t| && r == t[..|r|]
    requires forall i :: 0 <= i < |s| - |t| ==> IsWhitespace(s[i])
    requires forall i :: |r| <= i < |t| ==> IsWhitespace(t[i])
    ensures a + |r| <= |s| && r == s[a..a + |r|]
    ensures IsBlank(s[..a]) && IsBlank(s[a + |r|..])
  {
    TakeOfDrop(s, a, |r|);
    forall i | a + |r| <= i < |s| ensures IsWhitespace(s[i]) {
      assert s[i] == t[i - a];
    }
    BlankAround(s, a, |r|);
  }

  /** Taking `n` characters after dropping `a` is the slice from `a` to `a + n`. */
  lemma TakeOfDrop(s: string, a: nat, n: nat)
    requires a + n <= |s|
    ensures s[a..][..n] == s[a..a + n]
  {
  }

  /** A slice whose surroundings, index by index, are whitespace lies between two blank strings. */
  lemma BlankAround(s: string, a: nat, n: nat)
    requires a + n <= |s|
    requires forall i :: 0 <= i < a ==> IsWhitespace(s[i])
    requires forall i :: a + n <= i < |s| ==> IsWhitespace(s[i])
    ensures IsBlank(s[..a]) && IsBlank(s[a + n..])
  {
    var lead, tail := s[..a], s[a + n..];
    forall i | 0 <= i < |lead| ensures IsWhitespace(lead[i]) {
      assert lead[i] == s[i];
    }
    forall i | 0 <= i < |tail| ensures IsWhitespace(tail[i]) {
      assert tail[i] == s[a + n + i];
    }
  }

  /** ASCII `toLowerCase` on one character. */
  function LowerChar(c: char): char {
    if 'A' <= c <= 'Z' then (c as int - 'A' as int + 'a' as int) as char else c
  }

  /** ASCII `toLowerCase`. */
  function ToLower(s: string): (r: string)
    ensures |r| == |s|
    ensures forall i :: 0 <= i < |s| ==> r[i] == LowerChar(s[i])
  {
    seq(|s|, i requires 0 <= i < |s| => LowerChar(s[i]))
  }

  /** `s.split(d)` for a one-character separator `d`: never empty, no piece contains `d`. */
  function Split(s: string, d: char): (parts: seq<string>)
    ensures |parts| >= 1
    ensures forall i :: 0 <= i < |parts| ==> d !in parts[i]
    decreases |s|
  {
    if |s| == 0 then [""]
    else
      var rest := Split(s[1..], d);
      if s[0] == d then [""] + rest
      else [[s[0]] + rest[0]] + rest[1..]
  }

  /** `parts.join(d)`. */
  function Join(parts: seq<string>, d: char): string
    decreases |parts|
  {
    if |parts| == 0 then ""
    else if |parts| == 1 then parts[0]
    else parts[0] + [d] + Join(parts[1..], d)
  }

  /** The last element of a non-empty sequence (`Array.prototype.pop`'s result). */
  function Last<T>(s: seq<T>): T
    requires |s| > 0
  {
    s[|s| - 1]
  }

  /** A string without the separator splits into itself alone. */
  lemma {:induction false} SplitWithoutSeparator(s: string, d: char)
    requires d !in s
    ensures Split(s, d) == [s]
    decreases |s|
  {
    if |s| > 0 {
      assert d !in s[1..] by {
        forall i | 0 <= i < |s| - 1 ensures s[1..][i] != d { assert s[1..][i] == s[i + 1]; }
      }
      SplitWithoutSeparator(s[1..], d);
      assert [s[0]] + s[1..] == s;
    }
  }

  /** Splitting distributes over a separator: `(a + d + b).split(d)` is `a.split(d)` followed by `b.split(d)`. */
  lemma {:induction false} SplitAround(a: string, b: string, d: char)
    ensures Split(a + [d] + b, d) == Split(a, d) + Split(b, d)
    decreases |a|
  {
    var s := a + [d] + b;
    if |a| == 0 {
      assert s[1..] == b;
    } else {
      assert s[1..] == a[1..] + [d] + b;
      SplitAround(a[1..], b, d);
    }
  }

  /** `join` undoes `split`. */
  lemma {:induction false} JoinSplit(s: string, d: char)
    ensures Join(Split(s, d), d) == s
    decreases |s|
  {
    if d !in s {
      SplitWithoutSeparator(s, d);
    } else {
      var k :| 0 <= k < |s| && s[k] == d;
      var a, b := s[..k], s[k + 1..];
      assert s == a + [d] + b;
      SplitAround(a, b, d);
      JoinSplit(a, d);
      JoinSplit(b, d);
      JoinAppend(Split(a, d), Split(b, d), d);
    }
  }

  /** `join` of a concatenation of two non-empty part lists puts one separator between them. */
  lemma {:induction false} JoinAppend(p: seq<string>, q: seq<string>, d: char)
    requires |p| >= 1 && |q| >= 1
    ensures Join(p + q, d) == Join(p, d) + [d] + Join(q, d)
    decreases |p|
  {
    if |p| == 1 {
      assert (p + q)[1..] == q;
    } else {
      assert (p + q)[1..] == p[1..] + q;
      JoinAppend(p[1..], q, d);
    }
  }

  /** `split` undoes `join` when no part contains the separator. */
  lemma {:induction false} SplitJoin(parts: seq<string>, d: char)
    requires |parts| >= 1
    requires forall i :: 0 <= i < |parts| ==> d !in parts[i]
    ensures Split(Join(parts, d), d) == parts
    decreases |parts|
  {
    SplitWithoutSeparator(parts[0], d);
    if |parts| > 1 {
      SplitJoin(parts[1..], d);
      SplitAround(parts[0], Join(parts[1..], d), d);
      assert [parts[0]] + parts[1..] == parts;
    }
  }
}
