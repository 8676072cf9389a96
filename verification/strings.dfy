/**
  String helpers with the JavaScript semantics the web app relies on:
  `startsWith`, a `replace(/^prefix/, "")` that strips one leading
  occurrence, `includes`, `toLowerCase`, `trim` and `split`.
  Strings are plain `seq<char>`.
 */
module Strings {

  /** `s.startsWith(p)` */
  predicate StartsWith(s: string, p: string) {
    |p| <= |s| && s[..|p|] == p
  }

  /** `s.replace(/^p/, "")`: removes one leading occurrence of `p`, if present. */
  function StripPrefix(s: string, p: string): (r: string)
    ensures StartsWith(s, p) ==> p + r == s
    ensures !StartsWith(s, p) ==> r == s
  {
    if StartsWith(s, p) then s[|p|..] else s
  }

  lemma PrefixedStartsWith(p: string, s: string)
    ensures StartsWith(p + s, p)
    ensures StripPrefix(p + s, p) == s
  {
    assert (p + s)[..|p|] == p;
  }

  /** `q` occurs in `s` starting at its first position. */
  predicate IsPrefix(q: string, s: string) {
    |q| <= |s| && s[..|q|] == q
  }

  /** `s.includes(q)` */
  predicate IsSubstring(q: string, s: string)
    decreases |s|
  {
    IsPrefix(q, s) || (|s| > 0 && IsSubstring(q, s[1..]))
  }

  /** `q` occurs in `s` at position `i`. */
  predicate OccursAt(q: string, s: string, i: int) {
    0 <= i && i + |q| <= |s| && s[i..i + |q|] == q
  }

  /** `IsSubstring` agrees with the positional definition of an occurrence. */
  lemma {:induction false} SubstringAt(q: string, s: string)
    ensures IsSubstring(q, s) <==> exists i :: OccursAt(q, s, i)
    decreases |s|
  {
    if IsPrefix(q, s) {
      assert OccursAt(q, s, 0);
    } else if |s| > 0 {
      SubstringAt(q, s[1..]);
      if IsSubstring(q, s[1..]) {
        var i :| OccursAt(q, s[1..], i);
        assert OccursAt(q, s, i + 1);
      }
      if exists i :: OccursAt(q, s, i) {
        var i :| OccursAt(q, s, i);
        assert i != 0;
        assert OccursAt(q, s[1..], i - 1);
      }
    }
  }

  /** ASCII `toLowerCase` of one character. */
  function LowerChar(c: char): char {
    if 'A' <= c <= 'Z' then (c as int + 32) as char else c
  }

  /** `s.toLowerCase()`, restricted to the ASCII letters. */
  function Lower(s: string): (r: string)
    ensures |r| == |s|
    ensures forall i :: 0 <= i < |s| ==> r[i] == LowerChar(s[i])
  {
    if |s| == 0 then "" else [LowerChar(s[0])] + Lower(s[1..])
  }

  lemma LowerIdempotent(s: string)
    ensures Lower(Lower(s)) == Lower(s)
  {
  }

  /** The white space `String.prototype.trim` removes (the ASCII part of it). */
  predicate IsSpace(c: char) {
    c == ' ' || c == '\t' || c == '\n' || c == '\r' || c == '\U{B}' || c == '\U{C}'
  }

  predicate AllSpace(s: string) {
    forall i :: 0 <= i < |s| ==> IsSpace(s[i])
  }

  /** Drops the leading white space. */
  function TrimStart(s: string): (r: string)
    ensures |r| <= |s| && r == s[|s| - |r|..]
    ensures AllSpace(s[..|s| - |r|])
    ensures |r| == 0 || !IsSpace(r[0])
  {
    if |s| > 0 && IsSpace(s[0]) then TrimStart(s[1..]) else s
  }

  /** Drops the trailing white space. */
  function TrimEnd(s: string): (r: string)
    ensures |r| <= |s| && r == s[..|r|]
    ensures AllSpace(s[|r|..])
    ensures |r| == 0 || !IsSpace(r[|r| - 1])
  {
    if |s| > 0 && IsSpace(s[|s| - 1]) then TrimEnd(s[..|s| - 1]) else s
  }

  /** `s.trim()` */
  function Trim(s: string): string {
    TrimEnd(TrimStart(s))
  }

  /** A trimmed string neither starts nor ends with white space, and it is empty exactly when `s` is blank. */
  lemma TrimFacts(s: string)
    ensures |Trim(s)| == 0 || (!IsSpace(Trim(s)[0]) && !IsSpace(Trim(s)[|Trim(s)| - 1]))
    ensures |Trim(s)| == 0 <==> AllSpace(s)
    ensures Trim(Trim(s)) == Trim(s)
  {
    var a := TrimStart(s);
    var b := TrimEnd(a);
    if |b| > 0 {
      assert b[0] == a[0];
      assert s[|s| - |a|] == a[0];
    } else {
      assert s == s[..|s| - |a|] + a;
      assert a == a[|b|..];
    }
  }

  /** `s.split(sep)` for a one-character separator. */
  function SplitOn(s: string, sep: char): (r: seq<string>)
    ensures |r| >= 1
  {
    if |s| == 0 then [""]
    else
      var rest := SplitOn(s[1..], sep);
      if s[0] == sep then [""] + rest else [[s[0]] + rest[0]] + rest[1..]
  }

  /** A string without the separator splits into itself. */
  lemma {:induction false} SplitWithoutSeparator(a: string, sep: char)
    requires sep !in a
    ensures SplitOn(a, sep) == [a]
  {
    if |a| > 0 {
      SplitWithoutSeparator(a[1..], sep);
      assert [a[0]] + a[1..] == a;
    }
  }

  /** Splitting `a + sep + b` where `a` has no separator gives `a` followed by the fields of `b`. */
  lemma {:induction false} SplitJoined(a: string, sep: char, b: string)
    requires sep !in a
    ensures SplitOn(a + [sep] + b, sep) == [a] + SplitOn(b, sep)
  {
    var s := a + [sep] + b;
    if |a| == 0 {
      assert s[0] == sep && s[1..] == b;
    } else {
      assert s[0] == a[0] && s[1..] == a[1..] + [sep] + b;
      SplitJoined(a[1..], sep, b);
      assert [a[0]] + a[1..] == a;
    }
  }
}
