/**
 * The parts of Go's `strings` package that the monitor relies on:
 * TrimSpace, HasPrefix, HasSuffix, Contains, ToLower and Split on one
 * separator character. Whitespace and letter case follow ASCII only.
 */
module Strings {

  /** The ASCII characters that TrimSpace removes. */
  predicate IsSpace(c: char)
  {
    c == ' ' || c == '\t' || c == '\n' || c == '\r' || c == '\U{0B}' || c == '\U{0C}'
  }

  predicate AllSpace(s: string)
  {
    forall k :: 0 <= k < |s| ==> IsSpace(s[k])
  }

  /** `s` has no whitespace at either end. */
  predicate IsTrimmed(s: string)
  {
    s == [] || (!IsSpace(s[0]) && !IsSpace(s[|s| - 1]))
  }

  /** How many whitespace characters `s` starts with. */
  function LeadingSpaces(s: string): (n: nat)
    ensures n <= |s|
    ensures n < |s| ==> !IsSpace(s[n])
  {
    if s == [] || !IsSpace(s[0]) then 0 else 1 + LeadingSpaces(s[1..])
  }

  /** The characters LeadingSpaces counts are all whitespace. */
  lemma {:induction false} LeadingAreSpaces(s: string)
    ensures AllSpace(s[..LeadingSpaces(s)])
  {
    if s != [] && IsSpace(s[0]) {
      LeadingAreSpaces(s[1..]);
      var n := LeadingSpaces(s[1..]);
      assert s[..n + 1] == [s[0]] + s[1..][..n];
    }
  }

  /** How many whitespace characters `s` ends with. */
  function TrailingSpaces(s: string): (n: nat)
    ensures n <= |s|
    ensures n < |s| ==> !IsSpace(s[|s| - 1 - n])
  {
    if s == [] || !IsSpace(s[|s| - 1]) then 0 else 1 + TrailingSpaces(s[..|s| - 1])
  }

  /** The characters TrailingSpaces counts are all whitespace. */
  lemma {:induction false} TrailingAreSpaces(s: string)
    ensures AllSpace(s[|s| - TrailingSpaces(s)..])
  {
    if s != [] && IsSpace(s[|s| - 1]) {
      var init := s[..|s| - 1];
      TrailingAreSpaces(init);
      var n := TrailingSpaces(init);
      assert s[|s| - (n + 1)..] == init[|init| - n..] + [s[|s| - 1]];
    }
  }

  /**
   * Go's strings.TrimSpace on ASCII whitespace: the leading and then the
   * trailing whitespace is cut off, and what is left has none at either end.
   */
  function Trim(s: string): (r: string)
    ensures IsTrimmed(r)
    ensures |r| <= |s|
  {
    var l := LeadingSpaces(s);
    var t := TrailingSpaces(s[l..]);
    assert l < |s| - t ==> s[|s| - 1 - t] == s[l..][|s| - l - 1 - t];
    s[l..|s| - t]
  }

  /** Trimming cuts only whitespace: `s` is the trimmed text with whitespace before and after it. */
  lemma TrimCutsOnlySpaces(s: string)
    ensures var l, r := LeadingSpaces(s), Trim(s);
            && l + |r| <= |s|
            && s == s[..l] + r + s[l + |r|..]
            && AllSpace(s[..l]) && AllSpace(s[l + |r|..])
  {
    var l := LeadingSpaces(s);
    var t := TrailingSpaces(s[l..]);
    var e := |s| - t;
    assert Trim(s) == s[l..e];
    SplitThree(s, l, e);
    LeadingAreSpaces(s);
    TrailingAreSpaces(s[l..]);
    assert s[e..] == s[l..][|s[l..]| - t..];
  }

  /** A string is the concatenation of its three pieces around two cut points. */
  lemma SplitThree(s: string, i: nat, j: nat)
    requires i <= j <= |s|
    ensures s == s[..i] + s[i..j] + s[j..]
  {
    assert s[..j] == s[..i] + s[i..j];
  }

  /** Trimming removes exactly the whitespace around the text, so text that has none is kept as it is. */
  lemma TrimKeepsTrimmed(s: string)
    requires IsTrimmed(s)
    ensures Trim(s) == s
  {
  }

  /** The two pieces of a concatenation can be cut back out of it. */
  lemma ConcatPieces(a: string, b: string)
    ensures (a + b)[..|a|] == a && (a + b)[|a|..] == b
    ensures HasPrefix(a + b, a) && HasSuffix(a + b, b)
  {
  }

  /** Go's strings.HasPrefix. */
  predicate HasPrefix(s: string, prefix: string)
  {
    |prefix| <= |s| && s[..|prefix|] == prefix
  }

  /** Go's strings.HasSuffix. */
  predicate HasSuffix(s: string, suffix: string)
  {
    |suffix| <= |s| && s[|s| - |suffix|..] == suffix
  }

  /** Go's strings.Contains. */
  predicate Contains(s: string, sub: string)
  {
    exists i :: 0 <= i <= |s| - |sub| && HasPrefix(s[i..], sub)
  }

  function LowerChar(c: char): (d: char)
    ensures 'A' <= c <= 'Z' ==> d as int == c as int + 32
    ensures !('A' <= c <= 'Z') ==> d == c
  {
    if 'A' <= c <= 'Z' then (c as int + 32) as char else c
  }

  /** Go's strings.ToLower on ASCII letters: each character is lowered in place. */
  function ToLower(s: string): (r: string)
    ensures |r| == |s|
    ensures forall k :: 0 <= k < |s| ==> r[k] == LowerChar(s[k])
  {
    seq(|s|, k requires 0 <= k < |s| => LowerChar(s[k]))
  }

  /** Lowering text piecewise is lowering the whole. */
  lemma ToLowerAppend(a: string, b: string)
    ensures ToLower(a + b) == ToLower(a) + ToLower(b)
  {
    assert forall k :: 0 <= k < |a + b| ==> ToLower(a + b)[k] == (ToLower(a) + ToLower(b))[k];
  }

  /** The position of the first `c` in `s`, or |s| when there is none. */
  function IndexOf(s: string, c: char): (i: nat)
    ensures i <= |s|
    ensures i < |s| ==> s[i] == c
    ensures c !in s[..i]
  {
    if s == [] then 0
    else if s[0] == c then 0
    else
      var j := IndexOf(s[1..], c);
      assert s[..1 + j] == [s[0]] + s[1..][..j];
      1 + j
  }

  /** Glues `parts` back together with `sep` between consecutive parts. */
  function Join(parts: seq<string>, sep: char): string
  {
    if parts == [] then ""
    else if |parts| == 1 then parts[0]
    else parts[0] + [sep] + Join(parts[1..], sep)
  }

  /**
   * Go's strings.Split(s, sep) for a one-character separator. There is always
   * at least one part (Split("") is [""]), no part holds the separator, and
   * joining the parts gives back `s`.
   */
  function Split(s: string, sep: char): (parts: seq<string>)
    ensures |parts| >= 1
    ensures forall k :: 0 <= k < |parts| ==> sep !in parts[k]
    ensures Join(parts, sep) == s
    decreases |s|
  {
    var i := IndexOf(s, sep);
    if i == |s| then
      assert s[..i] == s;
      [s]
    else
      var rest := Split(s[i + 1..], sep);
      assert s == s[..i] + [sep] + s[i + 1..];
      [s[..i]] + rest
  }

  /** Split undoes Join: parts free of the separator are recovered exactly. */
  lemma {:induction false} SplitJoin(parts: seq<string>, sep: char)
    requires |parts| >= 1
    requires forall k :: 0 <= k < |parts| ==> sep !in parts[k]
    ensures Split(Join(parts, sep), sep) == parts
    decreases |parts|
  {
    if |parts| == 1 {
      assert IndexOf(parts[0], sep) == |parts[0]|;
    } else {
      var s := Join(parts, sep);
      var p := parts[0];
      var tail := Join(parts[1..], sep);
      assert s == p + [sep] + tail;
      assert s[|p|] == sep && s[..|p|] == p;
      var i := IndexOf(s, sep);
      assert i == |p|;
      assert s[i + 1..] == tail;
      SplitJoin(parts[1..], sep);
    }
  }
}
