/**
 * The fragment of JavaScript's string library the core relies on:
 * `trim`, `join`, `split`-style decoding, `startsWith`, `includes`,
 * `replace` with a string pattern (first occurrence only) and
 * `toLowerCase`.
 */
module Strings {
  import opened Wrappers
  import Lists

  /**
   * The characters `String.prototype.trim` removes: WhiteSpace and
   * LineTerminator of section 12.2 and 12.3 of ECMA-262.
   */
  predicate IsWhite(c: char) {
    || c == ' ' || c == '\t' || c == '\n' || c == '\r'
    || c == '\U{000B}' || c == '\U{000C}' || c == '\U{00A0}' || c == '\U{1680}'
    || ('\U{2000}' <= c <= '\U{200A}')
    || c == '\U{2028}' || c == '\U{2029}' || c == '\U{202F}' || c == '\U{205F}'
    || c == '\U{3000}' || c == '\U{FEFF}'
  }

  /** Number of white characters at the front of `s`. */
  function LeadingWhite(s: string): (k: nat)
    ensures k <= |s|
    ensures forall i :: 0 <= i < k ==> IsWhite(s[i])
    ensures k < |s| ==> !IsWhite(s[k])
  {
    if |s| > 0 && IsWhite(s[0]) then 1 + LeadingWhite(s[1..]) else 0
  }

  /** Number of white characters at the back of `s`. */
  function TrailingWhite(s: string): (k: nat)
    ensures k <= |s|
    ensures forall i :: |s| - k <= i < |s| ==> IsWhite(s[i])
    ensures k < |s| ==> !IsWhite(s[|s| - 1 - k])
  {
    if |s| > 0 && IsWhite(s[|s| - 1]) then 1 + TrailingWhite(s[..|s| - 1]) else 0
  }

  /** `s.trim()`. */
  function Trim(s: string): (r: string)
    ensures |r| <= |s|
    ensures |r| > 0 ==> !IsWhite(r[0]) && !IsWhite(r[|r| - 1])
  {
    var t := s[LeadingWhite(s)..];
    t[..|t| - TrailingWhite(t)]
  }

  /** A string made only of white characters (including the empty one). */
  predicate IsBlank(s: string) {
    forall i :: 0 <= i < |s| ==> IsWhite(s[i])
  }

  /** Trim removes white characters at both ends and nothing else. */
  lemma TrimSpan(s: string) returns (a: nat, b: nat)
    ensures a <= b <= |s|
    ensures Trim(s) == s[a..b]
    ensures forall i :: 0 <= i < a ==> IsWhite(s[i])
    ensures forall i :: b <= i < |s| ==> IsWhite(s[i])
  {
    a := LeadingWhite(s);
    var t := s[a..];
    b := a + |t| - TrailingWhite(t);
    forall i | b <= i < |s|
      ensures IsWhite(s[i])
    {
      assert s[i] == t[i - a];
    }
  }

  /** `s.trim()` is falsy exactly for blank strings. */
  lemma TrimEmptyIffBlank(s: string)
    ensures Trim(s) == "" <==> IsBlank(s)
  {
    var a, b := TrimSpan(s);
    if Trim(s) != "" {
      assert !IsWhite(s[a]);
    }
  }

  /** A string with no white character at either end is its own trim. */
  lemma TrimUnpadded(s: string)
    requires |s| > 0 ==> !IsWhite(s[0]) && !IsWhite(s[|s| - 1])
    ensures Trim(s) == s
  {
    assert LeadingWhite(s) == 0;
    assert s[0..] == s;
    assert TrailingWhite(s) == 0;
  }

  /** Trimming twice is trimming once. */
  lemma TrimIdempotent(s: string)
    ensures Trim(Trim(s)) == Trim(s)
  {
    var t := Trim(s);
    assert LeadingWhite(t) == 0;
    assert TrailingWhite(t) == 0;
  }

  /** `parts.join(sep)`. */
  function Join(parts: seq<string>, sep: string): (r: string)
    ensures |parts| == 1 ==> r == parts[0]
    ensures |parts| == 0 ==> r == ""
    ensures |parts| > 0 ==> |r| >= |parts[0]|
  {
    if |parts| == 0 then ""
    else if |parts| == 1 then parts[0]
    else parts[0] + sep + Join(parts[1..], sep)
  }

  /** Joining non-empty fragments gives `""` exactly when there are none. */
  lemma {:induction false} JoinEmptyIff(parts: seq<string>, sep: string)
    requires forall i :: 0 <= i < |parts| ==> parts[i] != ""
    ensures Join(parts, sep) == "" <==> |parts| == 0
  {
  }

  /** `sub` occurs in `s` starting at index `i`. */
  predicate OccursAt(s: string, sub: string, i: int) {
    0 <= i && i + |sub| <= |s| && s[i..i + |sub|] == sub
  }

  /** `s.includes(sub)`. */
  predicate Contains(s: string, sub: string) {
    exists i | 0 <= i <= |s| :: OccursAt(s, sub, i)
  }

  /** `s.startsWith(p)`. */
  predicate StartsWith(s: string, p: string) {
    OccursAt(s, p, 0)
  }

  /** The first index at or after `from` where `sub` occurs, if any. */
  function FindFrom(s: string, sub: string, from: nat): (r: Option<nat>)
    requires from <= |s|
    ensures r.Some? ==> from <= r.value && OccursAt(s, sub, r.value)
    ensures r.Some? ==> forall j :: from <= j < r.value ==> !OccursAt(s, sub, j)
    ensures r.None? ==> forall j :: from <= j ==> !OccursAt(s, sub, j)
    decreases |s| - from
  {
    if OccursAt(s, sub, from) then Some(from)
    else if from == |s| then None
    else FindFrom(s, sub, from + 1)
  }

  /** `s.indexOf(sub)` as an option. */
  function Find(s: string, sub: string): (r: Option<nat>)
    ensures r.Some? ==> OccursAt(s, sub, r.value)
    ensures r.Some? ==> forall j :: 0 <= j < r.value ==> !OccursAt(s, sub, j)
    ensures r.None? <==> !Contains(s, sub)
  {
    FindFrom(s, sub, 0)
  }

  /** `s.replace(sub, repl)` with a string pattern: only the first occurrence. */
  function ReplaceFirst(s: string, sub: string, repl: string): (r: string)
    ensures !Contains(s, sub) ==> r == s
    ensures Contains(s, sub) ==> |r| == |s| - |sub| + |repl|
    ensures forall k :: OccursAt(s, sub, k) && (forall j :: 0 <= j < k ==> !OccursAt(s, sub, j)) ==>
      r == s[..k] + repl + s[k + |sub|..]
  {
    match Find(s, sub)
    case None => s
    case Some(k) => s[..k] + repl + s[k + |sub|..]
  }

  /** `s.replace(/c/g, "")`: every occurrence of `c` removed. */
  function RemoveAll(s: string, c: char): (r: string)
    ensures c !in r
    ensures forall x :: x != c ==> (x in r <==> x in s)
    ensures |r| <= |s|
  {
    if |s| == 0 then ""
    else (if s[0] == c then "" else [s[0]]) + RemoveAll(s[1..], c)
  }

  /** The removal is the order-preserving filter that drops exactly `c`. */
  lemma {:induction false} RemoveAllIsFilter(s: string, c: char)
    ensures RemoveAll(s, c) == Lists.Filter(s, (x: char) => x != c)
    decreases |s|
  {
    if |s| > 0 {
      RemoveAllIsFilter(s[1..], c);
    }
  }

  /** Replacing the first occurrence by the pattern itself changes nothing. */
  lemma ReplaceBySelf(s: string, sub: string)
    ensures ReplaceFirst(s, sub, sub) == s
  {
    match Find(s, sub)
    case None =>
    case Some(k) =>
      assert s[k..k + |sub|] == sub;
      assert s == s[..k] + s[k..k + |sub|] + s[k + |sub|..];
  }

  /** A second removal of the same character removes nothing more. */
  lemma RemoveAllIdempotent(s: string, c: char)
    ensures RemoveAll(RemoveAll(s, c), c) == RemoveAll(s, c)
  {
    RemoveAllIsFilter(s, c);
    RemoveAllIsFilter(RemoveAll(s, c), c);
    Lists.FilterIdempotent(s, (x: char) => x != c);
  }

  /** `s.split(sep)` for a non-empty separator. */
  function Split(s: string, sep: string): (r: seq<string>)
    requires |sep| > 0
    ensures |r| > 0
    decreases |s|
  {
    match Find(s, sep)
    case None => [s]
    case Some(k) => [s[..k]] + Split(s[k + |sep|..], sep)
  }

  /**
   * `sep` cannot be found in `p` nor straddling the end of `p` and a
   * following `sep`: the condition under which splitting undoes joining.
   */
  predicate SepFree(p: string, sep: string) {
    forall j :: 0 <= j < |p| ==> !OccursAt(p + sep, sep, j)
  }

  /** Splitting a join of separator-free fragments gives the fragments back. */
  lemma {:induction false} SplitJoin(parts: seq<string>, sep: string)
    requires |sep| > 0 && |parts| > 0
    requires forall i :: 0 <= i < |parts| ==> SepFree(parts[i], sep)
    ensures Split(Join(parts, sep), sep) == parts
    decreases |parts|
  {
    var p := parts[0];
    if |parts| == 1 {
      forall j | 0 <= j
        ensures !OccursAt(p, sep, j)
      {
        if j + |sep| <= |p| {
          assert (p + sep)[j..j + |sep|] == p[j..j + |sep|];
          assert !OccursAt(p + sep, sep, j);
        }
      }
    } else {
      var rest := Join(parts[1..], sep);
      var s := p + sep + rest;
      forall j | 0 <= j < |p|
        ensures !OccursAt(s, sep, j)
      {
        assert s[j..j + |sep|] == (p + sep)[j..j + |sep|];
        assert !OccursAt(p + sep, sep, j);
      }
      assert s[|p|..|p| + |sep|] == sep;
      assert OccursAt(s, sep, |p|);
      assert Contains(s, sep);
      assert Find(s, sep) == Some(|p|);
      assert s[|p| + |sep|..] == rest;
      assert s[..|p|] == p;
      SplitJoin(parts[1..], sep);
    }
  }

  /** For the `", "` separator it is enough that the fragment avoids `", "`. */
  lemma CommaSpaceFree(p: string)
    requires !Contains(p, ", ")
    ensures SepFree(p, ", ")
  {
    forall j | 0 <= j < |p|
      ensures !OccursAt(p + ", ", ", ", j)
    {
      if j + 2 <= |p| {
        assert (p + ", ")[j..j + 2] == p[j..j + 2];
        assert !OccursAt(p, ", ", j);
      } else {
        assert (p + ", ")[j + 1] == ',';
      }
    }
  }

  /** `c.toLowerCase()` for ASCII and Latin-1 capital letters. */
  function LowerChar(c: char): (r: char)
    ensures 'A' <= c <= 'Z' ==> r as int == c as int + 32
    ensures !('A' <= c <= 'Z') && !('\U{00C0}' <= c <= '\U{00DE}') ==> r == c
  {
    if 'A' <= c <= 'Z' || ('\U{00C0}' <= c <= '\U{00DE}' && c != '\U{00D7}')
    then (c as int + 32) as char
    else c
  }

  /** `s.toLowerCase()`, character by character. */
  function ToLower(s: string): (r: string)
    ensures |r| == |s|
    ensures forall i :: 0 <= i < |s| ==> r[i] == LowerChar(s[i])
  {
    seq(|s|, i requires 0 <= i < |s| => LowerChar(s[i]))
  }

  /** Lower-casing twice is lower-casing once. */
  lemma ToLowerIdempotent(s: string)
    ensures ToLower(ToLower(s)) == ToLower(s)
  {
    forall i | 0 <= i < |s|
      ensures LowerChar(LowerChar(s[i])) == LowerChar(s[i])
    {
      var c := s[i];
      if 'A' <= c <= 'Z' || ('\U{00C0}' <= c <= '\U{00DE}' && c != '\U{00D7}') {
        assert !('A' <= LowerChar(c) <= 'Z');
      }
    }
  }

  /** Every string contains the empty string. */
  lemma ContainsEmpty(s: string)
    ensures Contains(s, "")
  {
    assert OccursAt(s, "", 0);
  }
}
