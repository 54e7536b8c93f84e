/**
 * The JavaScript string primitives the modelled code calls (`startsWith`,
 * `endsWith`, `split`, `join`, `trim`, `toLowerCase`), written out on
 * `seq<char>`.
 */
module Strings {
  import opened Wrappers

  predicate StartsWith(s: string, prefix: string) {
    |prefix| <= |s| && s[..|prefix|] == prefix
  }

  predicate EndsWith(s: string, suffix: string) {
    |suffix| <= |s| && s[|s| - |suffix|..] == suffix
  }

  /** `s.split(c)`: the pieces between the occurrences of `c`, at least one. */
  function SplitOn(s: string, c: char): (r: seq<string>)
    ensures |r| >= 1
    ensures forall i :: 0 <= i < |r| ==> c !in r[i]
    ensures JoinWith(r, c) == s
  {
    if s == [] then [""]
    else
      var rest := SplitOn(s[1..], c);
      if s[0] == c then
        assert JoinWith([""] + rest, c) == "" + [c] + JoinWith(rest, c);
        [""] + rest
      else
        JoinExtendFirst([s[0]], rest, c);
        [[s[0]] + rest[0]] + rest[1..]
  }

  /** Prefixing the first piece prefixes the join. */
  lemma JoinExtendFirst(p: string, parts: seq<string>, c: char)
    requires |parts| >= 1
    ensures JoinWith([p + parts[0]] + parts[1..], c) == p + JoinWith(parts, c)
  {
    var q := [p + parts[0]] + parts[1..];
    assert q[1..] == parts[1..];
  }

  /** `parts.join(c)`. */
  function JoinWith(parts: seq<string>, c: char): string {
    if |parts| == 0 then ""
    else if |parts| == 1 then parts[0]
    else parts[0] + [c] + JoinWith(parts[1..], c)
  }

  lemma {:induction false} SplitOnNoSeparator(s: string, c: char)
    requires c !in s
    ensures SplitOn(s, c) == [s]
  {
    if s != [] {
      SplitOnNoSeparator(s[1..], c);
      assert [s[0]] + s[1..] == s;
    }
  }

  lemma {:induction false} SplitOnConcat(a: string, c: char, b: string)
    ensures SplitOn(a + [c] + b, c) == SplitOn(a, c) + SplitOn(b, c)
  {
    var x := a + [c] + b;
    if a == [] {
      assert x == [c] + b && x[1..] == b;
    } else {
      assert x[0] == a[0] && x[1..] == a[1..] + [c] + b;
      SplitOnConcat(a[1..], c, b);
      if a[0] != c {
        ExtendFirstPiece([a[0]], SplitOn(a[1..], c), SplitOn(b, c));
      }
    }
  }

  /** Prefixing the first piece commutes with appending more pieces. */
  lemma ExtendFirstPiece(p: string, ra: seq<string>, rb: seq<string>)
    requires |ra| >= 1
    ensures [p + (ra + rb)[0]] + (ra + rb)[1..] == ([p + ra[0]] + ra[1..]) + rb
  {
    assert (ra + rb)[0] == ra[0] && (ra + rb)[1..] == ra[1..] + rb;
  }

  /** Splitting a join of separator-free pieces gives the pieces back. */
  lemma {:induction false} SplitOnJoin(parts: seq<string>, c: char)
    requires |parts| >= 1
    requires forall i :: 0 <= i < |parts| ==> c !in parts[i]
    ensures SplitOn(JoinWith(parts, c), c) == parts
  {
    if |parts| == 1 {
      SplitOnNoSeparator(parts[0], c);
    } else {
      SplitOnJoin(parts[1..], c);
      SplitOnConcat(parts[0], c, JoinWith(parts[1..], c));
      SplitOnNoSeparator(parts[0], c);
      assert parts == [parts[0]] + parts[1..];
    }
  }

  /** `pat` occurs in `s` at position `j`. */
  predicate OccursAt(s: string, pat: string, j: nat) {
    j + |pat| <= |s| && s[j..j + |pat|] == pat
  }

  /** `s.indexOf(pat)`: the first position where `pat` occurs, if any. */
  function IndexOf(s: string, pat: string): (r: Option<nat>)
    ensures r.Some? ==> OccursAt(s, pat, r.value) && forall j :: 0 <= j < r.value ==> !OccursAt(s, pat, j)
    ensures r.None? ==> forall j :: 0 <= j <= |s| ==> !OccursAt(s, pat, j)
    decreases |s|
  {
    if OccursAt(s, pat, 0) then Some(0)
    else if |s| <= |pat| then None
    else
      var r := IndexOf(s[1..], pat);
      assert forall j :: 1 <= j <= |s| ==> (OccursAt(s, pat, j) <==> OccursAt(s[1..], pat, j - 1)) by {
        forall j | 1 <= j <= |s| ensures OccursAt(s, pat, j) <==> OccursAt(s[1..], pat, j - 1) {
          if j + |pat| <= |s| {
            assert s[j..j + |pat|] == s[1..][j - 1..j - 1 + |pat|];
          }
        }
      }
      if r.Some? then Some(r.value + 1) else None
  }

  /** The first occurrence is what `indexOf` finds. */
  lemma IndexOfFirst(s: string, pat: string, k: nat)
    requires OccursAt(s, pat, k) && forall j :: 0 <= j < k ==> !OccursAt(s, pat, j)
    ensures IndexOf(s, pat) == Some(k)
  {
  }

  /** A pattern whose first character does not occur before it is found there. */
  lemma {:induction false} IndexOfAfter(t: string, pat: string, rest: string)
    requires pat != [] && pat[0] !in t
    ensures IndexOf(t + pat + rest, pat) == Some(|t|)
    decreases |t|
  {
    var s := t + pat + rest;
    if t == [] {
      assert s[..|pat|] == pat;
    } else {
      assert s[0] == t[0] && s[..|pat|][0] == s[0];
      assert !OccursAt(s, pat, 0);
      assert s[1..] == t[1..] + pat + rest;
      IndexOfAfter(t[1..], pat, rest);
    }
  }

  /**
   * `s.replace(pat, rep)` with a string pattern: the first occurrence
   * `s.indexOf(pat)` finds is replaced (an empty pattern is found at 0).
   */
  function ReplaceFirst(s: string, pat: string, rep: string): string {
    match IndexOf(s, pat)
    case None => s
    case Some(k) => s[..k] + rep + s[k + |pat|..]
  }

  /** The characters JavaScript's `\s` and `trim` treat as white space. */
  predicate IsSpace(ch: char) {
    // tab, line feed, vertical tab, form feed and carriage return are '\t'..'\r'
    if ch < '\U{A0}' then ch == ' ' || '\t' <= ch <= '\r'
    else
      || ch == '\U{A0}' || ch == '\U{1680}' || ('\U{2000}' <= ch <= '\U{200A}')
      || ch == '\U{2028}' || ch == '\U{2029}' || ch == '\U{202F}' || ch == '\U{205F}'
      || ch == '\U{3000}' || ch == '\U{FEFF}'
  }

  /** `s.trimStart()`: a suffix of `s` that does not begin with white space. */
  function TrimStart(s: string): (r: string)
    ensures |r| <= |s| && r == s[|s| - |r|..]
    ensures r == [] || !IsSpace(r[0])
    ensures forall i :: 0 <= i < |s| - |r| ==> IsSpace(s[i])
  {
    if s != [] && IsSpace(s[0]) then TrimStart(s[1..]) else s
  }

  /** `s.trimEnd()`: a prefix of `s` that does not end with white space. */
  function TrimEnd(s: string): (r: string)
    ensures |r| <= |s| && r == s[..|r|]
    ensures r == [] || !IsSpace(r[|r| - 1])
    ensures forall i :: |r| <= i < |s| ==> IsSpace(s[i])
  {
    if s != [] && IsSpace(s[|s| - 1]) then TrimEnd(s[..|s| - 1]) else s
  }

  /** `r` is `s[a..a + |r|]`, and everything before and after it is white space. */
  predicate CutAt(s: string, r: string, a: nat) {
    && a + |r| <= |s| && r == s[a..a + |r|]
    && (forall i :: 0 <= i < a ==> IsSpace(s[i]))
    && (forall i :: a + |r| <= i < |s| ==> IsSpace(s[i]))
  }

  /** `s.trim()`: the part of `s` between its leading and trailing white space. */
  function Trim(s: string): (r: string)
    ensures |r| <= |s|
    ensures r == [] || (!IsSpace(r[0]) && !IsSpace(r[|r| - 1]))
  {
    var t := TrimStart(s);
    var r := TrimEnd(t);
    assert r != [] ==> r[0] == t[0];
    r
  }

  /** `s.trim()` is a slice of `s`, and only white space is cut from either end. */
  lemma TrimCut(s: string)
    ensures exists a: nat :: CutAt(s, Trim(s), a)
  {
    var t := TrimStart(s);
    TrimCuts(s, t, TrimEnd(t));
    assert Trim(s) == TrimEnd(t);
  }

  /** A prefix of a suffix of `s`, both cut at white space, is a slice cut at white space. */
  lemma TrimCuts(s: string, t: string, r: string)
    requires |t| <= |s| && t == s[|s| - |t|..] && forall i :: 0 <= i < |s| - |t| ==> IsSpace(s[i])
    requires |r| <= |t| && r == t[..|r|] && forall i :: |r| <= i < |t| ==> IsSpace(t[i])
    ensures exists a: nat :: CutAt(s, r, a)
  {
    var a := |s| - |t|;
    assert r == s[a..a + |r|];
    forall i | a + |r| <= i < |s| ensures IsSpace(s[i]) {
      assert s[i] == t[i - a];
    }
    assert CutAt(s, r, a);
  }

  /** Every character of `s.trim()` is one of `s`, so a property of all of them carries over. */
  lemma TrimKeeps(s: string, p: char -> bool)
    requires forall i :: 0 <= i < |s| ==> p(s[i])
    ensures forall i :: 0 <= i < |Trim(s)| ==> p(Trim(s)[i])
  {
    var t := TrimStart(s);
    SuffixKeeps(s, t, p);
    PrefixKeeps(t, TrimEnd(t), p);
    assert Trim(s) == TrimEnd(t);
  }

  lemma SuffixKeeps(s: string, t: string, p: char -> bool)
    requires |t| <= |s| && t == s[|s| - |t|..]
    requires forall i :: 0 <= i < |s| ==> p(s[i])
    ensures forall i :: 0 <= i < |t| ==> p(t[i])
  {
    forall i | 0 <= i < |t| ensures p(t[i]) {
      assert t[i] == s[|s| - |t| + i];
    }
  }

  lemma PrefixKeeps(s: string, t: string, p: char -> bool)
    requires |t| <= |s| && t == s[..|t|]
    requires forall i :: 0 <= i < |s| ==> p(s[i])
    ensures forall i :: 0 <= i < |t| ==> p(t[i])
  {
    forall i | 0 <= i < |t| ensures p(t[i]) {
      assert t[i] == s[i];
    }
  }

  /** Leading white space already dropped does not change `trim`. */
  lemma {:induction false} TrimDropSpaces(s: string, n: nat)
    requires n <= |s| && forall i :: 0 <= i < n ==> IsSpace(s[i])
    ensures Trim(s[n..]) == Trim(s)
    decreases n
  {
    if n > 0 {
      assert s[1..][n - 1..] == s[n..];
      TrimDropSpaces(s[1..], n - 1);
    }
  }

  /** `s.toLowerCase()` on the ASCII letters. */
  function LowerChar(ch: char): (r: char)
    ensures 'A' <= ch <= 'Z' ==> r as int == ch as int + 32
    ensures !('A' <= ch <= 'Z') ==> r == ch
  {
    if 'A' <= ch <= 'Z' then (ch as int + 32) as char else ch
  }

  function Lower(s: string): (r: string)
    ensures |r| == |s|
    ensures forall i :: 0 <= i < |s| ==> r[i] == LowerChar(s[i])
  {
    if s == [] then [] else [LowerChar(s[0])] + Lower(s[1..])
  }
}
