/** The parts of java.lang.String (and Java's null) that the pipeline relies on,
    as specified functions: trim, indexOf, lastIndexOf, contains, toLowerCase,
    equalsIgnoreCase and String.join. Case mapping is ASCII-only. */
module JavaStrings {

  /** A Java reference that may be null. */
  datatype Option<+T> = None | Some(value: T)

  /** A String that is neither null nor empty (`s != null && !s.isEmpty()`). */
  predicate IsPresent(s: Option<string>) {
    s.Some? && s.value != ""
  }

  /** String concatenation with `+` renders a null reference as "null". */
  function Render(s: Option<string>): string {
    if s.Some? then s.value else "null"
  }

  /** A null String read through `x != null ? x : ""`. */
  function OrEmpty(s: Option<string>): string {
    if s.Some? then s.value else ""
  }

  /** The characters String.trim removes: every code point up to U+0020. */
  predicate IsSpace(c: char) {
    c <= ' '
  }

  /** No removable character at either end. */
  predicate NoEdgeSpace(s: string) {
    s == [] || (!IsSpace(s[0]) && !IsSpace(s[|s| - 1]))
  }

  /** `s` begins with `p`. */
  predicate StartsWith(s: string, p: string) {
    |p| <= |s| && s[..|p|] == p
  }

  /** Removes the leading whitespace: the result is the suffix of `s` that
      starts at its first non-space character. */
  function TrimStart(s: string): (r: string)
    ensures |r| <= |s| && r == s[|s| - |r|..]
    ensures r == [] || !IsSpace(r[0])
    ensures forall i :: 0 <= i < |s| - |r| ==> IsSpace(s[i])
  {
    if |s| > 0 && IsSpace(s[0]) then TrimStart(s[1..]) else s
  }

  /** Removes the trailing whitespace: the result is the prefix of `s` that
      ends at its last non-space character. */
  function TrimEnd(s: string): (r: string)
    ensures |r| <= |s| && r == s[..|r|]
    ensures r == [] || !IsSpace(r[|r| - 1])
    ensures forall i :: |r| <= i < |s| ==> IsSpace(s[i])
  {
    if |s| > 0 && IsSpace(s[|s| - 1]) then TrimEnd(s[..|s| - 1]) else s
  }

  /** `r` sits in `s` at offset `k`, with only whitespace before and after
      it. */
  predicate SpaceAround(s: string, r: string, k: int) {
    0 <= k <= |s| - |r| && r == s[k..k + |r|]
    && (forall i :: 0 <= i < k ==> IsSpace(s[i]))
    && (forall i :: k + |r| <= i < |s| ==> IsSpace(s[i]))
  }

  /** String.trim. */
  function Trim(s: string): (r: string)
    ensures NoEdgeSpace(r)
    ensures |r| <= |s|
  {
    TrimEnd(TrimStart(s))
  }

  /** A prefix `r` of a suffix `tail` of `s`, with whitespace dropped before
      `tail` and after `r`, is an infix with whitespace around it. */
  lemma SpaceAroundCompose(s: string, tail: string, r: string)
    requires |tail| <= |s| && tail == s[|s| - |tail|..]
    requires forall i :: 0 <= i < |s| - |tail| ==> IsSpace(s[i])
    requires |r| <= |tail| && r == tail[..|r|]
    requires forall i :: |r| <= i < |tail| ==> IsSpace(tail[i])
    ensures SpaceAround(s, r, |s| - |tail|)
  {
    var k := |s| - |tail|;
    assert s[k..][..|r|] == s[k..k + |r|];
    forall i | k + |r| <= i < |s|
      ensures IsSpace(s[i])
    {
      assert s[i] == tail[i - k];
    }
  }

  /** Trim keeps an infix of `s`: it starts where the leading whitespace ends,
      and only whitespace lies before and after it. */
  lemma TrimIsInfix(s: string)
    ensures SpaceAround(s, Trim(s), |s| - |TrimStart(s)|)
  {
    SpaceAroundCompose(s, TrimStart(s), TrimEnd(TrimStart(s)));
  }

  /** A string with no whitespace at its ends is left alone by trim. */
  lemma TrimmedIsFixed(s: string)
    requires NoEdgeSpace(s)
    ensures Trim(s) == s
  {
  }

  /** Trimming twice is trimming once. */
  lemma TrimIdempotent(s: string)
    ensures Trim(Trim(s)) == Trim(s)
  {
    TrimmedIsFixed(Trim(s));
  }

  /** Only whitespace. */
  predicate AllSpace(s: string) {
    forall i :: 0 <= i < |s| ==> IsSpace(s[i])
  }

  /** TrimStart drops exactly a run of leading whitespace. */
  lemma TrimStartPast(a: string, rest: string)
    requires AllSpace(a) && rest != [] && !IsSpace(rest[0])
    ensures TrimStart(a + rest) == rest
  {
    var s := a + rest;
    var r := TrimStart(s);
    assert forall i :: 0 <= i < |a| ==> s[i] == a[i];
    assert s[|a|] == rest[0];
    assert |s| - |r| <= |a|;
    assert r[0] == s[|s| - |r|];
    assert r == s[|a|..];
  }

  /** TrimEnd drops exactly a run of trailing whitespace. */
  lemma TrimEndBefore(w: string, b: string)
    requires AllSpace(b) && w != [] && !IsSpace(w[|w| - 1])
    ensures TrimEnd(w + b) == w
  {
    var r := w + b;
    var t := TrimEnd(r);
    assert forall i :: |w| <= i < |r| ==> r[i] == b[i - |w|];
    assert r[|w| - 1] == w[|w| - 1];
    assert |t| >= |w|;
    assert t[|t| - 1] == r[|t| - 1];
    assert t == r[..|w|];
  }

  /** Trim strips exactly the whitespace surrounding a word that has none at
      its own ends. */
  lemma TrimSurrounded(a: string, w: string, b: string)
    requires AllSpace(a) && AllSpace(b) && w != [] && NoEdgeSpace(w)
    ensures Trim(a + w + b) == w
  {
    assert a + w + b == a + (w + b);
    TrimStartPast(a, w + b);
    TrimEndBefore(w, b);
  }

  /** Trimming a string that starts with a word `p` (no whitespace at either
      end of `p`) keeps that word at the front. */
  lemma TrimKeepsLeadingWord(s: string, p: string)
    requires StartsWith(s, p) && p != [] && NoEdgeSpace(p)
    ensures StartsWith(Trim(s), p)
  {
    assert s[0] == p[0];
    assert TrimStart(s) == s;
    var r := TrimEnd(s);
    assert s[|p| - 1] == p[|p| - 1];
    assert |p| <= |r|;
    assert r[..|p|] == s[..|r|][..|p|] == s[..|p|];
  }

  /** `p` occurs in `s` starting at index `i`. */
  predicate OccursAt(s: string, p: string, i: int) {
    0 <= i && i + |p| <= |s| && s[i..i + |p|] == p
  }

  function IndexOfFrom(s: string, p: string, from: nat): (r: int)
    ensures r == -1 || (from <= r && OccursAt(s, p, r))
    ensures r == -1 ==> forall i :: from <= i ==> !OccursAt(s, p, i)
    ensures r != -1 ==> forall i :: from <= i < r ==> !OccursAt(s, p, i)
    decreases |s| - from
  {
    if from + |p| > |s| then -1
    else if s[from..from + |p|] == p then from
    else IndexOfFrom(s, p, from + 1)
  }

  /** String.indexOf: the first index at which `p` occurs, or -1. */
  function IndexOf(s: string, p: string): (r: int)
    ensures r == -1 <==> forall i :: !OccursAt(s, p, i)
    ensures r != -1 ==> OccursAt(s, p, r) && forall i :: 0 <= i < r ==> !OccursAt(s, p, i)
  {
    IndexOfFrom(s, p, 0)
  }

  function LastIndexOfFrom(s: string, p: string, from: int): (r: int)
    ensures r == -1 || (r <= from && OccursAt(s, p, r))
    ensures forall i :: r < i <= from ==> !OccursAt(s, p, i)
    decreases from + 1
  {
    if from < 0 then -1
    else if OccursAt(s, p, from) then from
    else LastIndexOfFrom(s, p, from - 1)
  }

  /** String.lastIndexOf: the last index at which `p` occurs, or -1. */
  function LastIndexOf(s: string, p: string): (r: int)
    ensures r == -1 <==> forall i :: !OccursAt(s, p, i)
    ensures r != -1 ==> OccursAt(s, p, r)
    ensures forall i :: r < i ==> !OccursAt(s, p, i)
  {
    LastIndexOfFrom(s, p, |s| - |p|)
  }

  /** String.contains, which Java defines as `indexOf(p) >= 0`. */
  predicate Contains(s: string, p: string)
    ensures Contains(s, p) <==> exists i :: OccursAt(s, p, i)
  {
    IndexOf(s, p) >= 0
  }

  /** Character.toLowerCase, restricted to ASCII letters. */
  function LowerChar(c: char): char {
    if 'A' <= c <= 'Z' then (c as int + 32) as char else c
  }

  /** String.toLowerCase: each character mapped on its own. */
  function ToLower(s: string): (r: string)
    ensures |r| == |s|
    ensures forall i :: 0 <= i < |s| ==> r[i] == LowerChar(s[i])
  {
    seq(|s|, i requires 0 <= i < |s| => LowerChar(s[i]))
  }

  /** A string with no upper-case ASCII letter is its own lower case. */
  lemma LowerIsFixed(s: string)
    requires forall i :: 0 <= i < |s| ==> !('A' <= s[i] <= 'Z')
    ensures ToLower(s) == s
  {
  }

  /** String.equalsIgnoreCase over ASCII letters: same length and the
      characters agree after case mapping, position by position. */
  predicate EqualsIgnoreCase(a: string, b: string) {
    |a| == |b| && forall i :: 0 <= i < |a| ==> LowerChar(a[i]) == LowerChar(b[i])
  }

  /** `a.equalsIgnoreCase(b)` with a possibly null argument: a null argument
      is never equal. */
  predicate EqualsIgnoreCaseOrNull(a: string, b: Option<string>) {
    b.Some? && EqualsIgnoreCase(a, b.value)
  }

  /** Strings whose first characters differ even after case mapping are not
      equal ignoring case. */
  lemma FirstCharsDiffer(a: string, b: string)
    requires a != [] && b != [] && LowerChar(a[0]) != LowerChar(b[0])
    ensures !EqualsIgnoreCase(a, b)
  {
  }

  /** With ASCII case mapping, comparing ignoring case is comparing the
      lower-cased strings, which is how a single selection is tested
      (`toLowerCase()` then `equals`). */
  lemma EqualsIgnoreCaseIsLowerEquality(a: string, b: string)
    ensures EqualsIgnoreCase(a, b) <==> ToLower(a) == ToLower(b)
  {
    if ToLower(a) == ToLower(b) {
      assert forall i :: 0 <= i < |a| ==> ToLower(a)[i] == ToLower(b)[i];
    }
  }

  /** The summed lengths of some strings. */
  function TotalLength(parts: seq<string>): nat {
    if parts == [] then 0 else |parts[0]| + TotalLength(parts[1..])
  }

  /** String.join: the parts in order with one separator between each two, so
      it begins with the first part. */
  function Join(sep: string, parts: seq<string>): (r: string)
    ensures parts != [] ==> StartsWith(r, parts[0])
  {
    if parts == [] then ""
    else if |parts| == 1 then parts[0]
    else parts[0] + sep + Join(sep, parts[1..])
  }

  /** A join is as long as its parts together plus one separator fewer than
      there are parts. */
  lemma {:induction false} JoinLength(sep: string, parts: seq<string>)
    ensures |Join(sep, parts)| == TotalLength(parts) + if parts == [] then 0 else (|parts| - 1) * |sep|
  {
    if |parts| > 1 {
      JoinLength(sep, parts[1..]);
    }
  }

  /** Joins of two and of three parts, written out. */
  lemma JoinShort(sep: string, x: string, y: string, z: string)
    ensures Join(sep, [x, y]) == x + sep + y
    ensures Join(sep, [x, y, z]) == x + sep + y + sep + z
  {
    assert [x, y][1..] == [y];
    assert [x, y, z][1..] == [y, z];
    assert Join(sep, [y, z]) == y + sep + z by { assert [y, z][1..] == [z]; }
  }

  /** Appending one more part to a join: the separator goes in front of it
      exactly when something was joined before, which is what a
      StringBuilder that checks `length() > 0` before appending does. */
  lemma {:induction false} JoinSnoc(sep: string, parts: seq<string>, x: string)
    ensures Join(sep, parts + [x]) == if parts == [] then x else Join(sep, parts) + sep + x
  {
    if |parts| == 1 {
      assert parts + [x] == [parts[0], x];
    } else if |parts| > 1 {
      assert (parts + [x])[1..] == parts[1..] + [x];
      JoinSnoc(sep, parts[1..], x);
    }
  }

  /** A concatenation starts with its left part. */
  lemma ConcatStartsWith(a: string, b: string)
    ensures StartsWith(a + b, a)
  {
    assert (a + b)[..|a|] == a;
  }

  /** A prefix stays a prefix when more is appended. */
  lemma StartsWithAppend(s: string, p: string, t: string)
    requires StartsWith(s, p)
    ensures StartsWith(s + t, p)
  {
    assert (s + t)[..|p|] == s[..|p|];
  }

  /** An occurrence stays where it is when more is appended. */
  lemma OccursAtAppend(s: string, p: string, i: int, t: string)
    requires OccursAt(s, p, i)
    ensures OccursAt(s + t, p, i)
  {
    assert (s + t)[i..i + |p|] == s[i..i + |p|];
  }

  /** The right part of a concatenation occurs right after the left part. */
  lemma ConcatOccursEnd(a: string, b: string)
    ensures OccursAt(a + b, b, |a|)
  {
    assert (a + b)[|a|..|a| + |b|] == b;
  }

  /** The middle part of a concatenation occurs right after the left part. */
  lemma ConcatOccurs(a: string, b: string, c: string)
    ensures OccursAt(a + b + c, b, |a|)
  {
    assert (a + b + c)[|a|..|a| + |b|] == b;
  }
}
