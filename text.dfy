/**
 * The JavaScript string operations the core relies on: toLowerCase, includes,
 * startsWith, trim, and a first-occurrence case-insensitive replace by "".
 * Lower-casing is modelled for ASCII letters only; every other character is
 * left as it is.
 */
module Text {
  import opened Wrappers

  function LowerChar(c: char): (r: char)
    ensures 'A' <= c <= 'Z' ==> 'a' <= r <= 'z'
    ensures !('A' <= c <= 'Z') ==> r == c
  {
    if 'A' <= c <= 'Z' then (c as int + 32) as char else c
  }

  /** String.prototype.toLowerCase, on ASCII letters. */
  function Lower(s: string): (r: string)
    ensures |r| == |s|
    ensures forall i :: 0 <= i < |s| ==> r[i] == LowerChar(s[i])
  {
    seq(|s|, i requires 0 <= i < |s| => LowerChar(s[i]))
  }

  lemma LowerIdempotent(s: string)
    ensures Lower(Lower(s)) == Lower(s)
  {
  }

  predicate OccursAt(s: string, t: string, i: int) {
    0 <= i && i + |t| <= |s| && s[i..i + |t|] == t
  }

  /** String.prototype.includes: t occurs somewhere in s. */
  predicate Contains(s: string, t: string) {
    exists i | 0 <= i <= |s| - |t| :: OccursAt(s, t, i)
  }

  /** A case-insensitive substring test, as a RegExp built from t with the "i" flag. */
  predicate ContainsCI(s: string, t: string) {
    Contains(Lower(s), Lower(t))
  }

  /** String.prototype.startsWith. */
  predicate StartsWith(s: string, p: string) {
    |p| <= |s| && s[..|p|] == p
  }

  lemma ContainsEmpty(s: string)
    ensures Contains(s, [])
  {
    assert OccursAt(s, [], 0);
  }

  lemma ContainsSelf(s: string)
    ensures Contains(s, s)
  {
    assert OccursAt(s, s, 0);
  }

  lemma ContainsCISelf(s: string)
    ensures ContainsCI(s, s)
  {
    ContainsSelf(Lower(s));
  }

  lemma ContainsNotLonger(s: string, t: string)
    requires Contains(s, t)
    ensures |t| <= |s|
  {
  }

  /** A string cannot contain t when one of t's characters never occurs in it. */
  lemma AbsentChar(s: string, t: string, j: nat)
    requires j < |t| && t[j] !in s
    ensures !Contains(s, t)
  {
  }

  /** The first index at or after `from` where t occurs in s. */
  function IndexFrom(s: string, t: string, from: nat): (r: Option<nat>)
    decreases |s| - from
    ensures r.Some? ==> from <= r.value && OccursAt(s, t, r.value)
    ensures r.Some? ==> forall j :: from <= j < r.value ==> !OccursAt(s, t, j)
    ensures r.None? ==> forall j :: from <= j ==> !OccursAt(s, t, j)
  {
    if from + |t| > |s| then None
    else if s[from..from + |t|] == t then Some(from)
    else IndexFrom(s, t, from + 1)
  }

  /** String.prototype.indexOf, with "not found" as None. */
  function IndexOf(s: string, t: string): (r: Option<nat>)
    ensures r.None? <==> !Contains(s, t)
    ensures r.Some? ==> OccursAt(s, t, r.value)
    ensures r.Some? ==> forall j :: 0 <= j < r.value ==> !OccursAt(s, t, j)
  {
    IndexFrom(s, t, 0)
  }

  /** The index found by IndexOf is the one that occurs first. */
  lemma IndexOfIs(s: string, t: string, i: nat)
    requires OccursAt(s, t, i)
    requires forall j :: 0 <= j < i ==> !OccursAt(s, t, j)
    ensures IndexOf(s, t) == Some(i)
  {
    var r := IndexOf(s, t);
    assert r.Some?;
    assert !(r.value < i) && !(i < r.value);
  }

  /**
   * s.replace(/t/i, ""): remove the first case-insensitive occurrence of t, or
   * leave s alone when there is none. The regular expression has no "g" flag,
   * so later occurrences stay.
   */
  function RemoveFirstCI(s: string, t: string): (r: string)
    ensures !ContainsCI(s, t) ==> r == s
    ensures ContainsCI(s, t) ==> |r| == |s| - |t| && exists i :: FirstOccurrenceCI(s, t, i) && r == s[..i] + s[i + |t|..]
  {
    match IndexOf(Lower(s), Lower(t))
    case None => s
    case Some(i) =>
      assert FirstOccurrenceCI(s, t, i);
      s[..i] + s[i + |t|..]
  }

  ghost predicate FirstOccurrenceCI(s: string, t: string, i: int) {
    OccursAt(Lower(s), Lower(t), i) && forall j :: 0 <= j < i ==> !OccursAt(Lower(s), Lower(t), j)
  }

  /** The characters String.prototype.trim removes: white space and line terminators. */
  predicate IsSpace(c: char) {
    || c == '\t' || c == '\n' || c == '\U{000B}' || c == '\U{000C}' || c == '\r' || c == ' '
    || c == '\U{00A0}' || c == '\U{1680}' || ('\U{2000}' <= c <= '\U{200A}')
    || c == '\U{2028}' || c == '\U{2029}' || c == '\U{202F}' || c == '\U{205F}'
    || c == '\U{3000}' || c == '\U{FEFF}'
  }

  predicate AllSpace(s: string) {
    forall i :: 0 <= i < |s| ==> IsSpace(s[i])
  }

  /** The index of the first character at or after i that is not white space. */
  function SkipSpaceFrom(s: string, i: nat): (k: nat)
    requires i <= |s|
    decreases |s| - i
    ensures i <= k <= |s|
    ensures forall j :: i <= j < k ==> IsSpace(s[j])
    ensures k < |s| ==> !IsSpace(s[k])
  {
    if i < |s| && IsSpace(s[i]) then SkipSpaceFrom(s, i + 1) else i
  }

  /** The end of s once the white space before index j is dropped. */
  function SkipSpaceBack(s: string, j: nat): (k: nat)
    requires j <= |s|
    ensures k <= j
    ensures forall m :: k <= m < j ==> IsSpace(s[m])
    ensures 0 < k ==> !IsSpace(s[k - 1])
  {
    if 0 < j && IsSpace(s[j - 1]) then SkipSpaceBack(s, j - 1) else j
  }

  /** String.prototype.trim. */
  function Trim(s: string): (r: string)
    ensures r == [] <==> AllSpace(s)
    ensures r != [] ==> !IsSpace(r[0]) && !IsSpace(r[|r| - 1])
    ensures exists a, b :: 0 <= a <= b <= |s| && r == s[a..b] && AllSpace(s[..a]) && AllSpace(s[b..])
  {
    var a := SkipSpaceFrom(s, 0);
    if a == |s| then
      assert s[|s|..|s|] == [];
      []
    else
      var b := SkipSpaceBack(s, |s|);
      assert s[a..b] == s[a..b];
      s[a..b]
  }

  /** Trimming a string with no white space at either end changes nothing. */
  lemma TrimNoSpace(s: string)
    requires s != [] ==> !IsSpace(s[0]) && !IsSpace(s[|s| - 1])
    ensures Trim(s) == s
  {
    if s != [] {
      assert SkipSpaceFrom(s, 0) == 0;
      assert SkipSpaceBack(s, |s|) == |s|;
    }
  }
}
