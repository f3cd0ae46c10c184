/**
 * The few Python string operations the extractor applies to issuer text:
 * `sub in s`, `s.find(sub)`, the clamped slice `s[i:]` and the cut at the
 * first comma.
 */
module Text {

  /** `sub` occurs in `s` starting at index `i`. */
  predicate OccursAt(s: string, sub: string, i: int)
  {
    0 <= i && i + |sub| <= |s| && s[i..i + |sub|] == sub
  }

  /** Python's `sub in s` for strings, as a statement about positions. */
  ghost predicate Contains(s: string, sub: string)
  {
    exists i :: OccursAt(s, sub, i)
  }

  /** The first occurrence of `sub` in `s` at or after `from`, or -1. */
  function FindFrom(s: string, sub: string, from: nat): (r: int)
    decreases |s| - from
    ensures r == -1 || (from <= r && OccursAt(s, sub, r))
    ensures r == -1 ==> forall i :: from <= i ==> !OccursAt(s, sub, i)
    ensures r != -1 ==> forall i :: from <= i < r ==> !OccursAt(s, sub, i)
  {
    if from + |sub| > |s| then -1
    else if s[from..from + |sub|] == sub then from
    else FindFrom(s, sub, from + 1)
  }

  /** Python's `s.find(sub)`: the index of the first occurrence, or -1. */
  function Find(s: string, sub: string): (r: int)
    ensures r >= 0 <==> Contains(s, sub)
    ensures r >= 0 ==> OccursAt(s, sub, r) && forall i :: 0 <= i < r ==> !OccursAt(s, sub, i)
    ensures r < 0 ==> r == -1
  {
    FindFrom(s, sub, 0)
  }

  /** Python's `sub in s`, computed. */
  function In(sub: string, s: string): (b: bool)
    ensures b <==> Contains(s, sub)
  {
    Find(s, sub) >= 0
  }

  /** Python's `s[i:]` for `i >= 0`: empty once `i` runs past the end. */
  function Suffix(s: string, i: nat): (r: string)
    ensures |r| == if i <= |s| then |s| - i else 0
    ensures forall k :: 0 <= k < |r| ==> r[k] == s[i + k]
  {
    if i >= |s| then [] else s[i..]
  }

  /** A one-character occurrence is just that character. */
  lemma OccursAtChar(s: string, c: char, i: int)
    ensures OccursAt(s, [c], i) <==> 0 <= i < |s| && s[i] == c
  {
    if 0 <= i < |s| {
      assert s[i..i + 1] == [s[i]];
    }
  }

  /**
   * `t[:t.find(',')]` when `t` contains a comma, else `t` itself:
   * the longest comma-free prefix of `t`.
   */
  function UpToComma(t: string): (r: string)
    ensures r <= t
    ensures ',' !in r
    ensures r == t || t[|r|] == ','
  {
    if ',' in t then
      var p := Find(t, ",");
      FirstCommaAt(t, p);
      t[..p]
    else t
  }

  /** When `t` has a comma, `Find(t, ",")` is the index of the first one. */
  lemma FirstCommaAt(t: string, p: int)
    requires ',' in t
    requires p == Find(t, ",")
    ensures 0 <= p < |t| && t[p] == ','
    ensures forall k :: 0 <= k < p ==> t[k] != ','
  {
    var j :| 0 <= j < |t| && t[j] == ',';
    OccursAtChar(t, ',', j);
    OccursAtChar(t, ',', p);
    forall k | 0 <= k < p
      ensures t[k] != ','
    {
      OccursAtChar(t, ',', k);
    }
  }
}
