/**
 * The permission list of a report: the texts of the permission tags, each
 * kept once, in the order of its first appearance.
 */
module Permissions {

  predicate Distinct(s: seq<string>)
  {
    forall a, b :: 0 <= a < b < |s| ==> s[a] != s[b]
  }

  /** The position of the first appearance of `x` in `s`. */
  function FirstIndex(s: seq<string>, x: string): (r: nat)
    requires x in s
    ensures r < |s| && s[r] == x
    ensures forall j :: 0 <= j < r ==> s[j] != x
  {
    if s[0] == x then 0 else 1 + FirstIndex(s[1..], x)
  }

  /**
   * The loop that appends each tag text not yet in `permisos`. The result
   * holds every text exactly once, and earlier first appearances come first.
   */
  method Deduplicate(texts: seq<string>) returns (permisos: seq<string>)
    ensures Distinct(permisos)
    ensures forall x :: x in permisos <==> x in texts
    ensures forall a, b :: 0 <= a < b < |permisos| ==>
      FirstIndex(texts, permisos[a]) < FirstIndex(texts, permisos[b])
  {
    permisos := [];
    for i := 0 to |texts|
      invariant forall x :: x in permisos <==> x in texts[..i]
      invariant forall a :: 0 <= a < |permisos| ==> permisos[a] in texts
      invariant Distinct(permisos)
      invariant forall a :: 0 <= a < |permisos| ==> FirstIndex(texts, permisos[a]) < i
      invariant forall a, b :: 0 <= a < b < |permisos| ==>
        FirstIndex(texts, permisos[a]) < FirstIndex(texts, permisos[b])
    {
      assert texts[..i + 1] == texts[..i] + [texts[i]];
      if texts[i] !in permisos {
        assert FirstIndex(texts, texts[i]) == i;
        permisos := permisos + [texts[i]];
      }
    }
    assert texts[..|texts|] == texts;
  }
}
