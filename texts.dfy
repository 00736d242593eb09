/** Python's `needle in haystack` on strings, the test the violation filter uses. */
module Texts {

  /** `needle` occurs in `hay` starting at position `i`. */
  ghost predicate OccursAt(needle: string, hay: string, i: int)
  {
    0 <= i <= |hay| - |needle| && hay[i..i + |needle|] == needle
  }

  /** Occurrences in `hay[1..]` are the occurrences in `hay` shifted left by one. */
  lemma OccursShifted(needle: string, hay: string)
    requires |hay| > 0
    ensures forall i :: 0 <= i ==> (OccursAt(needle, hay[1..], i) <==> OccursAt(needle, hay, i + 1))
  {
  }

  /** Substring test: true exactly when `needle` occurs somewhere in `hay`
      (the empty string occurs in every string). */
  function Contains(hay: string, needle: string): (r: bool)
    ensures r <==> exists i :: OccursAt(needle, hay, i)
    decreases |hay|
  {
    if |needle| <= |hay| && hay[..|needle|] == needle then
      assert OccursAt(needle, hay, 0);
      true
    else if |hay| == 0 then
      false
    else
      OccursShifted(needle, hay);
      assert !OccursAt(needle, hay, 0);
      assert forall i :: OccursAt(needle, hay, i) ==> OccursAt(needle, hay[1..], i - 1);
      Contains(hay[1..], needle)
  }
}
