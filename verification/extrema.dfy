/**
 * Largest and smallest element of a non-empty integer sequence, the
 * reductions behind a piece's extent on an axis.
 */
module Extrema {

  function MaxOf(s: seq<int>): (m: int)
    requires |s| > 0
    ensures exists i :: 0 <= i < |s| && s[i] == m
    ensures forall i :: 0 <= i < |s| ==> s[i] <= m
  {
    if |s| == 1 then s[0]
    else
      var rest := MaxOf(s[1..]);
      assert forall i :: 1 <= i < |s| ==> s[i] == s[1..][i - 1];
      if s[0] >= rest then s[0] else rest
  }

  function MinOf(s: seq<int>): (m: int)
    requires |s| > 0
    ensures exists i :: 0 <= i < |s| && s[i] == m
    ensures forall i :: 0 <= i < |s| ==> m <= s[i]
  {
    if |s| == 1 then s[0]
    else
      var rest := MinOf(s[1..]);
      assert forall i :: 1 <= i < |s| ==> s[i] == s[1..][i - 1];
      if s[0] <= rest then s[0] else rest
  }

  /** An element that is at least every element is the maximum. */
  lemma MaxOfUnique(s: seq<int>, w: int)
    requires 0 <= w < |s| && forall i :: 0 <= i < |s| ==> s[i] <= s[w]
    ensures MaxOf(s) == s[w]
  {
    var k :| 0 <= k < |s| && s[k] == MaxOf(s);
    assert s[k] <= s[w];
  }

  /** An element that is at most every element is the minimum. */
  lemma MinOfUnique(s: seq<int>, w: int)
    requires 0 <= w < |s| && forall i :: 0 <= i < |s| ==> s[w] <= s[i]
    ensures MinOf(s) == s[w]
  {
    var k :| 0 <= k < |s| && s[k] == MinOf(s);
    assert s[w] <= s[k];
  }

  /** Adding `d` to every element adds `d` to both extremes. */
  lemma ShiftedExtrema(s: seq<int>, t: seq<int>, d: int)
    requires |s| == |t| > 0
    requires forall i :: 0 <= i < |s| ==> t[i] == s[i] + d
    ensures MaxOf(t) == MaxOf(s) + d
    ensures MinOf(t) == MinOf(s) + d
  {
    var hi :| 0 <= hi < |s| && s[hi] == MaxOf(s);
    var hj :| 0 <= hj < |t| && t[hj] == MaxOf(t);
    assert t[hi] <= MaxOf(t) && s[hj] <= MaxOf(s);
    var lo :| 0 <= lo < |s| && s[lo] == MinOf(s);
    var lj :| 0 <= lj < |t| && t[lj] == MinOf(t);
    assert MinOf(t) <= t[lo] && MinOf(s) <= s[lj];
  }

  /** Mirroring every element as `d - x` swaps the extremes. */
  lemma MirroredExtrema(s: seq<int>, t: seq<int>, d: int)
    requires |s| == |t| > 0
    requires forall i :: 0 <= i < |s| ==> t[i] == d - s[i]
    ensures MaxOf(t) == d - MinOf(s)
    ensures MinOf(t) == d - MaxOf(s)
  {
    var hi :| 0 <= hi < |s| && s[hi] == MaxOf(s);
    var hj :| 0 <= hj < |t| && t[hj] == MaxOf(t);
    var lo :| 0 <= lo < |s| && s[lo] == MinOf(s);
    var lj :| 0 <= lj < |t| && t[lj] == MinOf(t);
    assert t[lo] <= MaxOf(t) && MinOf(s) <= s[hj];
    assert MinOf(t) <= t[hi] && s[lj] <= MaxOf(s);
  }

  /** The extremes of a two-element sequence. */
  lemma ExtremaOfPair(a: int, b: int)
    ensures MaxOf([a, b]) == (if a >= b then a else b)
    ensures MinOf([a, b]) == (if a <= b then a else b)
  {
    assert [a, b][1..] == [b];
  }
}
