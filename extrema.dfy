/** Math.min and Math.max applied to a spread, non-empty list of numbers. */
module Extrema {

  /** `Math.min(...s)`. */
  function MinOf(s: seq<real>): real
    requires |s| > 0
  {
    if |s| == 1 then s[0]
    else
      var m := MinOf(s[1..]);
      if s[0] < m then s[0] else m
  }

  /** `Math.max(...s)`. */
  function MaxOf(s: seq<real>): real
    requires |s| > 0
  {
    if |s| == 1 then s[0]
    else
      var m := MaxOf(s[1..]);
      if s[0] > m then s[0] else m
  }

  /** The minimum is a lower bound of `s` that `s` contains. */
  lemma {:induction false} MinOfBounds(s: seq<real>)
    requires |s| > 0
    ensures forall k :: 0 <= k < |s| ==> MinOf(s) <= s[k]
    ensures exists k :: 0 <= k < |s| && s[k] == MinOf(s)
  {
    if |s| == 1 {
      assert s[0] == MinOf(s);
    } else {
      MinOfBounds(s[1..]);
      assert forall k :: 1 <= k < |s| ==> s[k] == s[1..][k - 1];
      var w :| 0 <= w < |s| - 1 && s[1..][w] == MinOf(s[1..]);
      if s[0] < MinOf(s[1..]) {
        assert s[0] == MinOf(s);
      } else {
        assert s[w + 1] == MinOf(s);
      }
    }
  }

  /** The maximum is an upper bound of `s` that `s` contains. */
  lemma {:induction false} MaxOfBounds(s: seq<real>)
    requires |s| > 0
    ensures forall k :: 0 <= k < |s| ==> s[k] <= MaxOf(s)
    ensures exists k :: 0 <= k < |s| && s[k] == MaxOf(s)
  {
    if |s| == 1 {
      assert s[0] == MaxOf(s);
    } else {
      MaxOfBounds(s[1..]);
      assert forall k :: 1 <= k < |s| ==> s[k] == s[1..][k - 1];
      var w :| 0 <= w < |s| - 1 && s[1..][w] == MaxOf(s[1..]);
      if s[0] > MaxOf(s[1..]) {
        assert s[0] == MaxOf(s);
      } else {
        assert s[w + 1] == MaxOf(s);
      }
    }
  }

  /** A lower bound that `s` contains is its minimum. */
  lemma MinOfIs(s: seq<real>, m: real, w: nat)
    requires w < |s| && s[w] == m
    requires forall k :: 0 <= k < |s| ==> m <= s[k]
    ensures MinOf(s) == m
  {
    MinOfBounds(s);
    var k :| 0 <= k < |s| && s[k] == MinOf(s);
  }

  /** An upper bound that `s` contains is its maximum. */
  lemma MaxOfIs(s: seq<real>, m: real, w: nat)
    requires w < |s| && s[w] == m
    requires forall k :: 0 <= k < |s| ==> s[k] <= m
    ensures MaxOf(s) == m
  {
    MaxOfBounds(s);
    var k :| 0 <= k < |s| && s[k] == MaxOf(s);
  }

  /** f preserves the strict order of the reals. */
  ghost predicate Increasing(f: real -> real) {
    forall u, v :: u < v <==> f(u) < f(v)
  }

  /** Applying an increasing map to every value applies it to the minimum and the maximum. */
  lemma {:induction false} IncreasingExtrema(s: seq<real>, s': seq<real>, f: real -> real)
    requires |s| == |s'| > 0 && Increasing(f)
    requires forall k :: 0 <= k < |s| ==> s'[k] == f(s[k])
    ensures MinOf(s') == f(MinOf(s)) && MaxOf(s') == f(MaxOf(s))
  {
    if |s| > 1 {
      var t, t' := s[1..], s'[1..];
      assert forall k :: 0 <= k < |t| ==> t'[k] == f(t[k]);
      IncreasingExtrema(t, t', f);
    }
  }
}
