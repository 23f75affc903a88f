/**
 * Exact statistics over reals: sums, means, least and greatest values,
 * and the bounds a mean keeps.
 */
module Stats {
  import opened Common

  function Sum(s: seq<real>): real
  {
    if s == [] then 0.0 else Sum(s[..|s| - 1]) + s[|s| - 1]
  }

  function Mean(s: seq<real>): real
    requires |s| > 0
  {
    Sum(s) / (|s| as real)
  }

  function SeqMin(s: seq<real>): real
    requires |s| > 0
  {
    if |s| == 1 then s[0] else MinR(s[0], SeqMin(s[1..]))
  }

  function SeqMax(s: seq<real>): real
    requires |s| > 0
  {
    if |s| == 1 then s[0] else MaxR(s[0], SeqMax(s[1..]))
  }

  /** `min` and `max` are values of the sequence, below and above all
      of them. */
  lemma {:induction false} SeqMinMax(s: seq<real>)
    requires |s| > 0
    ensures exists i :: 0 <= i < |s| && SeqMin(s) == s[i]
    ensures exists i :: 0 <= i < |s| && SeqMax(s) == s[i]
    ensures forall i :: 0 <= i < |s| ==> SeqMin(s) <= s[i] <= SeqMax(s)
  {
    if |s| > 1 {
      SeqMinMax(s[1..]);
      assert forall i :: 1 <= i < |s| ==> s[i] == s[1..][i - 1];
      var a :| 0 <= a < |s[1..]| && SeqMin(s[1..]) == s[1..][a];
      var b :| 0 <= b < |s[1..]| && SeqMax(s[1..]) == s[1..][b];
      assert s[1..][a] == s[a + 1] && s[1..][b] == s[b + 1];
      assert SeqMin(s) == s[0] || SeqMin(s) == s[a + 1];
      assert SeqMax(s) == s[0] || SeqMax(s) == s[b + 1];
    } else {
      assert SeqMin(s) == s[0] && SeqMax(s) == s[0];
    }
  }

  lemma {:induction false} SumBounds(s: seq<real>, lo: real, hi: real)
    requires forall x :: x in s ==> lo <= x <= hi
    ensures (|s| as real) * lo <= Sum(s) <= (|s| as real) * hi
  {
    if s != [] {
      var init := s[..|s| - 1];
      assert forall x :: x in init ==> x in s;
      SumBounds(init, lo, hi);
      assert s[|s| - 1] in s;
      assert (|s| as real) * lo == (|init| as real) * lo + lo;
      assert (|s| as real) * hi == (|init| as real) * hi + hi;
    }
  }

  lemma DivideBounds(lo: real, x: real, hi: real, n: real)
    requires n > 0.0 && n * lo <= x <= n * hi
    ensures lo <= x / n <= hi
  {
  }

  /** A mean of values in `[lo, hi]` is in `[lo, hi]`. */
  lemma MeanBetween(s: seq<real>, lo: real, hi: real)
    requires |s| > 0
    requires forall x :: x in s ==> lo <= x <= hi
    ensures lo <= Mean(s) <= hi
  {
    SumBounds(s, lo, hi);
    DivideBounds(lo, Sum(s), hi, |s| as real);
  }

  /** The mean lies between the least and the greatest value. */
  lemma MeanBounds(s: seq<real>)
    requires |s| > 0
    ensures SeqMin(s) <= Mean(s) <= SeqMax(s)
  {
    SeqMinMax(s);
    forall x | x in s ensures SeqMin(s) <= x <= SeqMax(s) {
      var i :| 0 <= i < |s| && s[i] == x;
    }
    MeanBetween(s, SeqMin(s), SeqMax(s));
  }

  /** A mean of non-negative values is non-negative. */
  lemma MeanNonNegative(s: seq<real>)
    requires |s| > 0
    requires forall x :: x in s ==> x >= 0.0
    ensures Mean(s) >= 0.0
  {
    MeanBounds(s);
    SeqMinMax(s);
    var i :| 0 <= i < |s| && SeqMin(s) == s[i];
    assert s[i] in s;
  }
}
