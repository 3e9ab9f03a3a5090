/**
 * The wave measures of the sensitivity analysis, taken on the hospital
 * series of a run: the amplitude (the peak), its error, the full width at
 * half maximum and its error. Indexing past the error series, like taking
 * the peak of an empty series, is an error and gives no value.
 */
module SensitivityAnalysis {
  import opened Numerics

  /** The largest entry of a series; an empty series has none. */
  function Amplitude(a: seq<real>): (r: Option<real>)
    ensures r.Some? <==> |a| > 0
    ensures r.Some? ==> forall i :: 0 <= i < |a| ==> a[i] <= r.value
    ensures r.Some? ==> exists i :: 0 <= i < |a| && a[i] == r.value
  {
    if |a| == 0 then None
    else if |a| == 1 then Some(a[0])
    else
      var n := |a| - 1;
      var m := Amplitude(a[..n]).value;
      Some(if a[n] > m then a[n] else m)
  }

  /** The first position of the largest entry of a non-empty series. */
  function ArgMax(a: seq<real>): (r: nat)
    requires |a| > 0
    ensures r < |a|
    ensures forall i :: 0 <= i < |a| ==> a[i] <= a[r]
    ensures forall i :: 0 <= i < r ==> a[i] < a[r]
  {
    if |a| == 1 then 0
    else
      var n := |a| - 1;
      var j := ArgMax(a[..n]);
      if a[n] > a[j] then n else j
  }

  /** The peak is the entry at the first position of the maximum. */
  lemma AmplitudeAtArgMax(a: seq<real>)
    requires |a| > 0
    ensures Amplitude(a) == Some(a[ArgMax(a)])
  {
    var r := Amplitude(a).value;
    var i :| 0 <= i < |a| && a[i] == r;
    assert a[i] <= a[ArgMax(a)];
  }

  /** The position of the first entry at least `h`, or the length if there is none. */
  function Search(a: seq<real>, h: real): (r: nat)
    ensures r <= |a|
    ensures forall i :: 0 <= i < r ==> a[i] < h
    ensures r < |a| ==> a[r] >= h
  {
    if |a| == 0 then 0
    else if a[0] >= h then 0
    else 1 + Search(a[1..], h)
  }

  /**
   * The first position where the series is at least `h`, as the position
   * of the first maximum of the boolean mask: when no entry qualifies the
   * mask is all false and its first maximum is position 0.
   */
  function FirstAtLeast(a: seq<real>, h: real): (r: nat)
    ensures |a| > 0 ==> r < |a|
  {
    var i := Search(a, h);
    if i < |a| then i else 0
  }

  function Reverse(a: seq<real>): (r: seq<real>)
    ensures |r| == |a|
    ensures forall i :: 0 <= i < |a| ==> r[i] == a[|a| - 1 - i]
  {
    if |a| == 0 then [] else Reverse(a[1..]) + [a[0]]
  }

  /** The last position where the series is at least `h`, found on the reversed mask. */
  function LastAtLeast(a: seq<real>, h: real): (r: int)
    ensures |a| > 0 ==> 0 <= r < |a|
  {
    |a| - 1 - FirstAtLeast(Reverse(a), h)
  }

  /** Half the peak of a non-empty series. */
  function HalfMax(a: seq<real>): real
    requires |a| > 0
  {
    0.5 * Amplitude(a).value
  }

  /** The number of positions from the first to the last entry at half the peak or above. */
  function Fwhm(a: seq<real>): (r: Option<int>)
    ensures r.Some? <==> |a| > 0
  {
    if |a| == 0 then None
    else Some(LastAtLeast(a, HalfMax(a)) - FirstAtLeast(a, HalfMax(a)))
  }

  /**
   * When some entry reaches `h`, the two searches find the first and the
   * last of them: every entry before the first and after the last is below
   * `h`.
   */
  lemma {:induction false} CrossingsOfLevel(a: seq<real>, h: real, k: nat)
    requires k < |a| && a[k] >= h
    ensures FirstAtLeast(a, h) <= k <= LastAtLeast(a, h) < |a|
    ensures a[FirstAtLeast(a, h)] >= h && a[LastAtLeast(a, h)] >= h
    ensures forall i :: 0 <= i < FirstAtLeast(a, h) ==> a[i] < h
    ensures forall i :: LastAtLeast(a, h) < i < |a| ==> a[i] < h
  {
    var r := Reverse(a);
    var j := Search(r, h);
    assert r[|a| - 1 - k] == a[k];
    assert j <= |a| - 1 - k;
    forall i | LastAtLeast(a, h) < i < |a|
      ensures a[i] < h
    {
      assert r[|a| - 1 - i] == a[i];
    }
  }

  /**
   * For a series with a non-negative peak the width is bracketed around
   * the peak: first <= argmax <= last, so the width is never negative, the
   * two ends are at half the peak or above and everything outside them below.
   */
  lemma FwhmBracketsPeak(a: seq<real>)
    requires |a| > 0 && Amplitude(a).value >= 0.0
    ensures var first, last := FirstAtLeast(a, HalfMax(a)), LastAtLeast(a, HalfMax(a));
            first <= ArgMax(a) <= last < |a| &&
            Fwhm(a).value == last - first >= 0 &&
            a[first] >= HalfMax(a) && a[last] >= HalfMax(a) &&
            (forall i :: 0 <= i < first ==> a[i] < HalfMax(a)) &&
            (forall i :: last < i < |a| ==> a[i] < HalfMax(a))
  {
    AmplitudeAtArgMax(a);
    CrossingsOfLevel(a, HalfMax(a), ArgMax(a));
  }

  /**
   * A series whose peak is negative has no entry at half the peak (which
   * lies above the peak), so both masks are all false and the width is the
   * whole series less one.
   */
  lemma NegativePeakSpansSeries(a: seq<real>)
    requires |a| > 0 && Amplitude(a).value < 0.0
    ensures Fwhm(a) == Some(|a| - 1)
  {
    var h := HalfMax(a);
    NothingReaches(a, h);
    NothingReaches(Reverse(a), h);
  }

  /** A series with every entry below `h` has no entry at least `h`. */
  lemma {:induction false} NothingReaches(a: seq<real>, h: real)
    requires forall i :: 0 <= i < |a| ==> a[i] < h
    ensures Search(a, h) == |a|
  {
    if |a| > 0 {
      NothingReaches(a[1..], h);
    }
  }

  /**
   * The error series at the first position of the peak; none for an empty
   * series or an error series too short to be indexed there.
   */
  function AmplitudeError(a: seq<real>, errorLow: seq<real>): (r: Option<real>)
    ensures r.Some? <==> |a| > 0 && ArgMax(a) < |errorLow|
    ensures r.Some? ==>
              exists i :: 0 <= i < |a| && i < |errorLow| && r.value == errorLow[i] &&
                          Some(a[i]) == Amplitude(a) && forall j :: 0 <= j < i ==> a[j] < a[i]
  {
    if |a| == 0 then None
    else
      var i := ArgMax(a);
      AmplitudeAtArgMax(a);
      if i < |errorLow| then Some(errorLow[i]) else None
  }

  /**
   * The mean of the error series at the two ends of the width; none for
   * an empty series or when either end falls outside the error series.
   */
  function FwhmError(a: seq<real>, errorLow: seq<real>): (r: Option<real>)
    ensures r.Some? ==>
              (|a| > 0 &&
               var first, last := FirstAtLeast(a, HalfMax(a)), LastAtLeast(a, HalfMax(a));
               0 <= last < |errorLow| && first < |errorLow| &&
               Min2(errorLow[first], errorLow[last]) <= r.value <= Max2(errorLow[first], errorLow[last]) &&
               r.value - errorLow[first] == errorLow[last] - r.value)
    ensures |a| > 0 && |errorLow| >= |a| ==> r.Some?
  {
    if |a| == 0 then None
    else
      var h := HalfMax(a);
      var first, last := FirstAtLeast(a, h), LastAtLeast(a, h);
      if first < |errorLow| && 0 <= last < |errorLow| then
        Some((errorLow[first] + errorLow[last]) / 2.0)
      else
        None
  }

  function Min2(x: real, y: real): real { if x <= y then x else y }

  function Max2(x: real, y: real): real { if x >= y then x else y }
}
