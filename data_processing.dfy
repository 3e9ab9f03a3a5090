/**
 * The calibration error of a run: the simulated hospital series is sampled
 * at midnight of each day of the observed interval and compared with the
 * observed series; series of different lengths give an infinite error.
 */
module DataProcessing {
  import opened Numerics
  import opened ModelFacts

  /** The sampled hours run from the first midnight to the last, inclusive. */
  const FirstSampleHour: nat := 384
  const LastSampleHour: nat := 720
  /** The number of sampled days. */
  const WindowDays: nat := 15

  predicate IsSampleHour(t: nat)
  {
    t % HoursPerDay == 0 && t >= FirstSampleHour && t <= LastSampleHour
  }

  /** The values of a simulated series at the sample hours, in hour order. */
  function Window(simulated: seq<real>): seq<real>
  {
    if |simulated| == 0 then []
    else
      var n := |simulated| - 1;
      Window(simulated[..n]) + (if IsSampleHour(n) then [simulated[n]] else [])
  }

  /** Keeps the values of the simulated series at the sample hours. */
  method SelectSamples(simulated: seq<real>) returns (selected: seq<real>)
    ensures selected == Window(simulated)
  {
    selected := [];
    for t := 0 to |simulated|
      invariant selected == Window(simulated[..t])
    {
      assert simulated[..t + 1][..t] == simulated[..t];
      if t % HoursPerDay == 0 && t >= 384 && t <= 720 {
        selected := selected + [simulated[t]];
      }
    }
    assert simulated[..|simulated|] == simulated;
  }

  /** The number of sample hours below `n`. */
  function SampleCount(n: nat): nat
  {
    if n <= FirstSampleHour then 0
    else Min(WindowDays, (n - FirstSampleHour + HoursPerDay - 1) / HoursPerDay)
  }

  /** Counting one more hour adds one exactly when that hour is sampled. */
  lemma SampleCountStep(n: nat)
    ensures SampleCount(n + 1) == SampleCount(n) + (if IsSampleHour(n) then 1 else 0)
    ensures IsSampleHour(n) ==> n == FirstSampleHour + HoursPerDay * SampleCount(n)
  {
  }

  /**
   * The window holds one value per sample hour of the series: at most
   * fifteen, and exactly fifteen once the series runs past the last
   * sample hour; entry k is the value at hour 384 + 24k.
   */
  lemma {:induction false} WindowContents(simulated: seq<real>)
    ensures |Window(simulated)| == SampleCount(|simulated|) <= WindowDays
    ensures |simulated| > LastSampleHour ==> |Window(simulated)| == WindowDays
    ensures forall k :: 0 <= k < |Window(simulated)| ==>
              FirstSampleHour + HoursPerDay * k < |simulated| &&
              Window(simulated)[k] == simulated[FirstSampleHour + HoursPerDay * k]
  {
    if |simulated| > 0 {
      var n := |simulated| - 1;
      var before := simulated[..n];
      WindowContents(before);
      SampleCountStep(n);
      forall k | 0 <= k < |Window(before)|
        ensures Window(simulated)[k] == simulated[FirstSampleHour + HoursPerDay * k]
      {
        assert Window(simulated)[k] == Window(before)[k];
      }
    }
  }

  /** The comparison of a run with the observations. */
  datatype Comparison =
    | SizeMismatch                                          // the error is +infinity
    | Compare(observed: seq<real>, simulated: seq<real>)    // the series the squared error is taken over

  /**
   * Samples the simulated series and pairs it with the observed one, or
   * reports the infinite error when their lengths differ.
   */
  method ComputeError(observed: seq<real>, simulated: seq<real>) returns (r: Comparison)
    ensures |observed| != |Window(simulated)| <==> r == SizeMismatch
    ensures r.Compare? ==> r.observed == observed && r.simulated == Window(simulated)
  {
    var simulatedDoublingHospitalization := SelectSamples(simulated);
    if |observed| != |simulatedDoublingHospitalization| {
      return SizeMismatch;
    }
    r := Compare(observed, simulatedDoublingHospitalization);
  }

  /**
   * The fifteen observed days match the window of any run longer than the
   * last sample hour, so such a run is always compared.
   */
  lemma ObservedSeriesFitsWindow(observed: seq<real>, simulated: seq<real>)
    requires |observed| == WindowDays && |simulated| > LastSampleHour
    ensures |observed| == |Window(simulated)|
  {
    WindowContents(simulated);
  }
}
