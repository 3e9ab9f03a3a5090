/**
 * The mobility tables and the allocation of a person's away-from-home
 * hours to municipalities. The concentration parameters of the Dirichlet
 * draw come from the person's traveller type and home municipality; the
 * drawn probability vector is a parameter, and from it the hours of the
 * day are rounded, rescaled, restricted to the municipalities that keep
 * an hour, fitted to the number of away hours and spread over the slots
 * of the output buffer.
 */
module MobilityData {
  import opened Numerics
  import opened ModelFacts
  import opened Persons

  /** The loaded tables: population and the two alpha tables, per home municipality. */
  datatype MobilityTables = MobilityTables(
    municipalityPopulation: seq<nat>,
    mFreq: seq<seq<real>>,
    mInc: seq<seq<real>>,
    municipalityCodes: seq<nat>)

  /** Both alpha tables have a full row for the home municipality. */
  predicate HasRows(data: MobilityTables, home: nat)
  {
    home < NumMunicipalities &&
    home < |data.mFreq| && |data.mFreq[home]| == NumMunicipalities &&
    home < |data.mInc| && |data.mInc[home]| == NumMunicipalities
  }

  /** The alpha row of the traveller type: frequent or incidental. */
  function AlphaRow(data: MobilityTables, t: TravelerType, home: nat): (row: seq<real>)
    requires HasRows(data, home)
    ensures |row| == NumMunicipalities
  {
    if t == Frequent then data.mFreq[home] else data.mInc[home]
  }

  /**
   * The concentration parameters of the draw: the row of the person's
   * type and home, with the home entry scaled by its group's home-stay
   * factor and every other entry as in the table.
   */
  function DirichletAlphas(data: MobilityTables, t: TravelerType, home: nat, d: Demographic): (alphas: seq<real>)
    requires HasRows(data, home)
    ensures |alphas| == NumMunicipalities
    ensures alphas[home] == AlphaRow(data, t, home)[home] * DemographyHomeStayScaling(d)
    ensures forall i :: 0 <= i < NumMunicipalities && i != home ==>
              alphas[i] == (if t == Frequent then data.mFreq[home][i] else data.mInc[home][i])
  {
    var row := AlphaRow(data, t, home);
    row[home := row[home] * DemographyHomeStayScaling(d)]
  }

  /**
   * The scaling only raises weight on staying home: with non-negative
   * tables no entry shrinks and the total grows by the extra home weight.
   */
  lemma {:induction false} AlphasFavourHome(data: MobilityTables, t: TravelerType, home: nat, d: Demographic)
    requires HasRows(data, home)
    requires forall i :: 0 <= i < NumMunicipalities ==> AlphaRow(data, t, home)[i] >= 0.0
    ensures forall i :: 0 <= i < NumMunicipalities ==> DirichletAlphas(data, t, home, d)[i] >= AlphaRow(data, t, home)[i]
    ensures SumReal(DirichletAlphas(data, t, home, d)) ==
            SumReal(AlphaRow(data, t, home)) + AlphaRow(data, t, home)[home] * (DemographyHomeStayScaling(d) - 1.0)
  {
    var row := AlphaRow(data, t, home);
    var k := DemographyHomeStayScaling(d);
    var alphas := DirichletAlphas(data, t, home, d);
    assert alphas == row[home := row[home] * k];
    ScaleExcess(row[home], k);
    SumRealUpdate(row, home, row[home] * k);
  }

  /** Scaling a non-negative weight by at least one adds the weight times the excess. */
  lemma ScaleExcess(x: real, k: real)
    requires x >= 0.0 && k >= 1.0
    ensures x * k >= x && x * k - x == x * (k - 1.0)
  {
  }

  lemma {:induction false} SumRealUpdate(s: seq<real>, i: nat, v: real)
    requires i < |s|
    ensures SumReal(s[i := v]) == SumReal(s) - s[i] + v
  {
    if i == |s| - 1 {
      assert s[i := v][..|s| - 1] == s[..|s| - 1];
    } else {
      assert s[i := v][..|s| - 1] == s[..|s| - 1][i := v];
      SumRealUpdate(s[..|s| - 1], i, v);
    }
  }

  /** A probability vector as the Dirichlet draw returns it. */
  predicate IsSample(sample: seq<real>)
  {
    forall i :: 0 <= i < |sample| ==> 0.0 <= sample[i] <= 1.0
  }

  /** Each share of the day, rounded to whole hours; never more than a day. */
  function RoundedHours(sample: seq<real>): (h: seq<nat>)
    requires IsSample(sample)
    ensures |h| == |sample|
    ensures forall i :: 0 <= i < |h| ==> h[i] <= HoursPerDay
  {
    seq(|sample|, i requires 0 <= i < |sample| => RoundNonNeg(HoursPerDay as real * sample[i]))
  }

  /** The hours rescaled to a day with integer division by their total. */
  function Rescaled(h: seq<nat>, total: nat): (r: seq<nat>)
    requires total > 0
    ensures |r| == |h|
  {
    seq(|h|, i requires 0 <= i < |h| => (HoursPerDay * h[i]) / total)
  }

  lemma QuotientAtMost(a: nat, c: nat, b: nat)
    requires b > 0 && a <= c * b
    ensures a / b <= c
  {
  }

  lemma {:induction false} RescaledSum(h: seq<nat>, total: nat)
    requires total > 0
    ensures Sum(Rescaled(h, total)) * total <= HoursPerDay * Sum(h)
  {
    if |h| > 0 {
      var n := |h| - 1;
      assert Rescaled(h, total)[..n] == Rescaled(h[..n], total);
      RescaledSum(h[..n], total);
      var q := (HoursPerDay * h[n]) / total;
      QuotientTimesDivisor(HoursPerDay * h[n], total);
      AddTimes(Sum(Rescaled(h[..n], total)), q, total);
      AddTimes(Sum(h[..n]), h[n], HoursPerDay);
    }
  }

  lemma QuotientTimesDivisor(a: nat, b: nat)
    requires b > 0
    ensures (a / b) * b <= a
  {
  }

  lemma AddTimes(a: nat, b: nat, c: nat)
    ensures (a + b) * c == a * c + b * c
  {
  }

  /** A bucket that keeps an hour after the rescale had one before. */
  lemma RescaledNonZero(h: seq<nat>, total: nat, m: nat)
    requires total > 0 && m < |h| && Rescaled(h, total)[m] != 0
    ensures h[m] != 0
  {
  }

  /** After the rescale every bucket, and the buckets together, hold at most a day. */
  lemma RescaledBounds(h: seq<nat>)
    requires Sum(h) > 0
    ensures forall i :: 0 <= i < |h| ==> Rescaled(h, Sum(h))[i] <= HoursPerDay
    ensures Sum(Rescaled(h, Sum(h))) <= HoursPerDay
  {
    var s := Sum(h);
    forall i | 0 <= i < |h|
      ensures Rescaled(h, s)[i] <= HoursPerDay
    {
      RescaledEntryAtMost(h, s, i);
    }
    RescaledSum(h, s);
  }

  lemma RescaledEntryAtMost(h: seq<nat>, s: nat, i: nat)
    requires s == Sum(h) > 0 && i < |h|
    ensures Rescaled(h, s)[i] <= HoursPerDay
  {
    EntryAtMostSum(h, i);
    QuotientAtMost(HoursPerDay * h[i], HoursPerDay, s);
  }

  /** The non-zero buckets in order: their municipalities and their hours. */
  function NonZero(h: seq<nat>): (r: (seq<nat>, seq<nat>))
    ensures |r.0| == |r.1|
  {
    if |h| == 0 then ([], [])
    else
      var p := NonZero(h[..|h| - 1]);
      if h[|h| - 1] != 0 then (p.0 + [|h| - 1], p.1 + [h[|h| - 1]]) else p
  }

  /** Each extracted municipality is an index of `h` paired with its non-zero count. */
  lemma {:induction false} NonZeroPairs(h: seq<nat>)
    ensures forall k :: 0 <= k < |NonZero(h).0| ==>
              NonZero(h).0[k] < |h| && NonZero(h).1[k] == h[NonZero(h).0[k]] && NonZero(h).1[k] != 0
  {
    if |h| > 0 {
      var n := |h| - 1;
      NonZeroPairs(h[..n]);
    }
  }

  /** The extracted municipalities are strictly increasing. */
  lemma {:induction false} NonZeroIncreasing(h: seq<nat>)
    ensures Increasing(NonZero(h).0)
  {
    if |h| > 0 {
      var n := |h| - 1;
      NonZeroIncreasing(h[..n]);
      NonZeroPairs(h[..n]);
    }
  }

  /** Every non-zero bucket is extracted. */
  lemma {:induction false} NonZeroComplete(h: seq<nat>)
    ensures forall i :: 0 <= i < |h| && h[i] != 0 ==> i in NonZero(h).0
  {
    if |h| > 0 {
      var n := |h| - 1;
      NonZeroComplete(h[..n]);
      forall i | 0 <= i < n && h[i] != 0
        ensures i in NonZero(h).0
      {
        assert h[..n][i] == h[i];
      }
    }
  }

  /** Extraction loses no hour. */
  lemma {:induction false} NonZeroSum(h: seq<nat>)
    ensures Sum(NonZero(h).1) == Sum(h)
  {
    if |h| > 0 {
      var n := |h| - 1;
      NonZeroSum(h[..n]);
      if h[n] != 0 {
        SumConcat(NonZero(h[..n]).1, [h[n]]);
      }
    }
  }

  /**
   * Extraction keeps exactly the non-zero buckets: the municipalities are
   * increasing indices of `h`, each paired with its non-zero count, every
   * non-zero bucket appears, and no hour is lost.
   */
  lemma NonZeroSpec(h: seq<nat>)
    ensures forall k :: 0 <= k < |NonZero(h).0| ==>
              NonZero(h).0[k] < |h| && NonZero(h).1[k] == h[NonZero(h).0[k]] && NonZero(h).1[k] != 0
    ensures Increasing(NonZero(h).0)
    ensures forall i :: 0 <= i < |h| && h[i] != 0 ==> i in NonZero(h).0
    ensures Sum(NonZero(h).1) == Sum(h)
  {
    NonZeroPairs(h);
    NonZeroIncreasing(h);
    NonZeroComplete(h);
    NonZeroSum(h);
  }

  /** A bucket's share of the away hours, rounded to the nearest hour. */
  function Share(away: nat, hours: nat, total: nat): nat
    requires total > 0
  {
    RoundNonNeg(away as real * (hours as real / total as real))
  }

  /** The extracted hours fitted to the away hours, each rounded to the nearest hour. */
  function Renormalized(hours: seq<nat>, away: nat): (r: seq<nat>)
    requires forall k :: 0 <= k < |hours| ==> hours[k] > 0
    ensures |r| == |hours|
  {
    if Sum(hours) == 0 then hours
    else
      seq(|hours|, k requires 0 <= k < |hours| => Share(away, hours[k], Sum(hours)))
  }

  /** A share of at most the whole is at most the away hours. */
  lemma ShareAtMost(away: nat, hours: nat, total: nat)
    requires 0 < total && hours <= total
    ensures Share(away, hours, total) <= away
  {
    var f := hours as real / total as real;
    assert 0.0 <= f <= 1.0 by {
      assert f * total as real == hours as real;
    }
    TimesFractionAtMost(away as real, f);
    RoundNonNegAtMost(away as real * f, away);
  }

  lemma TimesFractionAtMost(a: real, f: real)
    requires a >= 0.0 && 0.0 <= f <= 1.0
    ensures a * f <= a
  {
    assert a - a * f == a * (1.0 - f);
  }

  /** No bucket gets more than the away hours. */
  lemma RenormalizedBounded(hours: seq<nat>, away: nat)
    requires forall k :: 0 <= k < |hours| ==> hours[k] > 0
    ensures forall k :: 0 <= k < |hours| ==> Renormalized(hours, away)[k] <= away
  {
    forall k | 0 <= k < |hours|
      ensures Renormalized(hours, away)[k] <= away
    {
      EntryAtMostSum(hours, k);
      ShareAtMost(away, hours[k], Sum(hours));
    }
  }

  /** With no away hours every bucket gets none. */
  lemma RenormalizedNoAwayHours(hours: seq<nat>)
    requires forall k :: 0 <= k < |hours| ==> hours[k] > 0
    ensures Sum(Renormalized(hours, 0)) == 0
  {
    var r := Renormalized(hours, 0);
    assert r == seq(|hours|, _ => 0);
    SumZeros(|hours|);
  }

  /** The first index of a largest entry, as `std::max_element` finds it. */
  function FirstMax(s: seq<nat>): (i: nat)
    requires |s| > 0
    ensures i < |s|
    ensures forall k :: 0 <= k < |s| ==> s[k] <= s[i]
    ensures forall k :: 0 <= k < i ==> s[k] < s[i]
  {
    if |s| == 1 then 0
    else
      var j := FirstMax(s[..|s| - 1]);
      if s[|s| - 1] > s[j] then |s| - 1 else j
  }

  /**
   * Adds any shortfall below the away hours to the first largest bucket.
   * With no bucket at all and a shortfall, the program reads past the end
   * of the empty vector: that case has no result.
   */
  function WithDeficitFixed(hours: seq<nat>, away: nat): (r: Option<seq<nat>>)
    ensures r.Some? ==> |r.value| == |hours|
  {
    var s := Sum(hours);
    if s >= away then Some(hours)
    else if |hours| == 0 then None
    else
      var i := FirstMax(hours);
      Some(hours[i := hours[i] + (away - s)])
  }

  /**
   * The fix fails only when nothing is left to fix; otherwise it changes
   * at most the first largest entry, and afterwards the hours reach the
   * away hours exactly when they fell short, and stay as they were when
   * they did not.
   */
  lemma DeficitFixSpec(hours: seq<nat>, away: nat)
    ensures WithDeficitFixed(hours, away).None? <==> Sum(hours) < away && |hours| == 0
    ensures WithDeficitFixed(hours, away).Some? ==>
              var r := WithDeficitFixed(hours, away).value;
              |r| == |hours| &&
              Sum(r) == Max(Sum(hours), away) &&
              (Sum(hours) >= away ==> r == hours) &&
              (Sum(hours) < away ==> var i := FirstMax(hours);
                 r[i] == hours[i] + (away - Sum(hours)) &&
                 forall k :: 0 <= k < |hours| && k != i ==> r[k] == hours[k])
  {
    if Sum(hours) < away && |hours| > 0 {
      var i := FirstMax(hours);
      SumUpdate(hours, i, hours[i] + (away - Sum(hours)));
    }
  }

  /** Every municipality repeated as many times as its hours, in order. */
  function Expanded(munis: seq<nat>, hours: seq<nat>): (e: seq<nat>)
    requires |munis| == |hours|
    ensures |e| == Sum(hours)
  {
    if |munis| == 0 then []
    else Expanded(munis[..|munis| - 1], hours[..|hours| - 1]) + seq(hours[|hours| - 1], _ => munis[|munis| - 1])
  }

  /** The expansion pruned to the slots there are. */
  function Allocated(munis: seq<nat>, hours: seq<nat>, away: nat): (a: seq<nat>)
    requires |munis| == |hours|
    ensures |a| == Min(Sum(hours), away)
  {
    var e := Expanded(munis, hours);
    if |e| <= away then e else e[..away]
  }

  /** Some listed municipality `x` has hours. */
  predicate HasHours(munis: seq<nat>, hours: seq<nat>, x: nat)
  {
    exists k :: 0 <= k < |munis| && k < |hours| && munis[k] == x && hours[k] > 0
  }

  /** Only municipalities with hours fill slots. */
  lemma {:induction false} ExpandedMembers(munis: seq<nat>, hours: seq<nat>)
    requires |munis| == |hours|
    ensures forall i :: 0 <= i < |Expanded(munis, hours)| ==> HasHours(munis, hours, Expanded(munis, hours)[i])
  {
    if |munis| > 0 {
      var n := |munis| - 1;
      ExpandedMembers(munis[..n], hours[..n]);
      var e' := Expanded(munis[..n], hours[..n]);
      var e := Expanded(munis, hours);
      assert e == e' + seq(hours[n], _ => munis[n]);
      forall i | 0 <= i < |e|
        ensures HasHours(munis, hours, e[i])
      {
        if i < |e'| {
          assert HasHours(munis[..n], hours[..n], e'[i]);
          var k :| 0 <= k < n && munis[..n][k] == e'[i] && hours[..n][k] > 0;
          assert munis[k] == e[i] && hours[k] > 0;
        } else {
          assert e[i] == munis[n] && hours[n] > 0;
        }
      }
    }
  }

  predicate Increasing(munis: seq<nat>)
  {
    forall k, l :: 0 <= k < l < |munis| ==> munis[k] < munis[l]
  }

  predicate NonDecreasing(s: seq<nat>)
  {
    forall i, j :: 0 <= i <= j < |s| ==> s[i] <= s[j]
  }

  /** Increasing municipalities fill the slots in non-decreasing order. */
  lemma {:induction false} ExpandedSorted(munis: seq<nat>, hours: seq<nat>)
    requires |munis| == |hours| && Increasing(munis)
    ensures NonDecreasing(Expanded(munis, hours))
  {
    if |munis| > 0 {
      var n := |munis| - 1;
      assert Increasing(munis[..n]);
      ExpandedSorted(munis[..n], hours[..n]);
      ExpandedMembers(munis[..n], hours[..n]);
      var e' := Expanded(munis[..n], hours[..n]);
      var e := Expanded(munis, hours);
      assert e == e' + seq(hours[n], _ => munis[n]);
      forall i, j | 0 <= i <= j < |e|
        ensures e[i] <= e[j]
      {
        if j < |e'| {
          assert NonDecreasing(e');
          assert e[i] == e'[i] && e[j] == e'[j];
        } else if i < |e'| {
          assert HasHours(munis[..n], hours[..n], e'[i]);
          var k :| 0 <= k < n && munis[..n][k] == e'[i] && hours[..n][k] > 0;
          assert e[i] == munis[k] < munis[n] == e[j];
        } else {
          assert e[i] == munis[n] == e[j];
        }
      }
    }
  }

  /** A municipality above every listed one fills no slot. */
  lemma NotInExpanded(munis: seq<nat>, hours: seq<nat>, x: nat)
    requires |munis| == |hours|
    requires forall k :: 0 <= k < |munis| ==> munis[k] < x
    ensures multiset(Expanded(munis, hours))[x] == 0
  {
    ExpandedMembers(munis, hours);
    var e := Expanded(munis, hours);
    forall i | 0 <= i < |e|
      ensures e[i] != x
    {
      assert HasHours(munis, hours, e[i]);
    }
    assert x !in e;
  }

  /** With increasing municipalities each fills exactly as many slots as its hours. */
  lemma {:induction false} ExpandedCounts(munis: seq<nat>, hours: seq<nat>)
    requires |munis| == |hours| && Increasing(munis)
    ensures forall k :: 0 <= k < |munis| ==> multiset(Expanded(munis, hours))[munis[k]] == hours[k]
  {
    if |munis| > 0 {
      var n := |munis| - 1;
      assert Increasing(munis[..n]);
      ExpandedCounts(munis[..n], hours[..n]);
      var e' := Expanded(munis[..n], hours[..n]);
      var tail := seq(hours[n], _ => munis[n]);
      var e := Expanded(munis, hours);
      assert e == e' + tail;
      assert multiset(e) == multiset(e') + multiset(tail);
      RepeatCount(hours[n], munis[n]);
      forall k | 0 <= k < |munis|
        ensures multiset(e)[munis[k]] == hours[k]
      {
        if k < n {
          RepeatCountOther(hours[n], munis[n], munis[k]);
          assert multiset(e')[munis[..n][k]] == hours[..n][k];
        } else {
          NotInExpanded(munis[..n], hours[..n], munis[n]);
        }
      }
    }
  }

  lemma {:induction false} RepeatCount(n: nat, x: nat)
    ensures multiset(seq(n, _ => x))[x] == n
  {
    if n > 0 {
      assert seq(n, _ => x) == seq(n - 1, _ => x) + [x];
      RepeatCount(n - 1, x);
    }
  }

  lemma RepeatCountOther(n: nat, x: nat, y: nat)
    requires y != x
    ensures multiset(seq(n, _ => x))[y] == 0
  {
    assert y !in seq(n, _ => x);
  }

  /**
   * Pruning only drops slots: in the output each municipality fills at
   * most as many slots as its hours.
   */
  lemma AllocatedCounts(munis: seq<nat>, hours: seq<nat>, away: nat)
    requires |munis| == |hours| && Increasing(munis)
    ensures forall k :: 0 <= k < |munis| ==> multiset(Allocated(munis, hours, away))[munis[k]] <= hours[k]
  {
    ExpandedCounts(munis, hours);
    var e := Expanded(munis, hours);
    if |e| > away {
      assert e == e[..away] + e[away..];
      assert multiset(e) == multiset(e[..away]) + multiset(e[away..]);
    }
  }

  /**
   * The allocation of away hours from a Dirichlet sample, or nothing where
   * the program divides by a zero total (every share rounds to no hour) or
   * reads past an empty vector (no bucket survives the rescale while away
   * hours remain).
   */
  function AwayAllocation(sample: seq<real>, away: nat): Option<seq<nat>>
    requires IsSample(sample)
  {
    var h := RoundedHours(sample);
    if Sum(h) == 0 then None
    else
      var buckets := NonZero(Rescaled(h, Sum(h)));
      NonZeroPairs(Rescaled(h, Sum(h)));
      BucketAllocation(buckets.0, buckets.1, away)
  }

  /** The allocation from the extracted buckets on. */
  function BucketAllocation(ms: seq<nat>, hs: seq<nat>, away: nat): Option<seq<nat>>
    requires |ms| == |hs| && forall k :: 0 <= k < |hs| ==> hs[k] > 0
  {
    match WithDeficitFixed(Renormalized(hs, away), away)
    case None => None
    case Some(f) => Some(Allocated(ms, f, away))
  }

  /**
   * From increasing buckets, the allocation fails only with no bucket and
   * away hours left, and otherwise fills every slot in non-decreasing order
   * with listed municipalities.
   */
  lemma BucketAllocationSpec(ms: seq<nat>, hs: seq<nat>, away: nat)
    requires |ms| == |hs| && Increasing(ms) && forall k :: 0 <= k < |hs| ==> hs[k] > 0
    ensures BucketAllocation(ms, hs, away).None? <==> |hs| == 0 && away > 0
    ensures BucketAllocation(ms, hs, away).Some? ==>
              |BucketAllocation(ms, hs, away).value| == away &&
              NonDecreasing(BucketAllocation(ms, hs, away).value) &&
              forall i :: 0 <= i < away ==> BucketAllocation(ms, hs, away).value[i] in ms
  {
    var n := Renormalized(hs, away);
    DeficitFixSpec(n, away);
    if WithDeficitFixed(n, away).Some? {
      var f := WithDeficitFixed(n, away).value;
      ExpandedMembers(ms, f);
      ExpandedSorted(ms, f);
      var e := Expanded(ms, f);
      var out := Allocated(ms, f, away);
      assert out == BucketAllocation(ms, hs, away).value;
      assert forall i :: 0 <= i < |out| ==> out[i] == e[i];
      forall i | 0 <= i < |out|
        ensures out[i] in ms
      {
        assert HasHours(ms, f, e[i]);
      }
      assert NonDecreasing(e);
    }
  }

  /**
   * The allocation fails exactly when no share rounds to an hour, or when
   * away hours remain and no bucket survives the rescale.
   */
  lemma AwayAllocationFails(sample: seq<real>, away: nat)
    requires IsSample(sample)
    ensures var h := RoundedHours(sample);
            AwayAllocation(sample, away).None? <==>
              Sum(h) == 0 || (away > 0 && forall i :: 0 <= i < |h| ==> Rescaled(h, Sum(h))[i] == 0)
  {
    var h := RoundedHours(sample);
    if Sum(h) != 0 {
      var r := Rescaled(h, Sum(h));
      var (ms, hs) := NonZero(r);
      NonZeroSpec(r);
      DeficitFixSpec(Renormalized(hs, away), away);
      if |hs| == 0 {
        forall i | 0 <= i < |h|
          ensures r[i] == 0
        {
          assert i !in ms;
        }
      } else {
        assert r[ms[0]] != 0;
      }
    }
  }

  /** A municipality whose rounded and rescaled hour counts are non-zero. */
  predicate FilledFromBucket(sample: seq<real>, m: nat)
    requires IsSample(sample)
  {
    var h := RoundedHours(sample);
    m < |sample| && h[m] != 0 && Sum(h) > 0 && Rescaled(h, Sum(h))[m] != 0
  }

  /**
   * A successful allocation fills every slot, in non-decreasing order of
   * municipality, each with a municipality whose rounded and rescaled hour
   * counts are non-zero.
   */
  lemma AwayAllocationFills(sample: seq<real>, away: nat)
    requires IsSample(sample) && AwayAllocation(sample, away).Some?
    ensures |AwayAllocation(sample, away).value| == away
    ensures NonDecreasing(AwayAllocation(sample, away).value)
    ensures forall i :: 0 <= i < away ==> FilledFromBucket(sample, AwayAllocation(sample, away).value[i])
  {
    var h := RoundedHours(sample);
    var r := Rescaled(h, Sum(h));
    var ms, hs := NonZero(r).0, NonZero(r).1;
    NonZeroPairs(r);
    NonZeroIncreasing(r);
    BucketAllocationSpec(ms, hs, away);
    var out := AwayAllocation(sample, away).value;
    assert out == BucketAllocation(ms, hs, away).value;
    forall i | 0 <= i < away
      ensures FilledFromBucket(sample, out[i])
    {
      assert out[i] in ms;
      var k :| 0 <= k < |ms| && ms[k] == out[i];
      var m := ms[k];
      assert m < |r| && r[m] != 0;
      RescaledNonZero(h, Sum(h), m);
    }
  }

  /** Rounds every share of the sample to whole hours in place. */
  method RoundToHours(sample: seq<real>) returns (h: seq<nat>)
    requires IsSample(sample)
    ensures h == RoundedHours(sample)
  {
    h := seq(|sample|, _ => 0);
    for idx := 0 to |sample|
      invariant |h| == |sample|
      invariant forall k :: 0 <= k < idx ==> h[k] == RoundedHours(sample)[k]
    {
      h := h[idx := RoundNonNeg(HoursPerDay as real * sample[idx])];
    }
  }

  /** Rescales the hours to a day by integer division; no result when their total is zero. */
  method RescaleHours(h: seq<nat>) returns (r: Option<seq<nat>>)
    ensures Sum(h) == 0 ==> r == None
    ensures Sum(h) > 0 ==> r == Some(Rescaled(h, Sum(h)))
  {
    var sum := Accumulate(h);
    if sum == 0 {
      return None;
    }
    var scaled := h;
    for idx := 0 to |scaled|
      invariant |scaled| == |h|
      invariant forall k :: 0 <= k < idx ==> scaled[k] == Rescaled(h, sum)[k]
      invariant forall k :: idx <= k < |h| ==> scaled[k] == h[k]
    {
      scaled := scaled[idx := (HoursPerDay * scaled[idx]) / sum];
    }
    assert scaled == Rescaled(h, sum);
    return Some(scaled);
  }

  /** Collects the non-zero buckets and their municipalities, scanning left to right. */
  method ExtractNonZero(h: seq<nat>) returns (municipalities: seq<nat>, hours: seq<nat>)
    ensures (municipalities, hours) == NonZero(h)
  {
    municipalities, hours := [], [];
    for i := 0 to |h|
      invariant (municipalities, hours) == NonZero(h[..i])
    {
      assert h[..i + 1][..i] == h[..i];
      if h[i] != 0 {
        hours := hours + [h[i]];
        municipalities := municipalities + [i];
      }
    }
    assert h[..|h|] == h;
  }

  /** Fits the extracted hours to the away hours, bucket by bucket. */
  method RenormalizeHours(hours: seq<nat>, away: nat) returns (r: seq<nat>)
    requires forall k :: 0 <= k < |hours| ==> hours[k] > 0
    ensures r == Renormalized(hours, away)
  {
    var sum := Accumulate(hours);
    r := hours;
    if |hours| > 0 {
      PositiveEntryPositiveSum(hours, 0);
    }
    for idx := 0 to |r|
      invariant |r| == |hours|
      invariant forall k :: 0 <= k < idx ==> r[k] == Renormalized(hours, away)[k]
      invariant forall k :: idx <= k < |hours| ==> r[k] == hours[k]
    {
      r := r[idx := Share(away, r[idx], sum)];
    }
  }

  /** The index of the first largest entry, scanning left to right. */
  method MaxElement(s: seq<nat>) returns (i: nat)
    requires |s| > 0
    ensures i == FirstMax(s)
  {
    i := 0;
    for k := 1 to |s|
      invariant i == FirstMax(s[..k])
    {
      assert s[..k + 1][..k] == s[..k];
      if s[k] > s[i] {
        i := k;
      }
    }
    assert s[..|s|] == s;
  }

  /** Adds the shortfall below the away hours to the most-spent bucket. */
  method FixDeficit(hours: seq<nat>, away: nat) returns (r: Option<seq<nat>>)
    ensures r == WithDeficitFixed(hours, away)
  {
    var sum := Accumulate(hours);
    if sum < away {
      if |hours| == 0 {
        return None;
      }
      var maxSpent := MaxElement(hours);
      var difference := away - sum;
      return Some(hours[maxSpent := hours[maxSpent] + difference]);
    }
    return Some(hours);
  }

  /** The largest `size_t`: what `hours_not_home - 1` becomes when there are no away hours. */
  const SizeMax: nat := 0x1_0000_0000_0000_0000 - 1

  lemma ExpandedStep(munis: seq<nat>, hours: seq<nat>, i: nat)
    requires |munis| == |hours| && i < |munis|
    ensures Expanded(munis[..i + 1], hours[..i + 1]) ==
            Expanded(munis[..i], hours[..i]) + seq(hours[i], _ => munis[i])
    ensures Sum(hours[..i + 1]) == Sum(hours[..i]) + hours[i]
  {
    assert munis[..i + 1][..i] == munis[..i] && hours[..i + 1][..i] == hours[..i];
  }

  /**
   * Writes each municipality into as many consecutive slots as its
   * hours, stopping once every slot is written; later slots keep their
   * contents.
   */
  method ExpandInto(munis: seq<nat>, hours: seq<nat>, out: array<nat>)
    requires |munis| == |hours|
    requires out.Length > 0 || Sum(hours) == 0
    modifies out
    ensures var a := Allocated(munis, hours, out.Length);
            out[..|a|] == a && out[|a|..] == old(out[|a|..])
  {
    var away := out.Length;
    var last := if away == 0 then SizeMax else away - 1;
    var idx := 0;
    for i := 0 to |hours|
      invariant idx == Min(Sum(hours[..i]), away)
      invariant out[..idx] == Expanded(munis[..i], hours[..i])[..idx]
      invariant out[idx..] == old(out[..])[idx..]
    {
      ExpandedStep(munis, hours, i);
      if away == 0 {
        EntryAtMostSum(hours, i);
      }
      idx := WriteRun(out, idx, last, munis[i], hours[i], Expanded(munis[..i], hours[..i]));
    }
    assert munis[..|munis|] == munis && hours[..|hours|] == hours;
  }

  /**
   * Writes `m` into `count` slots from `start` on, stopping after the
   * slot `last`: the slots hold the prefix of `e` followed by the new
   * run, and the slots after it keep their contents.
   */
  method WriteRun(out: array<nat>, start: nat, last: nat, m: nat, count: nat, ghost e: seq<nat>)
    returns (idx: nat)
    requires last == (if out.Length == 0 then SizeMax else out.Length - 1)
    requires out.Length > 0 || count == 0
    requires start == Min(|e|, out.Length) && out[..start] == e[..start]
    modifies out
    ensures idx == Min(|e| + count, out.Length)
    ensures out[..idx] == (e + seq(count, _ => m))[..idx]
    ensures out[idx..] == old(out[..])[idx..]
  {
    idx := start;
    for j := 0 to count
      invariant idx == Min(|e| + j, out.Length)
      invariant out[..idx] == (e + seq(j, _ => m))[..idx]
      invariant out[idx..] == old(out[..])[idx..]
    {
      if idx > last {
        break;
      }
      out[idx] := m;
      assert (e + seq(j + 1, _ => m))[..idx + 1] == (e + seq(j, _ => m))[..idx] + [m];
      idx := idx + 1;
    }
  }

  /**
   * Fits the extracted buckets to the slots of `out` and writes them; on
   * failure nothing is written.
   */
  method AllocateBuckets(municipalities: seq<nat>, hours: seq<nat>, out: array<nat>) returns (ok: bool)
    requires |municipalities| == |hours| && forall k :: 0 <= k < |hours| ==> hours[k] > 0
    modifies out
    ensures ok == BucketAllocation(municipalities, hours, out.Length).Some?
    ensures ok ==> out[..] == BucketAllocation(municipalities, hours, out.Length).value
    ensures !ok ==> out[..] == old(out[..])
  {
    var away := out.Length;
    var renormalized := RenormalizeHours(hours, away);
    var fixed := FixDeficit(renormalized, away);
    if fixed.None? {
      return false;
    }
    DeficitFixSpec(renormalized, away);
    if away == 0 {
      RenormalizedNoAwayHours(hours);
    }
    ExpandInto(municipalities, fixed.value, out);
    ok := true;
    assert |Allocated(municipalities, fixed.value, away)| == away;
  }

  /**
   * Allocates the away hours from a Dirichlet sample into the slots of
   * `out`; on failure nothing is written.
   */
  method AllocateAwayHours(sample: seq<real>, out: array<nat>) returns (ok: bool)
    requires IsSample(sample)
    modifies out
    ensures ok == AwayAllocation(sample, out.Length).Some?
    ensures ok ==> out[..] == AwayAllocation(sample, out.Length).value
    ensures !ok ==> out[..] == old(out[..])
  {
    var h := RoundToHours(sample);
    var rescaled := RescaleHours(h);
    if rescaled.None? {
      return false;
    }
    NonZeroPairs(rescaled.value);
    var municipalities, hours := ExtractNonZero(rescaled.value);
    ok := AllocateBuckets(municipalities, hours, out);
  }

  /**
   * The mobility draw of a person: the concentration parameters for the
   * sampler, then the allocation of the drawn `sample` into the away slots.
   */
  method DrawDirichlet(data: MobilityTables, p: Person, sample: seq<real>, otherLocations: array<nat>)
    returns (alphas: seq<real>, ok: bool)
    requires HasRows(data, p.homeLocation) && IsSample(sample)
    modifies otherLocations
    ensures alphas == DirichletAlphas(data, p.travelerType, p.homeLocation, p.demography)
    ensures ok == AwayAllocation(sample, otherLocations.Length).Some?
    ensures ok ==> otherLocations[..] == AwayAllocation(sample, otherLocations.Length).value
    ensures !ok ==> otherLocations[..] == old(otherLocations[..])
  {
    var home := p.homeLocation;
    alphas := AlphaRow(data, p.travelerType, home);
    alphas := alphas[home := alphas[home] * DemographyHomeStayScaling(p.demography)];
    assert alphas == DirichletAlphas(data, p.travelerType, home, p.demography);
    ok := AllocateAwayHours(sample, otherLocations);
  }
}
