/**
 * The statistics pass run once per simulated hour: it counts the persons
 * present and the infectious persons per (municipality, group), and the
 * infectious persons per home municipality, first into one counter per
 * worker thread, then summed; it derives the infected fraction of each
 * cell and appends per-municipality history rows.
 */
module UpdateStatistics {
  import opened Numerics
  import opened ModelFacts
  import opened Persons

  /** The cells the pass counts. */
  datatype Category =
    | Present(m: nat, d: nat)         // located in municipality m, of group d
    | InfectedAt(m: nat, d: nat)      // the same, and infectious
    | InfectedHome(m: nat)            // infectious with home municipality m
    | InMunicipality(m: nat)          // located in municipality m, any group

  predicate InCategory(x: PersonView, c: Category)
  {
    match c
    case Present(m, d) => x.location == m && x.demography.Index() == d
    case InfectedAt(m, d) => x.location == m && x.demography.Index() == d && x.state == Infectious
    case InfectedHome(m) => x.homeLocation == m && x.state == Infectious
    case InMunicipality(m) => x.location == m
  }

  /** Number of persons in a category. */
  function Count(v: seq<PersonView>, c: Category): nat
  {
    if |v| == 0 then 0
    else Count(v[..|v| - 1], c) + (if InCategory(v[|v| - 1], c) then 1 else 0)
  }

  /** Number of persons in a category handled by worker thread `t`. */
  function CountShard(v: seq<PersonView>, tids: seq<nat>, c: Category, t: nat): nat
    requires |tids| == |v|
  {
    if |v| == 0 then 0
    else
      CountShard(v[..|v| - 1], tids[..|v| - 1], c, t) +
      (if tids[|v| - 1] == t && InCategory(v[|v| - 1], c) then 1 else 0)
  }

  /** The per-thread counts of a category, one entry per thread. */
  function ShardCounts(v: seq<PersonView>, tids: seq<nat>, c: Category, threads: nat): (r: seq<nat>)
    requires |tids| == |v|
    ensures |r| == threads
  {
    seq(threads, t requires 0 <= t < threads => CountShard(v, tids, c, t))
  }

  /**
   * However the persons are spread over the threads, the per-thread
   * counts add up to the count of the category.
   */
  lemma {:induction false} ShardsSumToCount(v: seq<PersonView>, tids: seq<nat>, c: Category, threads: nat)
    requires |tids| == |v|
    requires forall i :: 0 <= i < |tids| ==> tids[i] < threads
    ensures Sum(ShardCounts(v, tids, c, threads)) == Count(v, c)
  {
    if |v| == 0 {
      assert ShardCounts(v, tids, c, threads) == seq(threads, _ => 0);
      SumZeros(threads);
    } else {
      var n := |v| - 1;
      ShardsSumToCount(v[..n], tids[..n], c, threads);
      var before := ShardCounts(v[..n], tids[..n], c, threads);
      ShardCountsStep(v, tids, c, threads);
      if InCategory(v[n], c) {
        SumUpdate(before, tids[n], before[tids[n]] + 1);
      }
    }
  }

  /** One more person adds one to the count of its thread when it is in the category. */
  lemma ShardCountsStep(v: seq<PersonView>, tids: seq<nat>, c: Category, threads: nat)
    requires |tids| == |v| && |v| > 0 && tids[|v| - 1] < threads
    ensures var n := |v| - 1;
            var before := ShardCounts(v[..n], tids[..n], c, threads);
            ShardCounts(v, tids, c, threads) ==
              if InCategory(v[n], c) then before[tids[n] := before[tids[n]] + 1] else before
  {
    var n := |v| - 1;
    var before := ShardCounts(v[..n], tids[..n], c, threads);
    var after := ShardCounts(v, tids, c, threads);
    if InCategory(v[n], c) {
      assert after == before[tids[n] := before[tids[n]] + 1];
    } else {
      assert after == before;
    }
  }

  /** Infectious persons of a cell are among the persons of that cell. */
  lemma {:induction false} InfectedAtMostPresent(v: seq<PersonView>, m: nat, d: nat)
    ensures Count(v, InfectedAt(m, d)) <= Count(v, Present(m, d))
  {
    if |v| > 0 {
      InfectedAtMostPresent(v[..|v| - 1], m, d);
    }
  }

  /** The cells of a municipality, one per group. */
  function MunicipalityRow(v: seq<PersonView>, m: nat): (r: seq<nat>)
    ensures |r| == NumDemographies
  {
    seq(NumDemographies, d requires 0 <= d < NumDemographies => Count(v, Present(m, d)))
  }

  /** Summing a municipality's cells over the groups gives the persons located there. */
  lemma {:induction false} RowSumIsMunicipalityCount(v: seq<PersonView>, m: nat)
    ensures Sum(MunicipalityRow(v, m)) == Count(v, InMunicipality(m))
  {
    if |v| == 0 {
      assert MunicipalityRow(v, m) == seq(NumDemographies, _ => 0);
      SumZeros(NumDemographies);
    } else {
      var n := |v| - 1;
      RowSumIsMunicipalityCount(v[..n], m);
      var before := MunicipalityRow(v[..n], m);
      var after := MunicipalityRow(v, m);
      if v[n].location == m {
        var k := v[n].demography.Index();
        assert after == before[k := before[k] + 1];
        SumUpdate(before, k, before[k] + 1);
      } else {
        assert after == before;
      }
    }
  }

  /** Persons located in the model's municipalities, counted per municipality. */
  function MunicipalityCounts(v: seq<PersonView>, municipalities: nat): (r: seq<nat>)
    ensures |r| == municipalities
  {
    seq(municipalities, m requires 0 <= m < municipalities => Count(v, InMunicipality(m)))
  }

  /** Every person is counted in exactly one municipality. */
  lemma {:induction false} MunicipalityCountsCoverPopulation(v: seq<PersonView>, municipalities: nat)
    requires forall i :: 0 <= i < |v| ==> v[i].location < municipalities
    ensures Sum(MunicipalityCounts(v, municipalities)) == |v|
  {
    if |v| == 0 {
      assert MunicipalityCounts(v, municipalities) == seq(municipalities, _ => 0);
      SumZeros(municipalities);
    } else {
      var n := |v| - 1;
      MunicipalityCountsCoverPopulation(v[..n], municipalities);
      var before := MunicipalityCounts(v[..n], municipalities);
      var k := v[n].location;
      assert MunicipalityCounts(v, municipalities) == before[k := before[k] + 1];
      SumUpdate(before, k, before[k] + 1);
    }
  }

  predicate IsTable<T>(t: seq<seq<T>>, rows: nat, cols: nat)
  {
    |t| == rows && forall i :: 0 <= i < rows ==> |t[i]| == cols
  }

  /** One counter per (municipality, group, thread). */
  predicate IsCellShards(t: seq<seq<seq<nat>>>, threads: nat)
  {
    |t| == NumMunicipalities &&
    forall m :: 0 <= m < NumMunicipalities ==> IsTable(t[m], NumDemographies, threads)
  }

  function ZeroCellShards(threads: nat): (t: seq<seq<seq<nat>>>)
    ensures IsCellShards(t, threads)
  {
    seq(NumMunicipalities, m => seq(NumDemographies, d => seq(threads, t => 0)))
  }

  /** Fractions of infectious persons, each a probability. */
  predicate IsFractionTable(f: seq<seq<real>>)
  {
    IsTable(f, NumMunicipalities, NumDemographies) &&
    forall m, d :: 0 <= m < NumMunicipalities && 0 <= d < NumDemographies ==> 0.0 <= f[m][d] <= 1.0
  }

  /**
   * The infected fraction of every cell of a municipality that holds
   * persons; an empty cell keeps the fraction it had.
   */
  function FractionRow(previous: seq<real>, infected: seq<nat>, total: seq<nat>): (r: seq<real>)
    requires |previous| == |infected| == |total|
    ensures |r| == |previous|
  {
    seq(|previous|, d requires 0 <= d < |previous| =>
      if total[d] != 0 then infected[d] as real / total[d] as real else previous[d])
  }

  /** The fractions of every municipality. */
  function UpdatedFractions(previous: seq<seq<real>>, infected: seq<seq<nat>>, total: seq<seq<nat>>): (r: seq<seq<real>>)
    requires IsTable(previous, NumMunicipalities, NumDemographies)
    requires IsTable(infected, NumMunicipalities, NumDemographies)
    requires IsTable(total, NumMunicipalities, NumDemographies)
    ensures IsTable(r, NumMunicipalities, NumDemographies)
  {
    seq(NumMunicipalities, m requires 0 <= m < NumMunicipalities =>
      FractionRow(previous[m], infected[m], total[m]))
  }

  /** Fractions stay probabilities as long as no cell has more infectious than present persons. */
  lemma UpdatedFractionsAreProbabilities(previous: seq<seq<real>>, infected: seq<seq<nat>>, total: seq<seq<nat>>)
    requires IsFractionTable(previous)
    requires IsTable(infected, NumMunicipalities, NumDemographies)
    requires IsTable(total, NumMunicipalities, NumDemographies)
    requires forall m, d :: 0 <= m < NumMunicipalities && 0 <= d < NumDemographies ==>
               infected[m][d] <= total[m][d]
    ensures IsFractionTable(UpdatedFractions(previous, infected, total))
  {
    forall m, d | 0 <= m < NumMunicipalities && 0 <= d < NumDemographies
      ensures 0.0 <= UpdatedFractions(previous, infected, total)[m][d] <= 1.0
    {
      if total[m][d] != 0 {
        var a, b := infected[m][d] as real, total[m][d] as real;
        assert a / b <= 1.0 by {
          assert a <= b;
          assert a / b * b == a;
        }
      }
    }
  }

  /** Adds one to a single counter of the shard table. */
  function Bump(t: seq<seq<seq<nat>>>, m: nat, d: nat, k: nat, threads: nat): (r: seq<seq<seq<nat>>>)
    requires IsCellShards(t, threads) && m < NumMunicipalities && d < NumDemographies && k < threads
    ensures IsCellShards(r, threads)
    ensures forall m', d', k' :: 0 <= m' < NumMunicipalities && 0 <= d' < NumDemographies && 0 <= k' < threads ==>
              r[m'][d'][k'] == t[m'][d'][k'] + (if m' == m && d' == d && k' == k then 1 else 0)
  {
    t[m := t[m][d := t[m][d][k := t[m][d][k] + 1]]]
  }

  /** Adds one to a single counter of the home-municipality table. */
  function BumpHome(t: seq<seq<nat>>, m: nat, k: nat, threads: nat): (r: seq<seq<nat>>)
    requires IsTable(t, NumMunicipalities, threads) && m < NumMunicipalities && k < threads
    ensures IsTable(r, NumMunicipalities, threads)
    ensures forall m', k' :: 0 <= m' < NumMunicipalities && 0 <= k' < threads ==>
              r[m'][k'] == t[m'][k'] + (if m' == m && k' == k then 1 else 0)
  {
    t[m := t[m][k := t[m][k] + 1]]
  }

  /** The counted category of a (municipality, group) cell. */
  function CellCategory(infectedOnly: bool, m: nat, d: nat): Category
  {
    if infectedOnly then InfectedAt(m, d) else Present(m, d)
  }

  /** Per-thread counters of the cells after counting the persons `v` on top of `base`. */
  function CellShards(base: seq<seq<seq<nat>>>, v: seq<PersonView>, tids: seq<nat>, infectedOnly: bool, threads: nat)
    : (r: seq<seq<seq<nat>>>)
    requires IsCellShards(base, threads) && |tids| == |v|
    ensures IsCellShards(r, threads)
  {
    seq(NumMunicipalities, m requires 0 <= m < NumMunicipalities =>
      seq(NumDemographies, d requires 0 <= d < NumDemographies =>
        seq(threads, k requires 0 <= k < threads =>
          base[m][d][k] + CountShard(v, tids, CellCategory(infectedOnly, m, d), k))))
  }

  /** Per-thread counters of the home municipalities after counting the persons `v` on top of `base`. */
  function HomeShards(base: seq<seq<nat>>, v: seq<PersonView>, tids: seq<nat>, threads: nat): (r: seq<seq<nat>>)
    requires IsTable(base, NumMunicipalities, threads) && |tids| == |v|
    ensures IsTable(r, NumMunicipalities, threads)
  {
    seq(NumMunicipalities, m requires 0 <= m < NumMunicipalities =>
      seq(threads, k requires 0 <= k < threads => base[m][k] + CountShard(v, tids, InfectedHome(m), k)))
  }

  lemma CellShardsEqual(a: seq<seq<seq<nat>>>, b: seq<seq<seq<nat>>>, threads: nat)
    requires IsCellShards(a, threads) && IsCellShards(b, threads)
    requires forall m, d, k :: 0 <= m < NumMunicipalities && 0 <= d < NumDemographies && 0 <= k < threads ==>
               a[m][d][k] == b[m][d][k]
    ensures a == b
  {
    forall m | 0 <= m < NumMunicipalities
      ensures a[m] == b[m]
    {
      forall d | 0 <= d < NumDemographies
        ensures a[m][d] == b[m][d]
      {
      }
    }
  }

  /** Counting nobody leaves the counters as they were. */
  lemma CellShardsEmpty(base: seq<seq<seq<nat>>>, infectedOnly: bool, threads: nat)
    requires IsCellShards(base, threads)
    ensures CellShards(base, [], [], infectedOnly, threads) == base
  {
    CellShardsEqual(CellShards(base, [], [], infectedOnly, threads), base, threads);
  }

  /** Counting one more person adds one to its cell's counter of its thread, if it belongs there. */
  lemma CellShardsStep(base: seq<seq<seq<nat>>>, v: seq<PersonView>, tids: seq<nat>, infectedOnly: bool, threads: nat)
    requires IsCellShards(base, threads) && |tids| == |v| && |v| > 0
    requires v[|v| - 1].location < NumMunicipalities && tids[|v| - 1] < threads
    ensures var n := |v| - 1;
            var x := v[n];
            var before := CellShards(base, v[..n], tids[..n], infectedOnly, threads);
            CellShards(base, v, tids, infectedOnly, threads) ==
              if InCategory(x, CellCategory(infectedOnly, x.location, x.demography.Index()))
              then Bump(before, x.location, x.demography.Index(), tids[n], threads)
              else before
  {
    var n := |v| - 1;
    var x := v[n];
    var before := CellShards(base, v[..n], tids[..n], infectedOnly, threads);
    var after := CellShards(base, v, tids, infectedOnly, threads);
    var target := if InCategory(x, CellCategory(infectedOnly, x.location, x.demography.Index()))
                  then Bump(before, x.location, x.demography.Index(), tids[n], threads)
                  else before;
    forall m, d, k | 0 <= m < NumMunicipalities && 0 <= d < NumDemographies && 0 <= k < threads
      ensures after[m][d][k] == target[m][d][k]
    {
      CellShardsEntryStep(base, v, tids, infectedOnly, threads, m, d, k);
    }
    CellShardsEqual(after, target, threads);
  }

  /** One counter of the step: it grows by one exactly for the new person's cell and thread. */
  lemma CellShardsEntryStep(base: seq<seq<seq<nat>>>, v: seq<PersonView>, tids: seq<nat>, infectedOnly: bool,
                            threads: nat, m: nat, d: nat, k: nat)
    requires IsCellShards(base, threads) && |tids| == |v| && |v| > 0
    requires m < NumMunicipalities && d < NumDemographies && k < threads
    ensures var n := |v| - 1;
            var x := v[n];
            CellShards(base, v, tids, infectedOnly, threads)[m][d][k] ==
              CellShards(base, v[..n], tids[..n], infectedOnly, threads)[m][d][k] +
              (if InCategory(x, CellCategory(infectedOnly, m, d)) && tids[n] == k then 1 else 0)
  {
  }

  lemma HomeShardsEqual(a: seq<seq<nat>>, b: seq<seq<nat>>, threads: nat)
    requires IsTable(a, NumMunicipalities, threads) && IsTable(b, NumMunicipalities, threads)
    requires forall m, k :: 0 <= m < NumMunicipalities && 0 <= k < threads ==> a[m][k] == b[m][k]
    ensures a == b
  {
    forall m | 0 <= m < NumMunicipalities
      ensures a[m] == b[m]
    {
    }
  }

  lemma HomeShardsStep(base: seq<seq<nat>>, v: seq<PersonView>, tids: seq<nat>, threads: nat)
    requires IsTable(base, NumMunicipalities, threads) && |tids| == |v| && |v| > 0
    requires v[|v| - 1].homeLocation < NumMunicipalities && tids[|v| - 1] < threads
    ensures var n := |v| - 1;
            var x := v[n];
            var before := HomeShards(base, v[..n], tids[..n], threads);
            HomeShards(base, v, tids, threads) ==
              if x.state == Infectious
              then BumpHome(before, x.homeLocation, tids[n], threads)
              else before
  {
    var n := |v| - 1;
    var x := v[n];
    var before := HomeShards(base, v[..n], tids[..n], threads);
    var after := HomeShards(base, v, tids, threads);
    if x.state == Infectious {
      HomeShardsEqual(after, BumpHome(before, x.homeLocation, tids[n], threads), threads);
    } else {
      HomeShardsEqual(after, before, threads);
    }
  }

  /** The step lemma on the prefixes of a population. */
  lemma CellShardsPrefixStep(base: seq<seq<seq<nat>>>, v: seq<PersonView>, tids: seq<nat>, infectedOnly: bool,
                             threads: nat, i: nat)
    requires IsCellShards(base, threads) && |tids| == |v| && i < |v|
    requires v[i].location < NumMunicipalities && tids[i] < threads
    ensures var before := CellShards(base, v[..i], tids[..i], infectedOnly, threads);
            CellShards(base, v[..i + 1], tids[..i + 1], infectedOnly, threads) ==
              if InCategory(v[i], CellCategory(infectedOnly, v[i].location, v[i].demography.Index()))
              then Bump(before, v[i].location, v[i].demography.Index(), tids[i], threads)
              else before
  {
    assert v[..i + 1][..i] == v[..i] && tids[..i + 1][..i] == tids[..i];
    CellShardsStep(base, v[..i + 1], tids[..i + 1], infectedOnly, threads);
  }

  lemma HomeShardsPrefixStep(base: seq<seq<nat>>, v: seq<PersonView>, tids: seq<nat>, threads: nat, i: nat)
    requires IsTable(base, NumMunicipalities, threads) && |tids| == |v| && i < |v|
    requires v[i].homeLocation < NumMunicipalities && tids[i] < threads
    ensures var before := HomeShards(base, v[..i], tids[..i], threads);
            HomeShards(base, v[..i + 1], tids[..i + 1], threads) ==
              if v[i].state == Infectious then BumpHome(before, v[i].homeLocation, tids[i], threads) else before
  {
    assert v[..i + 1][..i] == v[..i] && tids[..i + 1][..i] == tids[..i];
    HomeShardsStep(base, v[..i + 1], tids[..i + 1], threads);
  }

  /** Infectious persons of a thread's cell are among the persons of that cell and thread. */
  lemma {:induction false} ShardInfectedAtMostPresent(v: seq<PersonView>, tids: seq<nat>, m: nat, d: nat, k: nat)
    requires |tids| == |v|
    ensures CountShard(v, tids, InfectedAt(m, d), k) <= CountShard(v, tids, Present(m, d), k)
  {
    if |v| > 0 {
      ShardInfectedAtMostPresent(v[..|v| - 1], tids[..|v| - 1], m, d, k);
    }
  }

  lemma CellShardsDominated(infectedBase: seq<seq<seq<nat>>>, totalBase: seq<seq<seq<nat>>>,
                            v: seq<PersonView>, tids: seq<nat>, threads: nat)
    requires IsCellShards(infectedBase, threads) && IsCellShards(totalBase, threads) && |tids| == |v|
    requires Dominated(infectedBase, totalBase, threads)
    ensures Dominated(CellShards(infectedBase, v, tids, true, threads), CellShards(totalBase, v, tids, false, threads), threads)
  {
    forall m, d, k | 0 <= m < NumMunicipalities && 0 <= d < NumDemographies && 0 <= k < threads
      ensures CountShard(v, tids, InfectedAt(m, d), k) <= CountShard(v, tids, Present(m, d), k)
    {
      ShardInfectedAtMostPresent(v, tids, m, d, k);
    }
  }

  /** The sum of every row of a table. */
  function RowSums(row: seq<seq<nat>>): (r: seq<nat>)
    ensures |r| == |row|
  {
    seq(|row|, d requires 0 <= d < |row| => Sum(row[d]))
  }

  /** Each infectious counter is at most the matching presence counter. */
  predicate Dominated(infected: seq<seq<seq<nat>>>, total: seq<seq<seq<nat>>>, threads: nat)
    requires IsCellShards(infected, threads) && IsCellShards(total, threads)
  {
    forall m, d, k :: 0 <= m < NumMunicipalities && 0 <= d < NumDemographies && 0 <= k < threads ==>
      infected[m][d][k] <= total[m][d][k]
  }

  class UpdateStatisticsOp {
    const maxThreads: nat
    /** Infected fraction per (municipality, group). */
    var fractions: seq<seq<real>>
    /** Infectious persons per (municipality, group). */
    var infected: seq<seq<nat>>
    /** Infectious persons per home municipality. */
    var infectedHome: seq<nat>
    /** Persons present per (municipality, group). */
    var total: seq<seq<nat>>
    /** One row of `infectedHome` per hour. */
    var totalInfectedPerMunicipality: seq<seq<nat>>
    /** One row of persons present per municipality per exported hour. */
    var totalPerMunicipality: seq<seq<nat>>
    var infectedTl: seq<seq<seq<nat>>>
    var infectedHomeTl: seq<seq<nat>>
    var totalTl: seq<seq<seq<nat>>>

    ghost predicate Valid()
      reads this
    {
      IsFractionTable(fractions) &&
      IsTable(infected, NumMunicipalities, NumDemographies) &&
      IsTable(total, NumMunicipalities, NumDemographies) &&
      |infectedHome| == NumMunicipalities &&
      IsCellShards(infectedTl, maxThreads) &&
      IsCellShards(totalTl, maxThreads) &&
      IsTable(infectedHomeTl, NumMunicipalities, maxThreads) &&
      Dominated(infectedTl, totalTl, maxThreads)
    }

    /** An operation whose tables and counters start at zero and whose history is empty. */
    constructor (maxThreads: nat)
      ensures Valid() && this.maxThreads == maxThreads
      ensures fractions == seq(NumMunicipalities, m => seq(NumDemographies, d => 0.0))
      ensures totalInfectedPerMunicipality == [] && totalPerMunicipality == []
    {
      this.maxThreads := maxThreads;
      fractions := seq(NumMunicipalities, m => seq(NumDemographies, d => 0.0));
      infected := seq(NumMunicipalities, m => seq(NumDemographies, d => 0));
      total := seq(NumMunicipalities, m => seq(NumDemographies, d => 0));
      infectedHome := seq(NumMunicipalities, m => 0);
      totalInfectedPerMunicipality := [];
      totalPerMunicipality := [];
      infectedTl := ZeroCellShards(maxThreads);
      totalTl := ZeroCellShards(maxThreads);
      infectedHomeTl := seq(NumMunicipalities, m => seq(maxThreads, t => 0));
    }

    /** Sets every per-thread counter to zero and leaves everything else alone. */
    method Reset()
      requires Valid()
      modifies this
      ensures Valid()
      ensures infectedTl == ZeroCellShards(maxThreads) && totalTl == ZeroCellShards(maxThreads)
      ensures infectedHomeTl == seq(NumMunicipalities, m => seq(maxThreads, t => 0))
      ensures fractions == old(fractions) && infected == old(infected) && total == old(total)
      ensures infectedHome == old(infectedHome)
      ensures totalInfectedPerMunicipality == old(totalInfectedPerMunicipality)
      ensures totalPerMunicipality == old(totalPerMunicipality)
    {
      infectedTl := ZeroCellShards(maxThreads);
      totalTl := ZeroCellShards(maxThreads);
      infectedHomeTl := seq(NumMunicipalities, m => seq(maxThreads, t => 0));
    }

    /**
     * Adds every person to the counters of the thread that handles it:
     * `tids[i]` is the thread of `pop[i]`.
     */
    method CountAgents(pop: seq<Person>, tids: seq<nat>)
      requires Valid() && |tids| == |pop|
      requires forall i :: 0 <= i < |tids| ==> tids[i] < maxThreads
      requires forall i :: 0 <= i < |pop| ==>
                 pop[i].location < NumMunicipalities && pop[i].homeLocation < NumMunicipalities
      modifies this`totalTl, this`infectedTl, this`infectedHomeTl
      ensures Valid()
      ensures totalTl == CellShards(old(totalTl), Views(pop), tids, false, maxThreads)
      ensures infectedTl == CellShards(old(infectedTl), Views(pop), tids, true, maxThreads)
      ensures infectedHomeTl == HomeShards(old(infectedHomeTl), Views(pop), tids, maxThreads)
    {
      ghost var v := Views(pop);
      var tt, it, ht := TallyThreads(pop, tids, totalTl, infectedTl, infectedHomeTl, maxThreads);
      CellShardsDominated(infectedTl, totalTl, v, tids, maxThreads);
      totalTl, infectedTl, infectedHomeTl := tt, it, ht;
      assert Views(pop) == v;
    }

    /** Sums the per-thread counters into the tables and derives the fractions. */
    method CombineShards()
      requires Valid()
      modifies this`total, this`infected, this`infectedHome, this`fractions
      ensures Valid()
      ensures forall m :: 0 <= m < NumMunicipalities ==>
                total[m] == RowSums(totalTl[m]) && infected[m] == RowSums(infectedTl[m]) &&
                infectedHome[m] == Sum(infectedHomeTl[m])
      ensures fractions == UpdatedFractions(old(fractions), infected, total)
    {
      ghost var before := fractions;
      for m := 0 to NumMunicipalities
        invariant IsTable(fractions, NumMunicipalities, NumDemographies)
        invariant IsTable(infected, NumMunicipalities, NumDemographies)
        invariant IsTable(total, NumMunicipalities, NumDemographies)
        invariant |infectedHome| == NumMunicipalities
        invariant forall m' :: 0 <= m' < m ==>
                    total[m'] == RowSums(totalTl[m']) && infected[m'] == RowSums(infectedTl[m']) &&
                    infectedHome[m'] == Sum(infectedHomeTl[m']) &&
                    fractions[m'] == FractionRow(before[m'], infected[m'], total[m'])
        invariant forall m' :: 0 <= m' < m ==>
                    forall d :: 0 <= d < NumDemographies ==> infected[m'][d] <= total[m'][d]
        invariant forall m' :: m <= m' < NumMunicipalities ==> fractions[m'] == before[m']
      {
        var home := Accumulate(infectedHomeTl[m]);
        var rowTotal, rowInfected, rowFractions := CombineMunicipality(totalTl[m], infectedTl[m], fractions[m]);
        infectedHome := infectedHome[m := home];
        total := total[m := rowTotal];
        infected := infected[m := rowInfected];
        fractions := fractions[m := rowFractions];
      }
      assert fractions == UpdatedFractions(before, infected, total);
      UpdatedFractionsAreProbabilities(before, infected, total);
    }

    /**
     * Appends this hour's infectious persons per home municipality and, on
     * exported hours, the persons present per municipality.
     */
    method RecordHistory(step: nat, frequency: nat)
      requires Valid()
      modifies this`totalInfectedPerMunicipality, this`totalPerMunicipality
      ensures totalInfectedPerMunicipality == old(totalInfectedPerMunicipality) + [infectedHome]
      ensures totalPerMunicipality == old(totalPerMunicipality) +
                (if frequency != 0 && step % frequency == 0
                 then [RowSums(total)]
                 else [])
    {
      totalInfectedPerMunicipality := totalInfectedPerMunicipality + [infectedHome];
      if frequency != 0 && step % frequency == 0 {
        var totalAtTimestep: seq<nat> := [];
        for m := 0 to NumMunicipalities
          invariant totalAtTimestep == RowSums(total[..m])
          invariant totalInfectedPerMunicipality == old(totalInfectedPerMunicipality) + [infectedHome]
          invariant totalPerMunicipality == old(totalPerMunicipality)
        {
          var present := Accumulate(total[m]);
          assert RowSums(total[..m + 1]) == RowSums(total[..m]) + [Sum(total[m])];
          totalAtTimestep := totalAtTimestep + [present];
        }
        assert total[..NumMunicipalities] == total;
        totalPerMunicipality := totalPerMunicipality + [totalAtTimestep];
      }
    }

    /**
     * One statistics pass on top of the current counters (the program calls
     * it right after `Reset`).
     */
    method CalculateFractions(pop: seq<Person>, tids: seq<nat>, step: nat, frequency: nat)
      requires Valid() && |tids| == |pop|
      requires forall i :: 0 <= i < |tids| ==> tids[i] < maxThreads
      requires forall i :: 0 <= i < |pop| ==>
                 pop[i].location < NumMunicipalities && pop[i].homeLocation < NumMunicipalities
      modifies this
      ensures Valid()
      ensures totalTl == CellShards(old(totalTl), Views(pop), tids, false, maxThreads)
      ensures infectedTl == CellShards(old(infectedTl), Views(pop), tids, true, maxThreads)
      ensures infectedHomeTl == HomeShards(old(infectedHomeTl), Views(pop), tids, maxThreads)
      ensures forall m :: 0 <= m < NumMunicipalities ==>
                total[m] == RowSums(totalTl[m]) && infected[m] == RowSums(infectedTl[m]) &&
                infectedHome[m] == Sum(infectedHomeTl[m])
      ensures fractions == UpdatedFractions(old(fractions), infected, total)
      ensures totalInfectedPerMunicipality == old(totalInfectedPerMunicipality) + [infectedHome]
      ensures totalPerMunicipality == old(totalPerMunicipality) +
                (if frequency != 0 && step % frequency == 0
                 then [RowSums(total)]
                 else [])
    {
      CountAgents(pop, tids);
      ghost var v := Views(pop);
      CombineShards();
      RecordHistory(step, frequency);
      assert Views(pop) == v;
    }

    /**
     * The hourly operation: after it the tables hold exactly the counts of
     * the population, the fractions are updated, and the history grows.
     */
    method Run(pop: seq<Person>, tids: seq<nat>, step: nat, frequency: nat)
      requires Valid() && |tids| == |pop|
      requires forall i :: 0 <= i < |tids| ==> tids[i] < maxThreads
      requires forall i :: 0 <= i < |pop| ==>
                 pop[i].location < NumMunicipalities && pop[i].homeLocation < NumMunicipalities
      modifies this
      ensures Valid()
      ensures forall m, d :: 0 <= m < NumMunicipalities && 0 <= d < NumDemographies ==>
                total[m][d] == Count(Views(pop), Present(m, d)) &&
                infected[m][d] == Count(Views(pop), InfectedAt(m, d))
      ensures forall m :: 0 <= m < NumMunicipalities ==> infectedHome[m] == Count(Views(pop), InfectedHome(m))
      ensures fractions == UpdatedFractions(old(fractions), infected, total)
      ensures totalInfectedPerMunicipality == old(totalInfectedPerMunicipality) + [infectedHome]
      ensures totalPerMunicipality == old(totalPerMunicipality) +
                (if frequency != 0 && step % frequency == 0
                 then [MunicipalityCounts(Views(pop), NumMunicipalities)]
                 else [])
    {
      Reset();
      CalculateFractions(pop, tids, step, frequency);
      ghost var v := Views(pop);
      CellTablesCount(v, tids, false, maxThreads, total);
      CellTablesCount(v, tids, true, maxThreads, infected);
      HomeTableCounts(v, tids, maxThreads, infectedHome);
      RowSumsAreMunicipalityCounts(v, total);
    }
  }

  /** Row sums of the per-thread counters started at zero are the counts of the cells. */
  lemma CellTablesCount(v: seq<PersonView>, tids: seq<nat>, infectedOnly: bool, threads: nat,
                        table: seq<seq<nat>>)
    requires |tids| == |v| && forall i :: 0 <= i < |tids| ==> tids[i] < threads
    requires IsTable(table, NumMunicipalities, NumDemographies)
    requires forall m :: 0 <= m < NumMunicipalities ==>
               table[m] == RowSums(CellShards(ZeroCellShards(threads), v, tids, infectedOnly, threads)[m])
    ensures forall m, d :: 0 <= m < NumMunicipalities && 0 <= d < NumDemographies ==>
              table[m][d] == Count(v, CellCategory(infectedOnly, m, d))
  {
    var shards := CellShards(ZeroCellShards(threads), v, tids, infectedOnly, threads);
    forall m, d | 0 <= m < NumMunicipalities && 0 <= d < NumDemographies
      ensures table[m][d] == Count(v, CellCategory(infectedOnly, m, d))
    {
      assert shards[m][d] == ShardCounts(v, tids, CellCategory(infectedOnly, m, d), threads);
      ShardsSumToCount(v, tids, CellCategory(infectedOnly, m, d), threads);
    }
  }

  /** Sums of the per-thread home counters started at zero are the counts of the homes. */
  lemma HomeTableCounts(v: seq<PersonView>, tids: seq<nat>, threads: nat, table: seq<nat>)
    requires |tids| == |v| && forall i :: 0 <= i < |tids| ==> tids[i] < threads
    requires |table| == NumMunicipalities
    requires forall m :: 0 <= m < NumMunicipalities ==>
               table[m] == Sum(HomeShards(seq(NumMunicipalities, m => seq(threads, t => 0)), v, tids, threads)[m])
    ensures forall m :: 0 <= m < NumMunicipalities ==> table[m] == Count(v, InfectedHome(m))
  {
    var shards := HomeShards(seq(NumMunicipalities, m => seq(threads, t => 0)), v, tids, threads);
    forall m | 0 <= m < NumMunicipalities
      ensures table[m] == Count(v, InfectedHome(m))
    {
      assert shards[m] == ShardCounts(v, tids, InfectedHome(m), threads);
      ShardsSumToCount(v, tids, InfectedHome(m), threads);
    }
  }

  /** A table holding the present counts sums, row by row, to the persons per municipality. */
  lemma RowSumsAreMunicipalityCounts(v: seq<PersonView>, total: seq<seq<nat>>)
    requires IsTable(total, NumMunicipalities, NumDemographies)
    requires forall m, d :: 0 <= m < NumMunicipalities && 0 <= d < NumDemographies ==>
               total[m][d] == Count(v, Present(m, d))
    ensures RowSums(total) == MunicipalityCounts(v, NumMunicipalities)
  {
    forall m | 0 <= m < NumMunicipalities
      ensures Sum(total[m]) == Count(v, InMunicipality(m))
    {
      assert total[m] == MunicipalityRow(v, m);
      RowSumIsMunicipalityCount(v, m);
    }
  }

  /**
   * Counts every person into the per-thread counters of its cell and, when
   * infectious, of its cell and its home municipality.
   */
  method TallyThreads(pop: seq<Person>, tids: seq<nat>, totalTl: seq<seq<seq<nat>>>,
                      infectedTl: seq<seq<seq<nat>>>, infectedHomeTl: seq<seq<nat>>, threads: nat)
    returns (tt: seq<seq<seq<nat>>>, it: seq<seq<seq<nat>>>, ht: seq<seq<nat>>)
    requires IsCellShards(totalTl, threads) && IsCellShards(infectedTl, threads)
    requires IsTable(infectedHomeTl, NumMunicipalities, threads)
    requires |tids| == |pop| && forall i :: 0 <= i < |tids| ==> tids[i] < threads
    requires forall i :: 0 <= i < |pop| ==>
               pop[i].location < NumMunicipalities && pop[i].homeLocation < NumMunicipalities
    ensures tt == CellShards(totalTl, Views(pop), tids, false, threads)
    ensures it == CellShards(infectedTl, Views(pop), tids, true, threads)
    ensures ht == HomeShards(infectedHomeTl, Views(pop), tids, threads)
  {
    ghost var v := Views(pop);
    tt, it, ht := totalTl, infectedTl, infectedHomeTl;
    CellShardsEmpty(tt, false, threads);
    CellShardsEmpty(it, true, threads);
    HomeShardsEqual(HomeShards(ht, [], [], threads), ht, threads);
    assert v[..0] == [] && tids[..0] == [];
    for i := 0 to |pop|
      invariant tt == CellShards(totalTl, v[..i], tids[..i], false, threads)
      invariant it == CellShards(infectedTl, v[..i], tids[..i], true, threads)
      invariant ht == HomeShards(infectedHomeTl, v[..i], tids[..i], threads)
    {
      var person := pop[i];
      var tid := tids[i];
      assert v[i] == person.View();
      CellShardsPrefixStep(totalTl, v, tids, false, threads, i);
      CellShardsPrefixStep(infectedTl, v, tids, true, threads, i);
      HomeShardsPrefixStep(infectedHomeTl, v, tids, threads, i);
      tt := Bump(tt, person.location, person.demography.Index(), tid, threads);
      if person.state == Infectious {
        it := Bump(it, person.location, person.demography.Index(), tid, threads);
        ht := BumpHome(ht, person.homeLocation, tid, threads);
      }
    }
    assert v[..|pop|] == v && tids[..|pop|] == tids;
  }

  /** Sums the counters of one municipality, one group at a time. */
  method CombineMunicipality(totalRow: seq<seq<nat>>, infectedRow: seq<seq<nat>>, previous: seq<real>)
    returns (rowTotal: seq<nat>, rowInfected: seq<nat>, rowFractions: seq<real>)
    requires |totalRow| == |infectedRow| == |previous|
    requires forall d :: 0 <= d < |totalRow| ==> |infectedRow[d]| == |totalRow[d]|
    requires forall d, k :: 0 <= d < |totalRow| && 0 <= k < |totalRow[d]| ==> infectedRow[d][k] <= totalRow[d][k]
    ensures rowTotal == RowSums(totalRow) && rowInfected == RowSums(infectedRow)
    ensures rowFractions == FractionRow(previous, rowInfected, rowTotal)
    ensures forall d :: 0 <= d < |rowTotal| ==> rowInfected[d] <= rowTotal[d]
  {
    rowTotal, rowInfected, rowFractions := [], [], [];
    for d := 0 to |totalRow|
      invariant rowTotal == RowSums(totalRow[..d]) && rowInfected == RowSums(infectedRow[..d])
      invariant rowFractions == FractionRow(previous[..d], rowInfected, rowTotal)
      invariant forall d' :: 0 <= d' < d ==> rowInfected[d'] <= rowTotal[d']
    {
      var cellTotal := Accumulate(totalRow[d]);
      var cellInfected := Accumulate(infectedRow[d]);
      SumMonotone(infectedRow[d], totalRow[d]);
      rowTotal := rowTotal + [cellTotal];
      rowInfected := rowInfected + [cellInfected];
      rowFractions := rowFractions + [if cellTotal != 0 then cellInfected as real / cellTotal as real else previous[d]];
    }
    assert totalRow[..|totalRow|] == totalRow && infectedRow[..|infectedRow|] == infectedRow;
    assert previous[..|previous|] == previous;
  }
}
