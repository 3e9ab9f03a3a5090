/**
 * The time series recorded each hour: the exposed, infectious and
 * hospitalized persons, the hospitalized persons living in three cities,
 * each counted over the agents and scaled to persons, and, per group, the
 * share of the group that has ever been infected.
 */
module Evaluate {
  import opened Numerics
  import opened ModelFacts
  import opened Persons
  import opened UpdateStatistics

  /** Home municipalities of the three city series. */
  const Eindhoven: nat := 93
  const Groningen: nat := 118
  const DenHaag: nat := 117

  /** The series recorded, each an agent filter. */
  datatype Collector =
    | ExposedSeries
    | InfectiousSeries
    | HospitalizedSeries
    | HospitalizedFrom(home: nat)   // hospitalized and living in `home`
    | AffectedSeries(group: nat)      // of the group and exposed, infectious or recovered

  /** The agents a series counts. */
  predicate Selects(c: Collector, x: PersonView)
  {
    match c
    case ExposedSeries => x.state == Exposed
    case InfectiousSeries => x.state == Infectious
    case HospitalizedSeries => x.hospitalized
    case HospitalizedFrom(home) => x.hospitalized && x.homeLocation == home
    case AffectedSeries(group) =>
      x.demography.Index() == group && x.state in {Exposed, Infectious, Recovered}
  }

  /** Number of agents a series counts. */
  function Tally(v: seq<PersonView>, c: Collector): nat
  {
    if |v| == 0 then 0
    else Tally(v[..|v| - 1], c) + (if Selects(c, v[|v| - 1]) then 1 else 0)
  }

  /** An agent count turned into a person count by the agent-to-person ratio. */
  function AgentToPersonScaling(agentCount: real, ratio: Extended): (r: Extended)
    ensures ratio.Finite? ==> r == Finite(agentCount * ratio.value)
    ensures ratio == NaN ==> r == NaN
  {
    Times(ratio, agentCount)
  }

  /** The value recorded by one of the scaled series. */
  function ScaledSeries(v: seq<PersonView>, c: Collector, ratio: Extended): Extended
  {
    AgentToPersonScaling(Tally(v, c) as real, ratio)
  }

  /** A city series never counts more agents than the national hospital series. */
  lemma {:induction false} CityAtMostNational(v: seq<PersonView>, home: nat)
    ensures Tally(v, HospitalizedFrom(home)) <= Tally(v, HospitalizedSeries)
  {
    if |v| > 0 {
      CityAtMostNational(v[..|v| - 1], home);
    }
  }

  /** With a finite non-negative ratio the same holds for the recorded person counts. */
  lemma ScaledCityAtMostNational(v: seq<PersonView>, home: nat, ratio: real)
    requires ratio >= 0.0
    ensures ScaledSeries(v, HospitalizedFrom(home), Finite(ratio)).value <=
            ScaledSeries(v, HospitalizedSeries, Finite(ratio)).value
  {
    CityAtMostNational(v, home);
    var a, b := Tally(v, HospitalizedFrom(home)) as real, Tally(v, HospitalizedSeries) as real;
    assert a * ratio <= b * ratio by {
      assert (b - a) * ratio >= 0.0;
    }
  }

  /** Agents of a group. */
  function Members(v: seq<PersonView>, group: nat): nat
  {
    if |v| == 0 then 0
    else Members(v[..|v| - 1], group) + (if v[|v| - 1].demography.Index() == group then 1 else 0)
  }

  /** Susceptible agents of a group. */
  function SusceptibleMembers(v: seq<PersonView>, group: nat): nat
  {
    if |v| == 0 then 0
    else
      SusceptibleMembers(v[..|v| - 1], group) +
      (if v[|v| - 1].demography.Index() == group && v[|v| - 1].state == Susceptible then 1 else 0)
  }

  /**
   * Every agent of a group is either affected or susceptible, never both:
   * the affected series counts exactly the group's non-susceptible agents.
   */
  lemma {:induction false} AffectedPartition(v: seq<PersonView>, group: nat)
    ensures Tally(v, AffectedSeries(group)) + SusceptibleMembers(v, group) == Members(v, group)
  {
    if |v| > 0 {
      AffectedPartition(v[..|v| - 1], group);
    }
  }

  /** One group's entries of a table of cells, one per municipality row. */
  function Column(table: seq<seq<nat>>, group: nat): (c: seq<nat>)
    requires forall m :: 0 <= m < |table| ==> group < |table[m]|
    ensures |c| == |table|
  {
    seq(|table|, m requires 0 <= m < |table| => table[m][group])
  }

  /**
   * The persons of a group over all municipalities, summed row by row from
   * the statistics table of persons present.
   */
  method PopulationPerDemography(total: seq<seq<nat>>, group: nat) returns (population: nat)
    requires forall m :: 0 <= m < |total| ==> group < |total[m]|
    ensures population == Sum(Column(total, group))
  {
    ghost var column := Column(total, group);
    population := 0;
    for m := 0 to |total|
      invariant population == Sum(column[..m])
    {
      assert column[..m + 1][..m] == column[..m];
      population := population + total[m][group];
    }
    assert column[..|total|] == column;
  }

  /**
   * The affected share of a group: the affected count over the group's
   * persons from the statistics table, a floating-point division.
   */
  method AffectedShare(totalAffected: nat, total: seq<seq<nat>>, group: nat) returns (r: Extended)
    requires forall m :: 0 <= m < |total| ==> group < |total[m]|
    ensures r == Divide(totalAffected as real, Sum(Column(total, group)) as real)
  {
    var population := PopulationPerDemography(total, group);
    r := Divide(totalAffected as real, population as real);
  }

  /** The group's column of the table the statistics pass fills from a population. */
  function PresentColumn(v: seq<PersonView>, group: nat): (c: seq<nat>)
    ensures |c| == NumMunicipalities
  {
    seq(NumMunicipalities, m requires 0 <= m < NumMunicipalities => Count(v, Present(m, group)))
  }

  /** When every agent is in a modelled municipality, a group's column adds up to the group. */
  lemma {:induction false} PresentColumnCoversGroup(v: seq<PersonView>, group: nat)
    requires forall i :: 0 <= i < |v| ==> v[i].location < NumMunicipalities
    ensures Sum(PresentColumn(v, group)) == Members(v, group)
  {
    if |v| == 0 {
      assert PresentColumn(v, group) == seq(NumMunicipalities, _ => 0);
      SumZeros(NumMunicipalities);
    } else {
      var n := |v| - 1;
      PresentColumnCoversGroup(v[..n], group);
      var before := PresentColumn(v[..n], group);
      var k := v[n].location;
      if v[n].demography.Index() == group {
        assert PresentColumn(v, group) == before[k := before[k] + 1];
        SumUpdate(before, k, before[k] + 1);
      } else {
        assert PresentColumn(v, group) == before;
      }
    }
  }

  /** The table of persons present per (municipality, group) of a population. */
  predicate CountsPresent(total: seq<seq<nat>>, v: seq<PersonView>)
  {
    IsTable(total, NumMunicipalities, NumDemographies) &&
    forall m, d :: 0 <= m < NumMunicipalities && 0 <= d < NumDemographies ==>
      total[m][d] == Count(v, Present(m, d))
  }

  /** The statistics table of a population holds its present counts in each group's column. */
  lemma ColumnOfCounts(total: seq<seq<nat>>, v: seq<PersonView>, group: nat)
    requires group < NumDemographies && CountsPresent(total, v)
    ensures Column(total, group) == PresentColumn(v, group)
  {
  }

  /** Of `n` things, `a` of one kind and the other `s`: the share of the first kind. */
  lemma ComplementShare(a: nat, s: nat, n: nat)
    requires a + s == n && n > 0
    ensures 0.0 <= a as real / n as real <= 1.0
    ensures a as real / n as real == (n - s) as real / n as real
  {
    var x, z := a as real, n as real;
    var q := x / z;
    assert q * z == x;
    assert (1.0 - q) * z == z - x;
  }

  /** Fed the statistics table of the same population, a group's column sums to the group. */
  lemma GroupPopulationFromTable(v: seq<PersonView>, total: seq<seq<nat>>, group: nat)
    requires group < NumDemographies && CountsPresent(total, v)
    requires forall i :: 0 <= i < |v| ==> v[i].location < NumMunicipalities
    ensures Sum(Column(total, group)) == Members(v, group)
  {
    ColumnOfCounts(total, v, group);
    PresentColumnCoversGroup(v, group);
  }

  /**
   * The affected count of a group over the group's agents is the share of
   * its agents that are not susceptible, between zero and one; a group
   * with no agents gives not-a-number.
   */
  lemma AffectedShareOfGroup(v: seq<PersonView>, group: nat)
    ensures var r := Divide(Tally(v, AffectedSeries(group)) as real, Members(v, group) as real);
            (Members(v, group) == 0 ==> r == NaN) &&
            (Members(v, group) > 0 ==>
               r.Finite? && 0.0 <= r.value <= 1.0 &&
               r.value == (Members(v, group) - SusceptibleMembers(v, group)) as real / Members(v, group) as real)
  {
    AffectedPartition(v, group);
    var a, s, n := Tally(v, AffectedSeries(group)), SusceptibleMembers(v, group), Members(v, group);
    if n > 0 {
      ComplementShare(a, s, n);
    }
  }

  /**
   * Fed the statistics table of the same population, the share the
   * post-processing computes is the affected share of the group.
   */
  lemma AffectedShareOfPopulation(v: seq<PersonView>, total: seq<seq<nat>>, group: nat)
    requires group < NumDemographies && CountsPresent(total, v)
    requires forall i :: 0 <= i < |v| ==> v[i].location < NumMunicipalities
    ensures Divide(Tally(v, AffectedSeries(group)) as real, Sum(Column(total, group)) as real) ==
            Divide(Tally(v, AffectedSeries(group)) as real, Members(v, group) as real)
  {
    GroupPopulationFromTable(v, total, group);
  }

  /**
   * The regression fixture: 10000 elderly agents of which 6000 are
   * susceptible give an affected share of 0.4 for the elderly.
   */
  lemma FixtureAffectedElderly(v: seq<PersonView>, total: seq<seq<nat>>)
    requires CountsPresent(total, v)
    requires forall i :: 0 <= i < |v| ==> v[i].location < NumMunicipalities
    requires Members(v, Elderly.Index()) == 10000 && SusceptibleMembers(v, Elderly.Index()) == 6000
    ensures Divide(Tally(v, AffectedSeries(Elderly.Index())) as real,
                   Sum(Column(total, Elderly.Index())) as real) == Finite(0.4)
  {
    var g := Elderly.Index();
    AffectedShareOfPopulation(v, total, g);
    AffectedShareOfGroup(v, g);
    FixtureShare(SusceptibleMembers(v, g), Members(v, g));
  }

  lemma FixtureShare(susceptible: nat, members: nat)
    requires susceptible == 6000 && members == 10000
    ensures (members - susceptible) as real / members as real == 0.4
  {
  }
}
