/**
 * The hourly export of the average number of daily contacts per person:
 * every agent's contacts in its current situation are summed, averaged
 * over the agents and scaled to persons.
 */
module ExportStatistics {
  import opened Numerics
  import opened ModelFacts
  import opened InfectionModel
  import opened Environment
  import opened Persons
  import opened PopulationScaling

  /** The daily contacts of an agent: its group's row of its situation's matrix, summed. */
  function Interactions(x: PersonView, env: CovidEnvironment): real
    requires env.Valid()
    reads env
  {
    SumReal(env.GetMixingMatrix(x.situation)[x.demography.Index()])
  }

  /**
   * Adds up a person's contacts with every group. Scaled by the infected
   * fraction of its cell this is the mixing weight that drives its
   * infection.
   */
  method CountInteractions(p: Person, env: CovidEnvironment) returns (ret: real)
    requires env.Valid()
    ensures ret == Interactions(p.View(), env)
    ensures forall fraction: real ::
              MixingWeight(env.GetMixingMatrix(p.situation)[p.demography.Index()], fraction) == ret * fraction
  {
    ret := 0.0;
    var demography := p.demography.Index();
    var mixMat := env.GetMixingMatrix(p.situation);
    ghost var row := mixMat[demography];
    for otherDemo := 0 to NumDemographies
      invariant ret == SumReal(row[..otherDemo])
    {
      assert row[..otherDemo + 1][..otherDemo] == row[..otherDemo];
      ret := ret + mixMat[demography][otherDemo];
    }
    assert row[..NumDemographies] == row;
  }

  /** The contacts of all agents. */
  function TotalInteractions(v: seq<PersonView>, env: CovidEnvironment): real
    requires env.Valid()
    reads env
  {
    if |v| == 0 then 0.0 else TotalInteractions(v[..|v| - 1], env) + Interactions(v[|v| - 1], env)
  }

  /**
   * The value exported for a population: the average contacts per agent
   * times the agent-to-person ratio, both floating-point operations; an
   * empty population gives not-a-number. Contacts that are not finite
   * leave no finite export; not-a-number stands for that value.
   */
  function AverageInteractions(v: seq<PersonView>, env: CovidEnvironment, customRatio: real): (r: Extended)
    requires env.Valid()
    reads env
    ensures |v| == 0 ==> r == NaN
    ensures |v| > 0 ==> (r.Finite? <==> env.contactsFinite)
  {
    Exported(TotalInteractions(v, env), |v|, AgentToPersonRatio(customRatio, |v|), env.contactsFinite)
  }

  /** The exported value of a total over `n` agents, scaled by the ratio. */
  function Exported(total: real, n: nat, ratio: Extended, finite: bool): Extended
  {
    if n > 0 && !finite then NaN else Multiply(Divide(total, n as real), ratio)
  }

  /** With every agent's contacts in [lo, hi], the total is between |v|·lo and |v|·hi. */
  lemma {:induction false} TotalInteractionsBounds(v: seq<PersonView>, env: CovidEnvironment, lo: real, hi: real)
    requires env.Valid()
    requires forall i :: 0 <= i < |v| ==> lo <= Interactions(v[i], env) <= hi
    ensures |v| as real * lo <= TotalInteractions(v, env) <= |v| as real * hi
  {
    if |v| > 0 {
      var n := |v| - 1;
      assert forall i :: 0 <= i < n ==> v[..n][i] == v[i];
      TotalInteractionsBounds(v[..n], env, lo, hi);
      assert (n + 1) as real * lo == n as real * lo + lo;
      assert (n + 1) as real * hi == n as real * hi + hi;
    }
  }

  /** A quotient of a total between n·lo and n·hi by n lies in [lo, hi]. */
  lemma MeanBetween(total: real, n: real, lo: real, hi: real)
    requires n > 0.0 && n * lo <= total <= n * hi
    ensures lo <= total / n <= hi
  {
    assert (total / n) * n == total;
  }

  /** Scaling by a non-negative factor keeps the order of the bounds. */
  lemma ScaleBetween(q: real, k: real, lo: real, hi: real)
    requires k >= 0.0 && lo <= q <= hi
    ensures lo * k <= q * k <= hi * k
  {
    assert (q - lo) * k >= 0.0;
    assert (hi - q) * k >= 0.0;
  }

  /**
   * When every agent has between `lo` and `hi` daily contacts, the
   * exported value lies between `lo` and `hi` persons' worth of contacts
   * times the agent-to-person ratio.
   */
  lemma ExportedAverageBounds(v: seq<PersonView>, env: CovidEnvironment, customRatio: real, lo: real, hi: real)
    requires env.Valid() && env.contactsFinite && |v| > 0 && customRatio >= 0.0
    requires forall i :: 0 <= i < |v| ==> lo <= Interactions(v[i], env) <= hi
    ensures var ratio := AgentToPersonRatio(customRatio, |v|).value;
            lo * ratio <= AverageInteractions(v, env, customRatio).value <= hi * ratio
  {
    TotalInteractionsBounds(v, env, lo, hi);
    var total, n := TotalInteractions(v, env), |v| as real;
    MeanBetween(total, n, lo, hi);
    ScaleBetween(total / n, AgentToPersonRatio(customRatio, |v|).value, lo, hi);
  }

  /** The contacts of every agent, summed in agent order. */
  method SumInteractions(pop: seq<Person>, env: CovidEnvironment) returns (total: real)
    requires env.Valid()
    ensures total == TotalInteractions(Views(pop), env)
  {
    ghost var v := Views(pop);
    total := 0.0;
    for i := 0 to |pop|
      invariant total == TotalInteractions(v[..i], env)
    {
      assert v[..i + 1][..i] == v[..i];
      assert v[i] == pop[i].View();
      var numInteractions := CountInteractions(pop[i], env);
      total := total + numInteractions;
    }
    assert v[..|pop|] == v;
  }

  /** The operation that keeps the exported averages, one per hour. */
  class ExportStatisticsOp {
    var avgPersonInteractionsOverTime: seq<Extended>

    /** An operation with nothing exported yet. */
    constructor ()
      ensures avgPersonInteractionsOverTime == []
    {
      avgPersonInteractionsOverTime := [];
    }

    /** Appends the scaled average of the agents' daily contacts. */
    method Run(pop: seq<Person>, env: CovidEnvironment, customRatio: real)
      requires env.Valid()
      modifies this`avgPersonInteractionsOverTime
      ensures avgPersonInteractionsOverTime ==
                old(avgPersonInteractionsOverTime) + [AverageInteractions(Views(pop), env, customRatio)]
    {
      var totalInteractions := SumInteractions(pop, env);
      var scaling := AgentToPersonRatio(customRatio, |pop|);
      var numAgents := |pop|;
      var average := Exported(totalInteractions, numAgents, scaling, env.contactsFinite);
      avgPersonInteractionsOverTime := avgPersonInteractionsOverTime + [average];
    }
  }
}
