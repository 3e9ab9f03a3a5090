/**
 * The infection behaviour attached to every person: each hour it computes
 * the person's mixing weight from the contact matrix of its situation and
 * the infected fractions of the statistics pass, then advances the SEIR
 * course one hour. The two uniform draws of the hour are parameters.
 */
module InfectionBehavior {
  import opened Numerics
  import opened ModelFacts
  import opened InfectionModel
  import opened Environment
  import opened Persons
  import opened UpdateStatistics

  /** The sum of the first `n` entries of a row, each times `f`, equals the prefix sum times `f`. */
  lemma PrefixMixingStep(row: seq<real>, f: real, n: nat)
    requires n < |row|
    ensures SumReal(row[..n + 1]) * f == SumReal(row[..n]) * f + row[n] * f
  {
    assert row[..n + 1][..n] == row[..n];
  }

  /**
   * The mixing weight of a person: for every other group, the contacts of
   * its own group's row times the infected fraction of its own group and
   * municipality, summed.
   */
  method DemographicMixing(p: Person, env: CovidEnvironment, stats: UpdateStatisticsOp) returns (ret: real)
    requires env.Valid() && stats.Valid() && p.location < NumMunicipalities
    ensures ret == MixingWeight(env.GetMixingMatrix(p.situation)[p.demography.Index()],
                                stats.fractions[p.location][p.demography.Index()])
  {
    ret := 0.0;
    var demography := p.demography.Index();
    var municipality := p.location;
    var mixMat := env.GetMixingMatrix(p.situation);
    var fraction := stats.fractions[municipality][demography];
    ghost var row := mixMat[demography];
    for otherDemo := 0 to NumDemographies
      invariant ret == SumReal(row[..otherDemo]) * fraction
    {
      PrefixMixingStep(row, fraction, otherDemo);
      ret := ret + mixMat[demography][otherDemo] * fraction;
    }
    assert row[..NumDemographies] == row;
  }

  /**
   * With non-negative contacts and the fraction a probability, the mixing
   * weight lies between zero and the person's daily contacts.
   */
  lemma MixingWeightBounds(row: seq<real>, fraction: real)
    requires forall j :: 0 <= j < |row| ==> row[j] >= 0.0
    requires 0.0 <= fraction <= 1.0
    ensures 0.0 <= MixingWeight(row, fraction) <= SumReal(row)
  {
    SumRealNonNegative(row);
  }

  /**
   * The probability that a susceptible person is exposed in the hour of
   * `step`, while the intervention phase `phase` is in force.
   */
  function HourlyForce(p: Person, env: CovidEnvironment, stats: UpdateStatisticsOp, betas: Betas, phase: nat,
                       step: nat): real
    requires env.Valid() && stats.Valid() && p.location < NumMunicipalities
    reads p`situation, p`location, env, stats
  {
    ForceOfInfection(p.demography, PhaseToBeta(betas, phase), step % HoursPerDay,
      MixingWeight(env.GetMixingMatrix(p.situation)[p.demography.Index()],
                   stats.fractions[p.location][p.demography.Index()]))
  }

  /** Draws hospital eligibility on the first run only. */
  method DecideOnFirstRun(p: Person, probability: real, u: real)
    modifies p`infection
    ensures p.infection == DecideEligibility(old(p.infection), probability, u)
  {
    if !p.infection.initialized {
      if u <= probability {
        p.infection := p.infection.(hospitalizePerson := true);
      }
      p.infection := p.infection.(initialized := true);
    }
  }

  /**
   * A susceptible person is exposed when the draw is at most the hour's
   * force of infection: its susceptibility times the phase's transmission
   * rate, the sleep weight of the hour and the mixing weight.
   */
  method AdvanceSusceptible(p: Person, env: CovidEnvironment, stats: UpdateStatisticsOp, betas: Betas, phase: nat,
                            step: nat, infectionDraw: real)
    requires env.Valid() && stats.Valid() && p.location < NumMunicipalities && p.state == Susceptible
    modifies p`state
    ensures p.Epi() == Progress(old(p.Epi()), HourlyForce(p, env, stats, betas, phase, step), infectionDraw)
  {
    var hourOfDay := step % HoursPerDay;
    var s := DailySleepPattern()[hourOfDay];
    var mixSum := DemographicMixing(p, env, stats);
    var lambda := Susceptibility()[p.demography.Index()] * PhaseToBeta(betas, phase) * s * mixSum;
    assert lambda == HourlyForce(p, env, stats, betas, phase, step);
    if infectionDraw <= lambda && lambda > 0.0 {
      p.state := Exposed;
    }
  }

  /** An exposed person becomes infectious after the incubation time, or waits one more hour. */
  method AdvanceExposed(p: Person, ghost lambda: real, ghost infectionDraw: real)
    requires p.state == Exposed
    modifies p`state, p`infection
    ensures p.Epi() == Progress(old(p.Epi()), lambda, infectionDraw)
  {
    if p.infection.incubationTime > p.infection.incubationTimeThreshold {
      p.state := Infectious;
    } else {
      p.infection := p.infection.(incubationTime := p.infection.incubationTime + 1);
    }
  }

  /**
   * An infectious person recovers after the infectious period; until then
   * its clocks advance and an eligible person is admitted after the lag.
   */
  method AdvanceInfectious(p: Person, ghost lambda: real, ghost infectionDraw: real)
    requires p.state == Infectious
    modifies p`state, p`hospitalized, p`infection
    ensures p.Epi() == Progress(old(p.Epi()), lambda, infectionDraw)
  {
    if p.infection.infectionTime > p.infection.infectionTimeThreshold {
      p.state := Recovered;
    } else {
      p.infection := p.infection.(hospitalizationTime := p.infection.hospitalizationTime + 1);
      p.infection := p.infection.(infectionTime := p.infection.infectionTime + 1);
      if p.infection.hospitalizationTime > p.infection.hospitalizationTimeThreshold &&
         p.infection.hospitalizePerson {
        p.hospitalized := true;
      }
    }
  }

  /**
   * A recovered person may still be admitted after the lag, and leaves
   * hospital once the length of stay has passed.
   */
  method AdvanceRecovered(p: Person, ghost lambda: real, ghost infectionDraw: real)
    requires p.state == Recovered
    modifies p`hospitalized, p`infection
    ensures p.Epi() == Progress(old(p.Epi()), lambda, infectionDraw)
  {
    p.infection := p.infection.(hospitalizationTime := p.infection.hospitalizationTime + 1);
    if p.infection.hospitalizationTime > p.infection.hospitalizationTimeThreshold &&
       p.infection.hospitalizePerson {
      p.hospitalized := true;
    }
    if p.hospitalized {
      if p.infection.timeInHospital > p.infection.hospitalLengthOfStay {
        p.hospitalized := false;
      } else {
        p.infection := p.infection.(timeInHospital := p.infection.timeInHospital + 1);
      }
    }
  }

  /**
   * One hour of the disease course of `p`. The mixing weight is computed
   * only for a susceptible person; every other change of state is the
   * transition `Step` with the person's hospitalisation chance.
   */
  method Run(p: Person, env: CovidEnvironment, stats: UpdateStatisticsOp, betas: Betas, phase: nat, step: nat,
             draws: StepDraws)
    requires env.Valid() && stats.Valid() && p.location < NumMunicipalities
    modifies p`state, p`hospitalized, p`infection
    ensures p.Epi() == Step(old(p.Epi()), HospitalizationPerDemography(p.demography),
                            old(HourlyForce(p, env, stats, betas, phase, step)), draws)
  {
    var g := p.demography;
    ghost var lambda0 := HourlyForce(p, env, stats, betas, phase, step);
    DecideOnFirstRun(p, HospitalizationPerDemography(g), draws.eligibility);
    if p.state == Susceptible {
      AdvanceSusceptible(p, env, stats, betas, phase, step, draws.infection);
    } else if p.state == Exposed {
      AdvanceExposed(p, lambda0, draws.infection);
    } else if p.state == Infectious {
      AdvanceInfectious(p, lambda0, draws.infection);
    } else {
      AdvanceRecovered(p, lambda0, draws.infection);
    }
  }
}
