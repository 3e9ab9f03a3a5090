/**
 * The SEIR disease course of one person, as a pure transition on the
 * person's epidemic state and the clocks of its infection behaviour. One
 * call of `Step` is one simulated hour. The random draws of the program
 * are parameters.
 */
module InfectionModel {
  import opened Numerics
  import opened ModelFacts

  /** The transmission rates of the four intervention phases. */
  datatype Betas = Betas(beta1: real, beta2: real, beta3: real, beta4: real)

  /** The rate of the active phase, with the branch conditions as the program writes them. */
  function PhaseToBeta(b: Betas, phase: nat): (r: real)
    ensures phase == 0 ==> r == b.beta1
    ensures phase == 1 ==> r == b.beta2
    ensures phase >= 2 ==> r == b.beta4
  {
    if phase == 0 then b.beta1
    else if phase == 1 then b.beta2
    else if phase == 1 then b.beta3
    else b.beta4
  }

  /**
   * The third rate is never selected: the second test repeats `phase == 1`,
   * so every phase from 2 onwards gets the fourth rate.
   */
  lemma PhaseThreeRateUnused(b: Betas, phase: nat)
    requires b.beta3 != b.beta1 && b.beta3 != b.beta2 && b.beta3 != b.beta4
    ensures PhaseToBeta(b, phase) != b.beta3
  {
  }

  /** The mixing weight of a person: the contacts of its row times its group's fraction. */
  function MixingWeight(row: seq<real>, fraction: real): real
  {
    SumReal(row) * fraction
  }

  /** Probability per hour that a susceptible person is exposed. */
  function ForceOfInfection(d: Demographic, beta: real, hourOfDay: nat, mixSum: real): real
    requires hourOfDay < HoursPerDay
  {
    Susceptibility()[d.Index()] * beta * DailySleepPattern()[hourOfDay] * mixSum
  }

  /** Nobody is exposed while the population sleeps. */
  lemma ForceOfInfectionZeroAtNight(d: Demographic, beta: real, hourOfDay: nat, mixSum: real)
    requires hourOfDay < 6 || hourOfDay == 23
    ensures ForceOfInfection(d, beta, hourOfDay, mixSum) == 0.0
  {
    DailySleepPatternIsDistribution();
  }

  /** With non-negative rates and contacts, the force of infection is non-negative. */
  lemma ForceOfInfectionNonNegative(d: Demographic, beta: real, hourOfDay: nat, mixSum: real)
    requires hourOfDay < HoursPerDay && beta >= 0.0 && mixSum >= 0.0
    ensures ForceOfInfection(d, beta, hourOfDay, mixSum) >= 0.0
  {
    DailySleepPatternIsDistribution();
    SusceptibilityAveragesToOne();
    var s := Susceptibility()[d.Index()];
    var p := DailySleepPattern()[hourOfDay];
    assert s * beta >= 0.0;
    assert s * beta * p >= 0.0;
  }

  /** The clocks and flags of one person's infection behaviour (all counted in hours). */
  datatype InfectionClocks = InfectionClocks(
    infectionTime: nat,
    infectionTimeThreshold: nat,
    incubationTime: nat,
    incubationTimeThreshold: nat,
    hospitalizationTime: nat,
    hospitalizationTimeThreshold: nat,
    hospitalLengthOfStay: nat,
    timeInHospital: nat,
    hospitalizePerson: bool,
    initialized: bool)

  const ZeroClocks: InfectionClocks := InfectionClocks(0, 0, 0, 0, 0, 0, 0, 0, false, false)

  /**
   * The draws made when thresholds are set: three Weibull durations, a
   * log-normal length of stay in days, and a uniform fraction used for the
   * time already spent in the initial state.
   */
  datatype DurationDraws = DurationDraws(
    incubation: real, infection: real, hospitalization: real,
    lengthOfStayDays: real, elapsed: real)

  /** A uniform draw on (0, 1], the interval of the random engine. */
  predicate IsUnitDraw(u: real)
  {
    0.0 < u <= 1.0
  }

  predicate ValidDurationDraws(d: DurationDraws)
  {
    d.incubation >= 0.0 && d.infection >= 0.0 && d.hospitalization >= 0.0 &&
    d.lengthOfStayDays >= 0.0 && IsUnitDraw(d.elapsed)
  }

  /** Conversion of a non-negative floating-point value to an unsigned integer. */
  function Truncate(x: real): (n: nat)
    requires x >= 0.0
    ensures n as real <= x < n as real + 1.0
  {
    x.Floor
  }

  /**
   * Sets the four thresholds from fresh draws; a person that starts as
   * exposed or infectious is given a uniformly drawn time already spent in
   * that state, never beyond the threshold.
   */
  function DrawFromDistributions(c: InfectionClocks, state: State, d: DurationDraws): (r: InfectionClocks)
    requires ValidDurationDraws(d)
    ensures r.incubationTimeThreshold == Truncate(d.incubation)
    ensures r.infectionTimeThreshold == Truncate(d.infection)
    ensures r.hospitalizationTimeThreshold == Truncate(d.hospitalization)
    ensures r.hospitalLengthOfStay == Truncate(HoursPerDay as real * d.lengthOfStayDays)
    ensures state == Exposed ==> r.incubationTime <= r.incubationTimeThreshold
    ensures state == Infectious ==> r.infectionTime <= r.infectionTimeThreshold
    ensures state != Exposed ==> r.incubationTime == c.incubationTime
    ensures state != Infectious ==> r.infectionTime == c.infectionTime
    ensures r.hospitalizationTime == c.hospitalizationTime && r.timeInHospital == c.timeInHospital
    ensures r.hospitalizePerson == c.hospitalizePerson && r.initialized == c.initialized
  {
    var c1 := c.(incubationTimeThreshold := Truncate(d.incubation),
                 infectionTimeThreshold := Truncate(d.infection),
                 hospitalizationTimeThreshold := Truncate(d.hospitalization),
                 hospitalLengthOfStay := Truncate(HoursPerDay as real * d.lengthOfStayDays));
    if state == Exposed then
      c1.(incubationTime := ElapsedTime(d.elapsed, c1.incubationTimeThreshold))
    else if state == Infectious then
      c1.(infectionTime := ElapsedTime(d.elapsed, c1.infectionTimeThreshold))
    else c1
  }

  /** A uniform draw on (0, threshold], truncated to whole hours. */
  function ElapsedTime(u: real, threshold: nat): (t: nat)
    requires IsUnitDraw(u)
    ensures t <= threshold
  {
    FractionOfBound(u, threshold as real);
    Truncate(u * threshold as real)
  }

  lemma FractionOfBound(u: real, t: real)
    requires 0.0 <= u <= 1.0 && t >= 0.0
    ensures 0.0 <= u * t <= t
  {
    assert (1.0 - u) * t >= 0.0;
  }

  /** The part of a person the disease course reads and writes. */
  datatype Epidemic = Epidemic(state: State, hospitalized: bool, clocks: InfectionClocks)

  /** The two uniform draws of one hour: hospital eligibility and infection. */
  datatype StepDraws = StepDraws(eligibility: real, infection: real)

  /** Decides once, on the first hour, whether the person will ever need hospital care. */
  function DecideEligibility(c: InfectionClocks, hospitalizationProbability: real, u: real): InfectionClocks
  {
    if c.initialized then c
    else c.(hospitalizePerson := c.hospitalizePerson || u <= hospitalizationProbability,
            initialized := true)
  }

  /** Starts the hospital stay once the time lag has passed for an eligible person. */
  function Admit(hospitalized: bool, c: InfectionClocks): bool
  {
    hospitalized || (c.hospitalizationTime > c.hospitalizationTimeThreshold && c.hospitalizePerson)
  }

  /** One hour of the disease course. */
  function Step(e: Epidemic, hospitalizationProbability: real, lambda: real, draws: StepDraws): Epidemic
  {
    Progress(e.(clocks := DecideEligibility(e.clocks, hospitalizationProbability, draws.eligibility)),
             lambda, draws.infection)
  }

  /** The hour's change of state and clocks, once eligibility is decided. */
  function Progress(e: Epidemic, lambda: real, infectionDraw: real): Epidemic
  {
    var c := e.clocks;
    match e.state
    case Susceptible =>
      if infectionDraw <= lambda && lambda > 0.0 then Epidemic(Exposed, e.hospitalized, c)
      else Epidemic(Susceptible, e.hospitalized, c)
    case Exposed =>
      if c.incubationTime > c.incubationTimeThreshold then Epidemic(Infectious, e.hospitalized, c)
      else Epidemic(Exposed, e.hospitalized, c.(incubationTime := c.incubationTime + 1))
    case Infectious =>
      if c.infectionTime > c.infectionTimeThreshold then Epidemic(Recovered, e.hospitalized, c)
      else
        var c' := c.(hospitalizationTime := c.hospitalizationTime + 1,
                     infectionTime := c.infectionTime + 1);
        Epidemic(Infectious, Admit(e.hospitalized, c'), c')
    case Recovered =>
      var c' := c.(hospitalizationTime := c.hospitalizationTime + 1);
      if !Admit(e.hospitalized, c') then Epidemic(Recovered, false, c')
      else if c'.timeInHospital > c'.hospitalLengthOfStay then Epidemic(Recovered, false, c')
      else Epidemic(Recovered, true, c'.(timeInHospital := c'.timeInHospital + 1))
  }

  /**
   * Hospital eligibility is drawn on the first hour only: afterwards the flag
   * is fixed, and it is set exactly when the draw does not exceed the
   * group's probability.
   */
  lemma EligibilityDecidedOnce(e: Epidemic, p: real, lambda: real, draws: StepDraws)
    ensures Step(e, p, lambda, draws).clocks.initialized
    ensures e.clocks.initialized ==>
              Step(e, p, lambda, draws).clocks.hospitalizePerson == e.clocks.hospitalizePerson
    ensures !e.clocks.initialized ==>
              Step(e, p, lambda, draws).clocks.hospitalizePerson ==
                (e.clocks.hospitalizePerson || draws.eligibility <= p)
  {
  }

  /** The groups with probability zero never become eligible for hospital care. */
  lemma YoungChildrenNeverEligible(e: Epidemic, d: Demographic, lambda: real, draws: StepDraws)
    requires d == PreSchoolChildren || d == PrimarySchoolChildren
    requires IsUnitDraw(draws.eligibility) && !e.clocks.hospitalizePerson
    ensures !Step(e, HospitalizationPerDemography(d), lambda, draws).clocks.hospitalizePerson
  {
  }

  /**
   * The state moves along S, E, I, R by at most one position per hour, and
   * each move happens exactly on its condition.
   */
  lemma StepProgression(e: Epidemic, p: real, lambda: real, draws: StepDraws)
    ensures var r := Step(e, p, lambda, draws).state;
      r.Rank() == e.state.Rank() || r.Rank() == e.state.Rank() + 1
    ensures e.state == Susceptible ==>
              (Step(e, p, lambda, draws).state == Exposed <==> draws.infection <= lambda && lambda > 0.0)
    ensures e.state == Exposed ==>
              (Step(e, p, lambda, draws).state == Infectious <==>
                e.clocks.incubationTime > e.clocks.incubationTimeThreshold)
    ensures e.state == Infectious ==>
              (Step(e, p, lambda, draws).state == Recovered <==>
                e.clocks.infectionTime > e.clocks.infectionTimeThreshold)
    ensures e.state == Recovered ==> Step(e, p, lambda, draws).state == Recovered
    ensures e.state != Recovered ==>
              (Step(e, p, lambda, draws).hospitalized <==>
                 e.hospitalized ||
                 (e.state == Infectious && e.clocks.infectionTime <= e.clocks.infectionTimeThreshold &&
                  e.clocks.hospitalizationTime + 1 > e.clocks.hospitalizationTimeThreshold &&
                  DecideEligibility(e.clocks, p, draws.eligibility).hospitalizePerson))
  {
  }

  /**
   * What holds of every person between two hours: only an eligible person
   * whose time lag has passed, and who is infectious or recovered, lies in
   * hospital; the time in hospital exceeds the length of stay by at most one.
   */
  ghost predicate Consistent(e: Epidemic)
  {
    (e.hospitalized ==>
       e.clocks.hospitalizePerson && e.clocks.initialized &&
       e.clocks.hospitalizationTime > e.clocks.hospitalizationTimeThreshold &&
       (e.state == Infectious || e.state == Recovered)) &&
    e.clocks.timeInHospital <= e.clocks.hospitalLengthOfStay + 1
  }

  /** A person starts consistent: not hospitalised, with its clocks at zero. */
  lemma ZeroClocksConsistent(s: State)
    ensures Consistent(Epidemic(s, false, ZeroClocks))
  {
  }

  /** Every hour keeps a person consistent. */
  lemma StepPreservesConsistent(e: Epidemic, p: real, lambda: real, draws: StepDraws)
    requires Consistent(e)
    ensures Consistent(Step(e, p, lambda, draws))
  {
  }

  /** Drawing fresh thresholds keeps a person consistent when it is not in hospital. */
  lemma DrawPreservesConsistent(e: Epidemic, d: DurationDraws)
    requires Consistent(e) && !e.hospitalized && e.clocks.timeInHospital == 0
    requires ValidDurationDraws(d)
    ensures Consistent(e.(clocks := DrawFromDistributions(e.clocks, e.state, d)))
  {
  }

  /** The inputs of one hour as seen by one person. */
  datatype HourInput = HourInput(lambda: real, draws: StepDraws)

  /** The disease course over a sequence of hours. */
  function Trajectory(e: Epidemic, p: real, inputs: seq<HourInput>): Epidemic
    decreases |inputs|
  {
    if |inputs| == 0 then e
    else Trajectory(Step(e, p, inputs[0].lambda, inputs[0].draws), p, inputs[1..])
  }

  /** Number of hours that end with the person in hospital. */
  function HoursInHospital(e: Epidemic, p: real, inputs: seq<HourInput>): nat
    decreases |inputs|
  {
    if |inputs| == 0 then 0
    else
      var e' := Step(e, p, inputs[0].lambda, inputs[0].draws);
      (if e'.hospitalized then 1 else 0) + HoursInHospital(e', p, inputs[1..])
  }

  /** Over any course of hours the state never moves backwards, and recovery is final. */
  lemma {:induction false} TrajectoryMonotone(e: Epidemic, p: real, inputs: seq<HourInput>)
    ensures Trajectory(e, p, inputs).state.Rank() >= e.state.Rank()
    ensures e.state == Recovered ==> Trajectory(e, p, inputs).state == Recovered
    decreases |inputs|
  {
    if |inputs| > 0 {
      var e' := Step(e, p, inputs[0].lambda, inputs[0].draws);
      StepProgression(e, p, inputs[0].lambda, inputs[0].draws);
      TrajectoryMonotone(e', p, inputs[1..]);
    }
  }

  /**
   * After recovery a person spends at most the drawn length of stay plus
   * one further hours in hospital, whatever the hours bring.
   */
  lemma {:induction false} RecoveredStayBounded(e: Epidemic, p: real, inputs: seq<HourInput>)
    requires e.state == Recovered
    requires e.clocks.timeInHospital <= e.clocks.hospitalLengthOfStay + 1
    ensures HoursInHospital(e, p, inputs) <= e.clocks.hospitalLengthOfStay + 1 - e.clocks.timeInHospital
    decreases |inputs|
  {
    if |inputs| > 0 {
      var e' := Step(e, p, inputs[0].lambda, inputs[0].draws);
      RecoveredStayBounded(e', p, inputs[1..]);
    }
  }
}
