/**
 * The seeding of the epidemic: once a day, for the first days, every
 * municipality receives the number of new infections reported for it,
 * divided by the agent-to-person ratio. Whole persons are seeded, and the
 * fractional remainder is carried over to the next pass. Infectious
 * persons are seeded once the incubation delay has passed; exposed
 * persons, a fixed multiple of them, from the start. The visiting order
 * of the agents and each agent's duration draws are parameters.
 */
module InitialInfection {
  import opened Numerics
  import opened ModelFacts
  import opened InfectionModel
  import opened Persons
  import opened Interventions

  // ---------------------------------------------------------------------
  // The population as sequences

  /** `states` and `clocks` are the infection state and clocks of each person. */
  ghost predicate Reflects(order: seq<Person>, states: seq<State>, clocks: seq<InfectionClocks>)
    reads set p | p in order
  {
    |states| == |order| && |clocks| == |order| &&
    forall j :: 0 <= j < |order| ==> order[j].state == states[j] && order[j].infection == clocks[j]
  }

  /** `homes` lists the home municipality of each person. */
  ghost predicate HomesAre(order: seq<Person>, homes: seq<nat>)
    reads set p | p in order
  {
    |homes| == |order| && forall j :: 0 <= j < |order| ==> homes[j] == order[j].homeLocation
  }

  predicate ValidDraws(draws: seq<DurationDraws>)
  {
    forall i :: 0 <= i < |draws| ==> ValidDurationDraws(draws[i])
  }

  // ---------------------------------------------------------------------
  // Seeding one municipality

  /** The susceptible persons living in municipality `m`. */
  function SeedEligible(homes: seq<nat>, states: seq<State>, m: nat): (e: seq<bool>)
    requires |homes| == |states|
    ensures |e| == |states|
    ensures forall i :: 0 <= i < |states| ==> (e[i] <==> homes[i] == m && states[i] == Susceptible)
  {
    seq(|states|, i requires 0 <= i < |states| => homes[i] == m && states[i] == Susceptible)
  }

  /** The states with the picked persons moved to `target`. */
  function Seeded(states: seq<State>, sel: seq<bool>, target: State): (r: seq<State>)
    requires |sel| == |states|
    ensures |r| == |states|
    ensures forall i :: 0 <= i < |states| ==> r[i] == (if sel[i] then target else states[i])
  {
    seq(|states|, i requires 0 <= i < |states| => if sel[i] then target else states[i])
  }

  /** The clocks with the picked persons' thresholds drawn anew for `target`. */
  function Redrawn(clocks: seq<InfectionClocks>, sel: seq<bool>, target: State, draws: seq<DurationDraws>)
    : (r: seq<InfectionClocks>)
    requires |sel| == |clocks| == |draws| && ValidDraws(draws)
    ensures |r| == |clocks|
    ensures forall i :: 0 <= i < |clocks| ==>
              r[i] == (if sel[i] then DrawFromDistributions(clocks[i], target, draws[i]) else clocks[i])
  {
    seq(|clocks|, i requires 0 <= i < |clocks| =>
      if sel[i] then DrawFromDistributions(clocks[i], target, draws[i]) else clocks[i])
  }

  /**
   * Visits the persons living in `m` in order and moves each susceptible
   * one to `target`, with fresh thresholds, while fewer than `limit` have
   * been moved.
   */
  method SeedMunicipality(order: seq<Person>, m: nat, limit: real, target: State, draws: seq<DurationDraws>,
                          ghost homes: seq<nat>, ghost states: seq<State>, ghost clocks: seq<InfectionClocks>)
    requires Distinct(order) && |draws| == |order| && ValidDraws(draws)
    requires HomesAre(order, homes) && Reflects(order, states, clocks)
    modifies (set p | p in order)`state, (set p | p in order)`infection
    ensures HomesAre(order, homes)
    ensures var sel := Selection(SeedEligible(homes, states, m), limit);
            Reflects(order, Seeded(states, sel, target), Redrawn(clocks, sel, target, draws))
  {
    ghost var e := SeedEligible(homes, states, m);
    var count: nat := 0;
    for i := 0 to |order|
      invariant HomesAre(order, homes)
      invariant count == CountTrue(Selection(e[..i], limit))
      invariant SeededUpTo(order, i, Selection(e[..i], limit), states, clocks, target, draws)
    {
      count := VisitPerson(order, i, m, limit, target, draws, count, e, states, clocks);
    }
    assert e[..|order|] == e;
    SeededThroughout(order, Selection(e, limit), states, clocks, target, draws);
  }

  /** Once every person has been visited, the population is the seeded states and the redrawn clocks. */
  lemma SeededThroughout(order: seq<Person>, sel: seq<bool>, states: seq<State>,
                         clocks: seq<InfectionClocks>, target: State, draws: seq<DurationDraws>)
    requires SeededUpTo(order, |order|, sel, states, clocks, target, draws)
    ensures Reflects(order, Seeded(states, sel, target), Redrawn(clocks, sel, target, draws))
  {
  }

  /** The persons before `i` are seeded as `sel` says; the others are as they were. */
  ghost predicate SeededUpTo(order: seq<Person>, i: nat, sel: seq<bool>, states: seq<State>,
                             clocks: seq<InfectionClocks>, target: State, draws: seq<DurationDraws>)
    reads set p | p in order
  {
    i <= |order| && |sel| == i && |states| == |clocks| == |draws| == |order| && ValidDraws(draws) &&
    (forall j :: 0 <= j < i ==> Picked(order[j], sel[j], states[j], clocks[j], target, draws[j])) &&
    (forall j :: i <= j < |order| ==> order[j].state == states[j] && order[j].infection == clocks[j])
  }

  /** One visit of the seeding loop: the person at `i` is seeded if it lives in `m`, is susceptible and the limit is not reached. */
  method VisitPerson(order: seq<Person>, i: nat, m: nat, limit: real, target: State, draws: seq<DurationDraws>,
                     count: nat, ghost e: seq<bool>, ghost states: seq<State>, ghost clocks: seq<InfectionClocks>)
    returns (next: nat)
    requires Distinct(order) && i < |order| && |e| == |states| == |order|
    requires forall j :: 0 <= j < |order| ==> (e[j] <==> order[j].homeLocation == m && states[j] == Susceptible)
    requires count == CountTrue(Selection(e[..i], limit))
    requires SeededUpTo(order, i, Selection(e[..i], limit), states, clocks, target, draws)
    modifies {order[i]}`state, {order[i]}`infection
    ensures next == CountTrue(Selection(e[..i + 1], limit))
    ensures SeededUpTo(order, i + 1, Selection(e[..i + 1], limit), states, clocks, target, draws)
  {
    SelectionStep(e, limit, i);
    ghost var prev := Selection(e[..i], limit);
    ghost var sel := Selection(e[..i + 1], limit);
    next := count;
    var person := order[i];
    if person.homeLocation == m {
      if (count as real) < limit && person.state == Susceptible {
        person.state := target;
        person.infection := DrawFromDistributions(person.infection, target, draws[i]);
        next := count + 1;
      }
    }
    forall j | 0 <= j <= i
      ensures Picked(order[j], sel[j], states[j], clocks[j], target, draws[j])
    {
      if j < i {
        assert order[j] != person;
        assert old(Picked(order[j], prev[j], states[j], clocks[j], target, draws[j]));
      }
    }
    forall j | i + 1 <= j < |order|
      ensures order[j].state == states[j] && order[j].infection == clocks[j]
    {
      assert order[j] != person;
    }
  }

  /** Whether a person has been seeded as `picked` says, from the given state and clocks. */
  ghost predicate Picked(p: Person, picked: bool, state: State, clocks: InfectionClocks, target: State, d: DurationDraws)
    reads p
    requires ValidDurationDraws(d)
  {
    p.state == (if picked then target else state) &&
    p.infection == (if picked then DrawFromDistributions(clocks, target, d) else clocks)
  }

  // ---------------------------------------------------------------------
  // A pass over all municipalities

  /** The states after the passes of municipalities 0 to k - 1, one after the other. */
  function SeedAll(homes: seq<nat>, states: seq<State>, limits: seq<real>, target: State, k: nat): (r: seq<State>)
    requires |homes| == |states| && k <= |limits|
    ensures |r| == |states|
  {
    if k == 0 then states
    else
      var prev := SeedAll(homes, states, limits, target, k - 1);
      Seeded(prev, Selection(SeedEligible(homes, prev, k - 1), limits[k - 1]), target)
  }

  /** The clocks after the same passes. */
  function RedrawAll(homes: seq<nat>, states: seq<State>, clocks: seq<InfectionClocks>, limits: seq<real>,
                     target: State, draws: seq<DurationDraws>, k: nat): (r: seq<InfectionClocks>)
    requires |homes| == |states| == |clocks| == |draws| && k <= |limits| && ValidDraws(draws)
    ensures |r| == |clocks|
  {
    if k == 0 then clocks
    else
      var prev := SeedAll(homes, states, limits, target, k - 1);
      Redrawn(RedrawAll(homes, states, clocks, limits, target, draws, k - 1),
              Selection(SeedEligible(homes, prev, k - 1), limits[k - 1]), target, draws)
  }

  lemma {:induction false} SelectionBelowZeroCap(eligible: seq<bool>, cap: real)
    requires cap <= 0.0
    ensures forall i :: 0 <= i < |eligible| ==> !Selection(eligible, cap)[i]
  {
    if |eligible| > 0 {
      SelectionBelowZeroCap(eligible[..|eligible| - 1], cap);
    }
  }

  /**
   * The passes of different municipalities do not interfere: a person is
   * seeded exactly when the pass of its own home municipality, run on the
   * states before all passes, picks it. Running them one after the other
   * is running them side by side.
   */
  lemma {:induction false} SeedAllByMunicipality(homes: seq<nat>, states: seq<State>, limits: seq<real>,
                                                 target: State, k: nat)
    requires |homes| == |states| && k <= |limits|
    ensures forall i :: 0 <= i < |states| ==>
              SeedAll(homes, states, limits, target, k)[i] == SeparatePasses(homes, states, limits, target, k, i)
  {
    SeparateUpTo(homes, states, limits, target, k);
  }

  /** The passes of the first `k` municipalities agree with the separate passes. */
  ghost predicate AgreeSeparately(homes: seq<nat>, states: seq<State>, limits: seq<real>, target: State, k: nat)
    requires |homes| == |states| && k <= |limits|
  {
    forall i :: 0 <= i < |states| ==>
      SeedAll(homes, states, limits, target, k)[i] == SeparatePasses(homes, states, limits, target, k, i)
  }

  lemma {:induction false} SeparateUpTo(homes: seq<nat>, states: seq<State>, limits: seq<real>, target: State, k: nat)
    requires |homes| == |states| && k <= |limits|
    ensures AgreeSeparately(homes, states, limits, target, k)
  {
    if k == 0 {
      assert SeedAll(homes, states, limits, target, 0) == states;
    } else {
      SeparateUpTo(homes, states, limits, target, k - 1);
      SeedAllStep(homes, states, limits, target, k - 1, k);
    }
  }

  /** The state of person `i` when each of the first `k` municipalities is seeded on the original states. */
  function SeparatePasses(homes: seq<nat>, states: seq<State>, limits: seq<real>, target: State, k: nat, i: nat): State
    requires |homes| == |states| && k <= |limits| && i < |states|
  {
    if homes[i] < k && Selection(SeedEligible(homes, states, homes[i]), limits[homes[i]])[i]
    then target else states[i]
  }

  lemma SeedAllStep(homes: seq<nat>, states: seq<State>, limits: seq<real>, target: State, m: nat, k: nat)
    requires |homes| == |states| && k == m + 1 && k <= |limits|
    requires AgreeSeparately(homes, states, limits, target, m)
    ensures AgreeSeparately(homes, states, limits, target, k)
  {
    var prev := SeedAll(homes, states, limits, target, m);
    UntouchedBeforePass(homes, states, limits, target, m);
    EligibilityUnchanged(homes, states, prev, m);
    forall i | 0 <= i < |states|
      ensures SeedAll(homes, states, limits, target, k)[i] == SeparatePasses(homes, states, limits, target, k, i)
    {
      assert prev[i] == SeparatePasses(homes, states, limits, target, m, i);
      SeedStepAt(homes, states, limits, target, m, k, i);
    }
  }

  /** Before the pass of municipality `m`, the persons of `m` and later municipalities are as they were. */
  lemma UntouchedBeforePass(homes: seq<nat>, states: seq<State>, limits: seq<real>, target: State, m: nat)
    requires |homes| == |states| && m <= |limits|
    requires AgreeSeparately(homes, states, limits, target, m)
    ensures forall j :: 0 <= j < |states| && homes[j] >= m ==> SeedAll(homes, states, limits, target, m)[j] == states[j]
  {
    forall j | 0 <= j < |states| && homes[j] >= m
      ensures SeedAll(homes, states, limits, target, m)[j] == states[j]
    {
      assert SeedAll(homes, states, limits, target, m)[j] == SeparatePasses(homes, states, limits, target, m, j);
    }
  }

  /** One person after the pass of municipality `m`. */
  lemma SeedStepAt(homes: seq<nat>, states: seq<State>, limits: seq<real>, target: State, m: nat, k: nat, i: nat)
    requires |homes| == |states| && k == m + 1 && k <= |limits| && i < |states|
    requires SeedAll(homes, states, limits, target, m)[i] == SeparatePasses(homes, states, limits, target, m, i)
    requires SeedEligible(homes, SeedAll(homes, states, limits, target, m), m) == SeedEligible(homes, states, m)
    ensures SeedAll(homes, states, limits, target, k)[i] == SeparatePasses(homes, states, limits, target, k, i)
  {
    var e := SeedEligible(homes, states, m);
    SeedAllUnfold(homes, states, limits, target, m, k, i);
    if homes[i] != m {
      SelectionPicksEligible(e, limits[m]);
      assert !e[i];
    }
  }

  /** The pass of municipality `m` moves a person to the target exactly when it picks that person. */
  lemma SeedAllUnfold(homes: seq<nat>, states: seq<State>, limits: seq<real>, target: State, m: nat, k: nat, i: nat)
    requires |homes| == |states| && k == m + 1 && k <= |limits| && i < |states|
    requires SeedEligible(homes, SeedAll(homes, states, limits, target, m), m) == SeedEligible(homes, states, m)
    ensures SeedAll(homes, states, limits, target, k)[i] ==
              if Selection(SeedEligible(homes, states, m), limits[m])[i] then target
              else SeedAll(homes, states, limits, target, m)[i]
  {
  }

  /** Persons of municipality `m` who are as they were are eligible as they were. */
  lemma EligibilityUnchanged(homes: seq<nat>, states: seq<State>, now: seq<State>, m: nat)
    requires |homes| == |states| == |now|
    requires forall j :: 0 <= j < |states| && homes[j] == m ==> now[j] == states[j]
    ensures SeedEligible(homes, now, m) == SeedEligible(homes, states, m)
  {
  }

  /** A capped pass picks only eligible persons. */
  lemma {:induction false} SelectionPicksEligible(eligible: seq<bool>, cap: real)
    ensures forall i :: 0 <= i < |eligible| && Selection(eligible, cap)[i] ==> eligible[i]
  {
    if |eligible| > 0 {
      SelectionPicksEligible(eligible[..|eligible| - 1], cap);
    }
  }

  /**
   * What a pass over all municipalities does: only susceptible persons are
   * seeded, each moves to the target state, and in each municipality no
   * more persons are seeded than its limit rounded up.
   */
  lemma SeedAllEffects(homes: seq<nat>, states: seq<State>, limits: seq<real>, target: State, m: nat)
    requires |homes| == |states| && |limits| == NumMunicipalities && m < NumMunicipalities
    ensures var r := SeedAll(homes, states, limits, target, NumMunicipalities);
            forall i :: 0 <= i < |states| && r[i] != states[i] ==>
              states[i] == Susceptible && r[i] == target && homes[i] < NumMunicipalities
    ensures var sel := Selection(SeedEligible(homes, states, m), limits[m]);
            (forall i :: 0 <= i < |states| && homes[i] == m ==>
               (SeedAll(homes, states, limits, target, NumMunicipalities)[i] != states[i] <==>
                  sel[i] && target != states[i])) &&
            CountTrue(sel) <= Max(0, Ceil(limits[m]))
  {
    SeedAllByMunicipality(homes, states, limits, target, NumMunicipalities);
    forall i | 0 <= i < |states| && homes[i] < NumMunicipalities
      ensures Selection(SeedEligible(homes, states, homes[i]), limits[homes[i]])[i] ==> states[i] == Susceptible
    {
      SelectionSpec(SeedEligible(homes, states, homes[i]), limits[homes[i]]);
    }
    SelectionSpec(SeedEligible(homes, states, m), limits[m]);
  }

  // ---------------------------------------------------------------------
  // Limits and the carried remainder

  /** The agents to seed in municipality `m` on `day`: the reported count per agent plus the carry. */
  function AgentsToInfect(table: seq<int>, day: nat, ratio: real, carry: seq<real>, m: nat): real
    requires ratio > 0.0 && m < NumMunicipalities && DayInTable(day, |table|) && |carry| == NumMunicipalities
  {
    DayEntryInTable(day, m, |table|);
    Agents(table[day * NumMunicipalities + m], ratio, carry[m])
  }

  /** The agents a reported count stands for, plus the remainder carried from before. */
  function Agents(reported: int, ratio: real, carried: real): real
    requires ratio > 0.0
  {
    reported as real / ratio + carried
  }

  /** Splits the agents to seed into whole agents and the remainder. */
  method SplitAgents(reported: int, ratio: real, carried: real) returns (integerPart: int, fractionPart: real)
    requires ratio > 0.0
    ensures integerPart == Agents(reported, ratio, carried).Floor
    ensures fractionPart == Agents(reported, ratio, carried) - Agents(reported, ratio, carried).Floor as real
  {
    var agentsToInfect := reported as real / ratio + carried;
    integerPart := agentsToInfect.Floor;
    fractionPart := agentsToInfect - integerPart as real;
  }

  /** The table holds an entry for every municipality on `day`. */
  predicate DayInTable(day: nat, size: nat)
  {
    (day + 1) * NumMunicipalities <= size
  }

  lemma DayEntryInTable(day: nat, m: nat, size: nat)
    requires DayInTable(day, size) && m < NumMunicipalities
    ensures day * NumMunicipalities + m < size
  {
  }

  /** The limits of a pass: the whole part of the agents to seed, times `factor`. */
  function Limits(table: seq<int>, day: nat, ratio: real, carry: seq<real>, factor: real): (l: seq<real>)
    requires ratio > 0.0 && DayInTable(day, |table|) && |carry| == NumMunicipalities
    ensures |l| == NumMunicipalities
    ensures forall m :: 0 <= m < NumMunicipalities ==>
              l[m] == (AgentsToInfect(table, day, ratio, carry, m).Floor as real) * factor
  {
    seq(NumMunicipalities, m requires 0 <= m < NumMunicipalities =>
      (AgentsToInfect(table, day, ratio, carry, m).Floor as real) * factor)
  }

  /** The remainders carried to the next pass: the fractional part of the agents to seed. */
  function CarryStep(table: seq<int>, day: nat, ratio: real, carry: seq<real>): (c: seq<real>)
    requires ratio > 0.0 && DayInTable(day, |table|) && |carry| == NumMunicipalities
    ensures |c| == NumMunicipalities
    ensures forall m :: 0 <= m < NumMunicipalities ==>
              c[m] == AgentsToInfect(table, day, ratio, carry, m) - AgentsToInfect(table, day, ratio, carry, m).Floor as real
  {
    seq(NumMunicipalities, m requires 0 <= m < NumMunicipalities =>
      AgentsToInfect(table, day, ratio, carry, m) - AgentsToInfect(table, day, ratio, carry, m).Floor as real)
  }

  /** The limit and the remainder of municipality `m`, written out. */
  lemma PassEntry(table: seq<int>, day: nat, ratio: real, carry: seq<real>, factor: real, m: nat)
    requires ratio > 0.0 && DayInTable(day, |table|) && |carry| == NumMunicipalities && m < NumMunicipalities
    ensures day * NumMunicipalities + m < |table|
    ensures var agents := Agents(table[day * NumMunicipalities + m], ratio, carry[m]);
            Limits(table, day, ratio, carry, factor)[m] == (agents.Floor as real) * factor &&
            CarryStep(table, day, ratio, carry)[m] == agents - agents.Floor as real
  {
    DayEntryInTable(day, m, |table|);
  }

  /** Each remainder is a fraction in [0, 1), and whole part plus remainder is the agents to seed. */
  lemma CarryIsFraction(table: seq<int>, day: nat, ratio: real, carry: seq<real>)
    requires ratio > 0.0 && DayInTable(day, |table|) && |carry| == NumMunicipalities
    ensures forall m :: 0 <= m < NumMunicipalities ==>
              0.0 <= CarryStep(table, day, ratio, carry)[m] < 1.0 &&
              Limits(table, day, ratio, carry, 1.0)[m] + CarryStep(table, day, ratio, carry)[m] ==
                AgentsToInfect(table, day, ratio, carry, m)
  {
  }

  // ---------------------------------------------------------------------
  // The day guard

  /** The guard as written: the pass runs on a day boundary unless the day is past the table's days. */
  predicate ProceedsAsWritten(step: nat, size: nat)
  {
    step % HoursPerDay == 0 && !(step / HoursPerDay > size / NumMunicipalities)
  }

  /** The guard as intended: the pass runs on a day boundary of a day the table holds. */
  predicate Proceeds(step: nat, size: nat)
  {
    step % HoursPerDay == 0 && step / HoursPerDay < size / NumMunicipalities
  }

  /** On the first day after the table the written guard lets the pass run past its end. */
  lemma GuardAsWrittenReadsPastTable()
    ensures var size := 2 * NumMunicipalities;
            var step := 2 * HoursPerDay;
            ProceedsAsWritten(step, size) && (step / HoursPerDay) * NumMunicipalities + 0 >= size
  {
  }

  /** The intended guard keeps every municipality's entry of the day within the table. */
  lemma GuardInBounds(step: nat, size: nat)
    ensures Proceeds(step, size) ==> DayInTable(step / HoursPerDay, size)
    ensures Proceeds(step, size) ==> ProceedsAsWritten(step, size)
    ensures ProceedsAsWritten(step, size) && !Proceeds(step, size) <==>
              step % HoursPerDay == 0 && step / HoursPerDay == size / NumMunicipalities
  {
    if Proceeds(step, size) {
      var day := step / HoursPerDay;
      assert day + 1 <= size / NumMunicipalities;
      assert (size / NumMunicipalities) * NumMunicipalities <= size;
    }
  }

  /** The population is what the passes of the first `m` municipalities make of it. */
  ghost predicate PassedUpTo(order: seq<Person>, homes: seq<nat>, states: seq<State>, clocks: seq<InfectionClocks>,
                             limits: seq<real>, target: State, draws: seq<DurationDraws>, m: nat)
    reads set p | p in order
  {
    |homes| == |states| == |clocks| == |draws| && m <= |limits| && ValidDraws(draws) &&
    Reflects(order, SeedAll(homes, states, limits, target, m), RedrawAll(homes, states, clocks, limits, target, draws, m))
  }

  /** The pass of municipality `m`, skipped when there is no whole agent to seed. */
  method SeedOrSkip(order: seq<Person>, m: nat, integerPart: int, factor: real, target: State,
                    draws: seq<DurationDraws>, ghost homes: seq<nat>, ghost states: seq<State>,
                    ghost clocks: seq<InfectionClocks>, ghost limits: seq<real>)
    requires Distinct(order) && |draws| == |order| && HomesAre(order, homes)
    requires m < |limits| && limits[m] == integerPart as real * factor
    requires PassedUpTo(order, homes, states, clocks, limits, target, draws, m)
    modifies (set p | p in order)`state, (set p | p in order)`infection
    ensures HomesAre(order, homes)
    ensures PassedUpTo(order, homes, states, clocks, limits, target, draws, m + 1)
  {
    if integerPart == 0 {
      SelectionBelowZeroCap(SeedEligible(homes, SeedAll(homes, states, limits, target, m), m), limits[m]);
      assert SeedAll(homes, states, limits, target, m + 1) == SeedAll(homes, states, limits, target, m);
      assert RedrawAll(homes, states, clocks, limits, target, draws, m + 1) ==
             RedrawAll(homes, states, clocks, limits, target, draws, m);
      return;
    }
    SeedMunicipality(order, m, integerPart as real * factor, target, draws, homes,
                     SeedAll(homes, states, limits, target, m), RedrawAll(homes, states, clocks, limits, target, draws, m));
  }

  /**
   * The pass of municipality `m`: its whole agents to seed are seeded and
   * the remainder replaces its carry.
   */
  method PassMunicipality(order: seq<Person>, m: nat, table: seq<int>, day: nat, ratio: real, factor: real,
                          target: State, draws: seq<DurationDraws>, carry: seq<real>, ghost homes: seq<nat>,
                          ghost states: seq<State>, ghost clocks: seq<InfectionClocks>, ghost fractions: seq<real>)
    returns (next: seq<real>)
    requires ratio > 0.0 && DayInTable(day, |table|) && m < NumMunicipalities
    requires |carry| == |fractions| == NumMunicipalities
    requires forall k :: 0 <= k < m ==> carry[k] == CarryStep(table, day, ratio, fractions)[k]
    requires forall k :: m <= k < NumMunicipalities ==> carry[k] == fractions[k]
    requires Distinct(order) && |draws| == |order| && HomesAre(order, homes)
    requires PassedUpTo(order, homes, states, clocks, Limits(table, day, ratio, fractions, factor), target, draws, m)
    modifies (set p | p in order)`state, (set p | p in order)`infection
    ensures |next| == NumMunicipalities
    ensures forall k :: 0 <= k < m + 1 ==> next[k] == CarryStep(table, day, ratio, fractions)[k]
    ensures forall k :: m + 1 <= k < NumMunicipalities ==> next[k] == fractions[k]
    ensures HomesAre(order, homes)
    ensures PassedUpTo(order, homes, states, clocks, Limits(table, day, ratio, fractions, factor), target, draws, m + 1)
  {
    PassEntry(table, day, ratio, fractions, factor, m);
    var integerPart, fractionPart := SplitAgents(table[day * NumMunicipalities + m], ratio, carry[m]);
    next := carry[m := fractionPart];
    SeedOrSkip(order, m, integerPart, factor, target, draws, homes, states, clocks,
               Limits(table, day, ratio, fractions, factor));
  }

  /** The remainders, states and clocks a seeding leaves. */
  datatype Seeding = Seeding(carry: seq<real>, states: seq<State>, clocks: seq<InfectionClocks>)

  /** One pass over all municipalities with limits scaled by `factor`. */
  function Pass(table: seq<int>, day: nat, ratio: real, carry: seq<real>, factor: real, target: State,
                homes: seq<nat>, states: seq<State>, clocks: seq<InfectionClocks>, draws: seq<DurationDraws>)
    : (r: Seeding)
    requires ratio > 0.0 && DayInTable(day, |table|) && |carry| == NumMunicipalities
    requires |homes| == |states| == |clocks| == |draws| && ValidDraws(draws)
    ensures |r.carry| == NumMunicipalities && |r.states| == |states| && |r.clocks| == |clocks|
  {
    var limits := Limits(table, day, ratio, carry, factor);
    Seeding(CarryStep(table, day, ratio, carry),
            SeedAll(homes, states, limits, target, NumMunicipalities),
            RedrawAll(homes, states, clocks, limits, target, draws, NumMunicipalities))
  }

  /**
   * The seeding of one day: the infectious pass when it is due, then the
   * exposed pass on the remainders the first pass left.
   */
  function DaySeeding(table: seq<int>, day: nat, ratio: real, carry: seq<real>, seedInfectious: bool,
                      exposedRatio: real, homes: seq<nat>, states: seq<State>, clocks: seq<InfectionClocks>,
                      infectiousDraws: seq<DurationDraws>, exposedDraws: seq<DurationDraws>): (r: Seeding)
    requires ratio > 0.0 && DayInTable(day, |table|) && |carry| == NumMunicipalities
    requires |homes| == |states| == |clocks| == |infectiousDraws| == |exposedDraws|
    requires ValidDraws(infectiousDraws) && ValidDraws(exposedDraws)
    ensures |r.carry| == NumMunicipalities && |r.states| == |states| && |r.clocks| == |clocks|
  {
    var first := if seedInfectious
                 then Pass(table, day, ratio, carry, 1.0, Infectious, homes, states, clocks, infectiousDraws)
                 else Seeding(carry, states, clocks);
    Pass(table, day, ratio, first.carry, exposedRatio, Exposed, homes, first.states, first.clocks, exposedDraws)
  }

  /** Only susceptible persons are seeded by a pass, all of them to its target state. */
  lemma PassEffects(table: seq<int>, day: nat, ratio: real, carry: seq<real>, factor: real, target: State,
                    homes: seq<nat>, states: seq<State>, clocks: seq<InfectionClocks>, draws: seq<DurationDraws>)
    requires ratio > 0.0 && DayInTable(day, |table|) && |carry| == NumMunicipalities
    requires |homes| == |states| == |clocks| == |draws| && ValidDraws(draws)
    ensures var r := Pass(table, day, ratio, carry, factor, target, homes, states, clocks, draws);
            forall i :: 0 <= i < |states| && r.states[i] != states[i] ==>
              states[i] == Susceptible && r.states[i] == target && homes[i] < NumMunicipalities
  {
    SeedAllEffects(homes, states, Limits(table, day, ratio, carry, factor), target, 0);
  }

  /**
   * A day's seeding moves only susceptible persons, each to exposed or,
   * when the infectious pass is due, to infectious; a person seeded as
   * infectious stays so through the exposed pass. Every remainder left
   * for the next day is a fraction in [0, 1).
   */
  lemma DaySeedingEffects(table: seq<int>, day: nat, ratio: real, carry: seq<real>, seedInfectious: bool,
                          exposedRatio: real, homes: seq<nat>, states: seq<State>, clocks: seq<InfectionClocks>,
                          infectiousDraws: seq<DurationDraws>, exposedDraws: seq<DurationDraws>)
    requires ratio > 0.0 && DayInTable(day, |table|) && |carry| == NumMunicipalities
    requires |homes| == |states| == |clocks| == |infectiousDraws| == |exposedDraws|
    requires ValidDraws(infectiousDraws) && ValidDraws(exposedDraws)
    ensures var r := DaySeeding(table, day, ratio, carry, seedInfectious, exposedRatio, homes, states, clocks,
                                infectiousDraws, exposedDraws);
            (forall i :: 0 <= i < |states| && r.states[i] != states[i] ==>
               states[i] == Susceptible &&
               (r.states[i] == Exposed || (seedInfectious && r.states[i] == Infectious))) &&
            (forall m :: 0 <= m < NumMunicipalities ==> 0.0 <= r.carry[m] < 1.0)
  {
    var first := if seedInfectious
                 then Pass(table, day, ratio, carry, 1.0, Infectious, homes, states, clocks, infectiousDraws)
                 else Seeding(carry, states, clocks);
    if seedInfectious {
      PassEffects(table, day, ratio, carry, 1.0, Infectious, homes, states, clocks, infectiousDraws);
    }
    PassEffects(table, day, ratio, first.carry, exposedRatio, Exposed, homes, first.states, first.clocks, exposedDraws);
    CarryIsFraction(table, day, ratio, first.carry);
  }

  // ---------------------------------------------------------------------
  // The operation

  class InitialInfectionOp {
    var initialInfected: seq<int>
    var infectionFractionList: seq<real>
    var initialized: bool

    /** Once initialised there is one remainder per municipality. */
    ghost predicate Valid()
      reads this
    {
      initialized ==> |infectionFractionList| == NumMunicipalities
    }

    constructor ()
      ensures Valid() && !initialized
      ensures initialInfected == [] && infectionFractionList == []
    {
      initialInfected := [];
      infectionFractionList := [];
      initialized := false;
    }

    /** Stores the table of reported infections and starts every remainder at zero. */
    method Initialize(table: seq<int>)
      requires infectionFractionList == []
      modifies this
      ensures Valid() && initialized
      ensures initialInfected == table && infectionFractionList == seq(NumMunicipalities, _ => 0.0)
    {
      initialInfected := table;
      infectionFractionList := seq(NumMunicipalities, _ => 0.0);
      initialized := true;
    }

    /**
     * One pass over the municipalities for `day`: each receives its whole
     * number of agents to seed times `factor`, and its remainder is
     * carried on.
     */
    method SeedingPass(order: seq<Person>, day: nat, ratio: real, factor: real, target: State,
                       draws: seq<DurationDraws>, ghost homes: seq<nat>, ghost states: seq<State>,
                       ghost clocks: seq<InfectionClocks>)
      requires Valid() && initialized && ratio > 0.0 && DayInTable(day, |initialInfected|)
      requires Distinct(order) && |draws| == |order| && ValidDraws(draws)
      requires HomesAre(order, homes) && Reflects(order, states, clocks)
      modifies this`infectionFractionList, (set p | p in order)`state, (set p | p in order)`infection
      ensures Valid() && HomesAre(order, homes)
      ensures var r := Pass(initialInfected, day, ratio, old(infectionFractionList), factor, target,
                            homes, states, clocks, draws);
              infectionFractionList == r.carry && Reflects(order, r.states, r.clocks)
    {
      ghost var fractions := infectionFractionList;
      var table := initialInfected;
      ghost var limits := Limits(table, day, ratio, fractions, factor);
      ghost var carried := CarryStep(table, day, ratio, fractions);
      var carry := infectionFractionList;
      for m := 0 to NumMunicipalities
        invariant |carry| == NumMunicipalities
        invariant forall k :: 0 <= k < m ==> carry[k] == carried[k]
        invariant forall k :: m <= k < NumMunicipalities ==> carry[k] == fractions[k]
        invariant HomesAre(order, homes)
        invariant PassedUpTo(order, homes, states, clocks, limits, target, draws, m)
      {
        carry := PassMunicipality(order, m, table, day, ratio, factor, target, draws, carry,
                                  homes, states, clocks, fractions);
      }
      assert carry == carried;
      infectionFractionList := carry;
    }

    /**
     * The hourly operation. On its first call it stores the table. On a
     * day boundary of a day the table holds it seeds, after the incubation
     * delay, the day's infectious persons and then, always, the exposed
     * ones, a multiple of the whole number of agents to seed.
     */
    method Run(step: nat, order: seq<Person>, table: seq<int>, ratio: real, incubationScale: real,
               exposedRatio: real, infectiousDraws: seq<DurationDraws>, exposedDraws: seq<DurationDraws>,
               ghost homes: seq<nat>, ghost states: seq<State>, ghost clocks: seq<InfectionClocks>)
      requires Valid() && (!initialized ==> infectionFractionList == []) && ratio > 0.0
      requires Distinct(order) && |infectiousDraws| == |order| == |exposedDraws|
      requires ValidDraws(infectiousDraws) && ValidDraws(exposedDraws)
      requires HomesAre(order, homes) && Reflects(order, states, clocks)
      modifies this, (set p | p in order)`state, (set p | p in order)`infection
      ensures Valid() && initialized && HomesAre(order, homes)
      ensures initialInfected == (if old(initialized) then old(initialInfected) else table)
      ensures !Proceeds(step, |initialInfected|) ==>
                Reflects(order, states, clocks) &&
                infectionFractionList == (if old(initialized) then old(infectionFractionList)
                                          else seq(NumMunicipalities, _ => 0.0))
      ensures Proceeds(step, |initialInfected|) ==>
                DayInTable(step / HoursPerDay, |initialInfected|) &&
                var r := DaySeeding(initialInfected, step / HoursPerDay, ratio,
                                    if old(initialized) then old(infectionFractionList) else seq(NumMunicipalities, _ => 0.0),
                                    step as real > incubationScale, exposedRatio, homes, states, clocks,
                                    infectiousDraws, exposedDraws);
                infectionFractionList == r.carry && Reflects(order, r.states, r.clocks)
    {
      if !initialized {
        Initialize(table);
      }
      if step % HoursPerDay != 0 {
        return;
      }
      var day := step / HoursPerDay;
      if day >= |initialInfected| / NumMunicipalities {
        return;
      }
      GuardInBounds(step, |initialInfected|);
      ghost var first := Seeding(infectionFractionList, states, clocks);
      if step as real > incubationScale {
        SeedingPass(order, day, ratio, 1.0, Infectious, infectiousDraws, homes, states, clocks);
        first := Pass(initialInfected, day, ratio, first.carry, 1.0, Infectious, homes, states, clocks, infectiousDraws);
      }
      SeedingPass(order, day, ratio, exposedRatio, Exposed, exposedDraws, homes, first.states, first.clocks);
    }
  }

}
