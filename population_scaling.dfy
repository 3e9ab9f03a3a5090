/**
 * How many real persons one agent stands for, and the tally of the
 * population over the four disease states.
 */
module PopulationScaling {
  import opened Numerics
  import opened ModelFacts
  import opened Persons

  /**
   * The number of persons per agent: a non-zero custom ratio wins; a
   * population of exactly the Dutch head count needs no scaling; otherwise
   * the head count over the number of agents, a floating-point division
   * that is not guarded against an empty population.
   */
  function AgentToPersonRatio(customRatio: real, numAgents: nat): (r: Extended)
    ensures customRatio != 0.0 ==> r == Finite(customRatio)
    ensures customRatio == 0.0 && numAgents == 0 ==> r == PosInf
    ensures customRatio == 0.0 && numAgents > 0 ==>
              r.Finite? && r.value > 0.0 && r.value * numAgents as real == TotalPopulationSize as real
  {
    if customRatio != 0.0 then Finite(customRatio)
    else if numAgents == TotalPopulationSize then Finite(1.0)
    else Divide(TotalPopulationSize as real, numAgents as real)
  }

  /**
   * The shortcut for a full-size population gives the same ratio as the
   * division would: without a custom ratio the result is always the head
   * count over the agents, and scaling all agents back gives the head count.
   */
  lemma RatioIsHeadCountPerAgent(numAgents: nat)
    requires numAgents > 0
    ensures AgentToPersonRatio(0.0, numAgents) == Divide(TotalPopulationSize as real, numAgents as real)
    ensures Times(AgentToPersonRatio(0.0, numAgents), numAgents as real) == Finite(TotalPopulationSize as real)
  {
    var r := AgentToPersonRatio(0.0, numAgents);
    assert r.value * numAgents as real == TotalPopulationSize as real;
    assert r.value == TotalPopulationSize as real / numAgents as real;
  }

  /** Number of persons in a state. */
  function StateCount(v: seq<PersonView>, s: State): nat
  {
    if |v| == 0 then 0
    else StateCount(v[..|v| - 1], s) + (if v[|v| - 1].state == s then 1 else 0)
  }

  /** Every person is in exactly one of the four states. */
  lemma {:induction false} StatesPartition(v: seq<PersonView>)
    ensures StateCount(v, Susceptible) + StateCount(v, Exposed) +
            StateCount(v, Infectious) + StateCount(v, Recovered) == |v|
  {
    if |v| > 0 {
      StatesPartition(v[..|v| - 1]);
    }
  }

  /** Extending a prefix by one person adds that person to its own state only. */
  lemma StateCountStep(v: seq<PersonView>, i: nat, s: State)
    requires i < |v|
    ensures StateCount(v[..i + 1], s) == StateCount(v[..i], s) + (if v[i].state == s then 1 else 0)
  {
    assert v[..i + 1][..i] == v[..i];
  }

  /** The four state counts, in the order susceptible, exposed, infectious, recovered. */
  function StateTally(v: seq<PersonView>): (c: seq<nat>)
    ensures |c| == 4
  {
    [StateCount(v, Susceptible), StateCount(v, Exposed), StateCount(v, Infectious), StateCount(v, Recovered)]
  }

  /** The position of a state in the tally. */
  function StateSlot(s: State): (k: nat)
    ensures k < 4
  {
    match s
    case Susceptible => 0
    case Exposed => 1
    case Infectious => 2
    case Recovered => 3
  }

  /** One more person adds one to the slot of its state. */
  lemma StateTallyStep(v: seq<PersonView>, i: nat)
    requires i < |v|
    ensures var k := StateSlot(v[i].state);
            StateTally(v[..i + 1]) == StateTally(v[..i])[k := StateTally(v[..i])[k] + 1]
  {
    StateCountStep(v, i, Susceptible);
    StateCountStep(v, i, Exposed);
    StateCountStep(v, i, Infectious);
    StateCountStep(v, i, Recovered);
  }

  /** The sum of a four-entry tally. */
  lemma SumOfFour(a: nat, b: nat, c: nat, d: nat)
    ensures Sum([a, b, c, d]) == a + b + c + d
  {
    assert [a, b, c, d][..3] == [a, b, c];
    assert [a, b, c][..2] == [a, b];
    assert [a, b][..1] == [a];
    assert [a][..0] == [];
    assert Sum([a]) == a;
    assert Sum([a, b]) == a + b;
    assert Sum([a, b, c]) == a + b + c;
  }

  /**
   * The tally of the population per disease state, in the order
   * susceptible, exposed, infectious, recovered.
   */
  method CountStates(pop: seq<Person>) returns (states: seq<nat>)
    ensures states == StateTally(Views(pop))
    ensures Sum(states) == |pop|
  {
    var counts := new nat[4](_ => 0);
    ghost var v := Views(pop);
    assert v[..0] == [];
    for i := 0 to |pop|
      invariant counts[..] == StateTally(v[..i])
    {
      assert v[i].state == pop[i].state;
      StateTallyStep(v, i);
      AddToSlot(counts, pop[i].state);
    }
    assert v[..|pop|] == v;
    states := counts[..];
    TallySum(v);
  }

  /** The tally adds up to the population. */
  lemma TallySum(v: seq<PersonView>)
    ensures Sum(StateTally(v)) == |v|
  {
    StatesPartition(v);
    SumOfFour(StateCount(v, Susceptible), StateCount(v, Exposed), StateCount(v, Infectious), StateCount(v, Recovered));
  }

  /** One more person in state `s`: the branch of the tally that adds it. */
  method AddToSlot(counts: array<nat>, s: State)
    requires counts.Length == 4
    modifies counts
    ensures counts[..] == old(counts[..])[StateSlot(s) := old(counts[StateSlot(s)]) + 1]
  {
    if s == Susceptible {
      counts[0] := counts[0] + 1;
    } else if s == Exposed {
      counts[1] := counts[1] + 1;
    } else if s == Infectious {
      counts[2] := counts[2] + 1;
    } else if s == Recovered {
      counts[3] := counts[3] + 1;
    }
  }
}
