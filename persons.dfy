/**
 * A person of the synthetic population: its fixed demographic attributes,
 * its current and home municipality, its disease state, its weekly travel
 * schedule of 168 hourly destinations, and the clocks of its infection
 * behaviour.
 */
module Persons {
  import opened ModelFacts
  import opened InfectionModel

  /** One destination municipality per hour of the week. */
  const ScheduleLength: nat := HoursPerDay * DaysPerWeek

  /** What the counting passes over the population read of a person. */
  datatype PersonView = PersonView(
    demography: Demographic,
    location: nat,
    homeLocation: nat,
    state: State,
    situation: Situation,
    hospitalized: bool,
    homeStay: bool)

  class Person {
    const demography: Demographic
    const age: nat
    const gender: Gender
    const travelerType: TravelerType
    var location: nat
    var homeLocation: nat
    var state: State
    var situation: Situation
    var hospitalized: bool
    var homeStay: bool
    var weeklySchedule: seq<nat>
    var infection: InfectionClocks

    /** The schedule always has one entry per hour of the week. */
    ghost predicate Valid()
      reads this
    {
      |weeklySchedule| == ScheduleLength
    }

    /**
     * A person with an all-zero schedule of a week's length, not in
     * hospital and not ordered to stay home, whose traveller type follows
     * from its group.
     */
    constructor (demography: Demographic, age: nat, gender: Gender, location: nat,
                 homeLocation: nat, state: State)
      ensures Valid()
      ensures this.demography == demography && this.age == age && this.gender == gender
      ensures this.location == location && this.homeLocation == homeLocation
      ensures this.state == state && situation == Home
      ensures !hospitalized && !homeStay
      ensures travelerType == DemographyToTravelType(demography)
      ensures weeklySchedule == seq(ScheduleLength, _ => 0)
      ensures infection == ZeroClocks
    {
      this.demography := demography;
      this.age := age;
      this.gender := gender;
      this.location := location;
      this.homeLocation := homeLocation;
      this.state := state;
      situation := Home;
      hospitalized := false;
      homeStay := false;
      weeklySchedule := seq(ScheduleLength, _ => 0);
      travelerType := DemographyToTravelType(demography);
      infection := ZeroClocks;
    }

    function GetHomeLocation(): nat
      reads this
    {
      homeLocation
    }

    /** Moves the person to a municipality; nothing else changes. */
    method Travel(destination: nat)
      modifies this`location
      ensures location == destination
    {
      location := destination;
    }

    function View(): PersonView
      reads this
    {
      PersonView(demography, location, homeLocation, state, situation, hospitalized, homeStay)
    }

    /** The part of the person the disease course changes. */
    function Epi(): Epidemic
      reads this
    {
      Epidemic(state, hospitalized, infection)
    }
  }

  /** The views of a population, one per agent, in agent order. */
  function Views(pop: seq<Person>): (v: seq<PersonView>)
    reads set p | p in pop
    ensures |v| == |pop|
    ensures forall i :: 0 <= i < |pop| ==> v[i] == pop[i].View()
  {
    if |pop| == 0 then [] else Views(pop[..|pop| - 1]) + [pop[|pop| - 1].View()]
  }

  /** Every agent of the population is a distinct object. */
  predicate Distinct(pop: seq<Person>)
  {
    forall i, j :: 0 <= i < j < |pop| ==> pop[i] != pop[j]
  }
}
