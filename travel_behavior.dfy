/**
 * The behaviour that moves a person each hour: to its home municipality
 * while it is under a home-stay order, otherwise to the destination its
 * weekly schedule gives for the hour of the week.
 */
module TravelBehavior {
  import opened ModelFacts
  import opened Persons
  import opened ChangeSituationBehavior

  /** Where a person goes in the hour of `step`. */
  function Destination(homeStay: bool, homeLocation: nat, schedule: seq<nat>, step: nat): (loc: nat)
    requires |schedule| == ScheduleLength
    ensures loc == homeLocation || loc in schedule
    ensures homeStay ==> loc == homeLocation
  {
    if homeStay then homeLocation else schedule[step % ScheduleLength]
  }

  /** Without a home-stay order the trip repeats every week. */
  lemma DestinationIsWeekly(homeLocation: nat, schedule: seq<nat>, step: nat)
    requires |schedule| == ScheduleLength
    ensures Destination(false, homeLocation, schedule, step + ScheduleLength) ==
            Destination(false, homeLocation, schedule, step)
    ensures Destination(false, homeLocation, schedule, step) == schedule[step % ScheduleLength]
  {
    assert (step + ScheduleLength) % ScheduleLength == step % ScheduleLength;
  }

  /**
   * Moves `p` for the hour of `step`; nothing but its location changes,
   * and a schedule whose entries are municipalities keeps it in one.
   */
  method Run(p: Person, step: nat)
    requires p.Valid()
    modifies p`location
    ensures p.location == Destination(p.homeStay, p.homeLocation, p.weeklySchedule, step)
    ensures (p.homeLocation < NumMunicipalities && forall i :: 0 <= i < |p.weeklySchedule| ==>
               p.weeklySchedule[i] < NumMunicipalities) ==> p.location < NumMunicipalities
  {
    if p.homeStay {
      p.location := p.homeLocation;
    } else {
      var hourOfWeek := step % (HoursPerDay * DaysPerWeek);
      var nextLocation := p.weeklySchedule[hourOfWeek];
      p.Travel(nextLocation);
    }
  }

  /**
   * After travelling, a person under a home-stay order is at home and its
   * situation, whatever the hour, is Home.
   */
  lemma HomeStayStaysHome(schedule: seq<nat>, homeLocation: nat, step: nat, d: Demographic)
    requires |schedule| == ScheduleLength
    ensures var loc := Destination(true, homeLocation, schedule, step);
            loc == homeLocation && Classify(step % HoursPerDay, loc == homeLocation, true, d) == Home
  {
  }
}
