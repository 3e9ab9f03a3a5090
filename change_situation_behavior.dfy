/**
 * The behaviour that sets a person's social situation each hour from the
 * hour of the day, whether the person is in its home municipality, its
 * home-stay order and its group.
 */
module ChangeSituationBehavior {
  import opened ModelFacts
  import opened Persons

  /** Night-time is before 09:00 and from 18:00 on. */
  predicate IsNight(hourOfDay: nat)
  {
    hourOfDay < 9 || hourOfDay > 17
  }

  /** The situation of a person in the hour `hourOfDay`. */
  function Classify(hourOfDay: nat, isHome: bool, homeStay: bool, d: Demographic): Situation
  {
    if IsNight(hourOfDay) then
      if isHome then Home else Other
    else if homeStay then Home
    else if isHome then DayTimeMixingHome(d)
    else DayTimeMixingOther(d)
  }

  /**
   * What each situation tells about the person: `Other` only away from
   * home; `Home` away from home only under a day-time home-stay order;
   * school and work only in day-time without such an order; at night the
   * situation is exactly `Home` at home and `Other` elsewhere; in day-time
   * a home-stay order gives `Home`, and otherwise the group's day-time
   * situation at home or away.
   */
  lemma ClassifyMeaning(hourOfDay: nat, isHome: bool, homeStay: bool, d: Demographic)
    ensures var s := Classify(hourOfDay, isHome, homeStay, d);
            (s == Other ==> !isHome) &&
            (s == Home && !isHome ==> !IsNight(hourOfDay) && homeStay) &&
            (s in {School, Work, WorkSchool} ==>
               (!IsNight(hourOfDay) && !homeStay && s == DayTimeMixingOther(d) && s == DayTimeMixingHome(d))) &&
            (IsNight(hourOfDay) ==> (s == Home <==> isHome) && (s == Other <==> !isHome))
    ensures !IsNight(hourOfDay) && homeStay ==> Classify(hourOfDay, isHome, homeStay, d) == Home
    ensures !IsNight(hourOfDay) && !homeStay && isHome ==> Classify(hourOfDay, isHome, homeStay, d) == DayTimeMixingHome(d)
    ensures !IsNight(hourOfDay) && !homeStay && !isHome ==>
              Classify(hourOfDay, isHome, homeStay, d) == DayTimeMixingOther(d)
  {
    DayTimeMixingTablesAgree(d);
  }

  /** Sets the situation of `p` for the hour of `step`; nothing else changes. */
  method Run(p: Person, step: nat)
    modifies p`situation
    ensures p.situation == Classify(step % HoursPerDay, p.homeLocation == p.location, p.homeStay, p.demography)
  {
    var hourOfDay := step % HoursPerDay;
    var isHome := p.homeLocation == p.location;
    var demography := p.demography;
    if hourOfDay < 9 || hourOfDay > 17 {
      if isHome {
        p.situation := Home;
      } else {
        p.situation := Other;
      }
    } else {
      if p.homeStay {
        p.situation := Home;
      } else if isHome {
        p.situation := DayTimeMixingHome(demography);
      } else {
        p.situation := DayTimeMixingOther(demography);
      }
    }
  }

  /**
   * The three persons of the behaviour's test: an unemployed elder under a
   * home-stay order, a worker away from home and a worker at home, at
   * midnight and at 10:00.
   */
  lemma ClassifyExamples()
    ensures Classify(0, true, true, HigherAgeUnemployed) == Home
    ensures Classify(0, false, false, MiddleAgeWorking) == Other
    ensures Classify(0, true, false, HigherAgeWorking) == Home
    ensures Classify(10, true, true, HigherAgeUnemployed) == Home
    ensures Classify(10, false, false, MiddleAgeWorking) == Work
    ensures Classify(10, true, false, HigherAgeWorking) == Work
  {
  }
}
