/**
 * Building the synthetic population: the weekly travel schedule of a new
 * person, the demographic group of a register entry, the position of a
 * municipality code, and the arithmetic of the random population (the
 * split over groups, the balancing of agents per municipality and the
 * blocks of agent ids each municipality receives). The Gaussian home-stay
 * draw and the seven daily Dirichlet samples are parameters.
 */
module Initialization {
  import opened Numerics
  import opened ModelFacts
  import opened InfectionModel
  import opened Persons
  import opened MobilityData
  import Environment
  import UpdateStatistics
  import ChangeSituationBehavior
  import TravelBehavior
  import InfectionBehavior

  // ---------------------------------------------------------------------
  // Weekly travel schedule

  /** The rounded home-stay draw confined to 1..23 hours: first capped at 23, then raised to 1. */
  function ClampHomestay(draw: nat): (h: nat)
    ensures 1 <= h <= 23
    ensures 1 <= draw <= 23 ==> h == draw
    ensures draw > 23 ==> h == 23
    ensures draw == 0 ==> h == 1
  {
    var capped := if draw > 23 then 23 else draw;
    if capped < 1 then 1 else capped
  }

  function AwayHours(homestay: nat): nat
    requires homestay <= HoursPerDay
  {
    HoursPerDay - homestay
  }

  /** The person is home from hour 0 up to, not including, this hour. */
  function FirstHalfHome(homestay: nat): nat
  {
    homestay / 2
  }

  /** The person is home again from this hour to the end of the day. */
  function SecondHalfHome(homestay: nat): int
  {
    HoursPerDay - (homestay + 1) / 2
  }

  /** The integer halves are the floor and the ceiling of half the home-stay hours. */
  lemma HalvesAreFloorAndCeiling(homestay: nat)
    ensures FirstHalfHome(homestay) == (homestay as real / 2.0).Floor
    ensures SecondHalfHome(homestay) == HoursPerDay - Ceil(homestay as real / 2.0)
  {
    FloorOfQuotient(homestay, 2);
    var c := Ceil(homestay as real / 2.0);
    assert homestay as real / 2.0 <= c as real < homestay as real / 2.0 + 1.0;
    assert homestay <= 2 * c < homestay + 2;
  }

  /**
   * The two home blocks: the evening block starts within the day, the
   * two blocks together last the home-stay hours, and the away block in
   * between lasts the away hours.
   */
  lemma HomeBlocks(draw: nat)
    ensures var h := ClampHomestay(draw);
            0 <= FirstHalfHome(h) < SecondHalfHome(h) <= HoursPerDay - 1 &&
            HoursPerDay - SecondHalfHome(h) + FirstHalfHome(h) == h &&
            SecondHalfHome(h) - FirstHalfHome(h) == AwayHours(h)
  {
  }

  /** What a person does in one hour of a day, given that day's away allocation. */
  function DaySlot(home: nat, homestay: nat, other: seq<nat>, hour: nat): nat
    requires 1 <= homestay <= 23 && |other| == AwayHours(homestay) && hour < HoursPerDay
  {
    if hour < FirstHalfHome(homestay) || hour >= SecondHalfHome(homestay) then home
    else other[hour - FirstHalfHome(homestay)]
  }

  /** One allocation of away hours for each day of the week. */
  predicate IsWeekOfAllocations(days: seq<seq<nat>>, homestay: nat)
    requires homestay <= HoursPerDay
  {
    |days| == DaysPerWeek && forall d :: 0 <= d < |days| ==> |days[d]| == AwayHours(homestay)
  }

  /** The 168 hourly destinations of a week, day after day. */
  function WeeklySchedule(home: nat, homestay: nat, days: seq<seq<nat>>): (s: seq<nat>)
    requires 1 <= homestay <= 23 && IsWeekOfAllocations(days, homestay)
    ensures |s| == ScheduleLength
  {
    seq(ScheduleLength, i requires 0 <= i < ScheduleLength =>
      DaySlot(home, homestay, days[i / HoursPerDay], i % HoursPerDay))
  }

  /**
   * In every day the hours outside the away block are home, and the hours
   * inside it follow that day's allocation in order; every slot is the home
   * or an entry of its day's allocation.
   */
  lemma WeeklyScheduleShape(home: nat, homestay: nat, days: seq<seq<nat>>)
    requires 1 <= homestay <= 23 && IsWeekOfAllocations(days, homestay)
    ensures forall i :: 0 <= i < ScheduleLength ==>
              (i % HoursPerDay < FirstHalfHome(homestay) || i % HoursPerDay >= SecondHalfHome(homestay) ==>
                 WeeklySchedule(home, homestay, days)[i] == home)
    ensures forall d, k :: 0 <= d < DaysPerWeek && 0 <= k < AwayHours(homestay) ==>
              WeeklySchedule(home, homestay, days)[d * HoursPerDay + FirstHalfHome(homestay) + k] == days[d][k]
    ensures forall i :: 0 <= i < ScheduleLength ==>
              WeeklySchedule(home, homestay, days)[i] == home ||
              WeeklySchedule(home, homestay, days)[i] in days[i / HoursPerDay]
  {
    var s := WeeklySchedule(home, homestay, days);
    forall d, k | 0 <= d < DaysPerWeek && 0 <= k < AwayHours(homestay)
      ensures s[d * HoursPerDay + FirstHalfHome(homestay) + k] == days[d][k]
    {
      var i := d * HoursPerDay + FirstHalfHome(homestay) + k;
      assert i / HoursPerDay == d && i % HoursPerDay == FirstHalfHome(homestay) + k;
    }
  }

  /**
   * The last hour of every day is spent at home, and so is every hour
   * before the first half of the home stay is over; with at least four
   * home-stay hours that covers hours 0 and 1.
   */
  lemma NightsAtHome(home: nat, homestay: nat, days: seq<seq<nat>>)
    requires 1 <= homestay <= 23 && IsWeekOfAllocations(days, homestay)
    ensures forall i :: 0 <= i < ScheduleLength && i % HoursPerDay == HoursPerDay - 1 ==>
              WeeklySchedule(home, homestay, days)[i] == home
    ensures homestay >= 4 ==> forall i :: 0 <= i < ScheduleLength && i % HoursPerDay < 2 ==>
              WeeklySchedule(home, homestay, days)[i] == home
  {
  }

  /**
   * With two or three home-stay hours the morning home block is a single
   * hour, so hour 1 already comes from the allocation and need not be home.
   */
  lemma HourOneCanBeAway()
    ensures var days := seq(DaysPerWeek, _ => seq(AwayHours(3), _ => 7));
            IsWeekOfAllocations(days, 3) && WeeklySchedule(0, 3, days)[1] == 7
  {
    var days := seq(DaysPerWeek, _ => seq(AwayHours(3), _ => 7));
    assert WeeklySchedule(0, 3, days)[1] == DaySlot(0, 3, days[0], 1);
  }

  /** Every day of the week has an allocation of away hours. */
  predicate AllDaysAllocated(samples: seq<seq<real>>, away: nat)
    requires forall d :: 0 <= d < |samples| ==> IsSample(samples[d])
  {
    forall d :: 0 <= d < |samples| ==> AwayAllocation(samples[d], away).Some?
  }

  /** The allocations of the days, in order. */
  function Allocations(samples: seq<seq<real>>, away: nat): (days: seq<seq<nat>>)
    requires forall d :: 0 <= d < |samples| ==> IsSample(samples[d])
    requires AllDaysAllocated(samples, away)
    ensures |days| == |samples|
    ensures forall d :: 0 <= d < |samples| ==> days[d] == AwayAllocation(samples[d], away).value
  {
    seq(|samples|, d requires 0 <= d < |samples| => AwayAllocation(samples[d], away).value)
  }

  /** Each day's allocation fills exactly the away hours. */
  lemma AllocationsAreAWeek(samples: seq<seq<real>>, homestay: nat)
    requires 1 <= homestay <= 23
    requires |samples| == DaysPerWeek && forall d :: 0 <= d < |samples| ==> IsSample(samples[d])
    requires AllDaysAllocated(samples, AwayHours(homestay))
    ensures IsWeekOfAllocations(Allocations(samples, AwayHours(homestay)), homestay)
  {
    forall d | 0 <= d < DaysPerWeek
      ensures |Allocations(samples, AwayHours(homestay))[d]| == AwayHours(homestay)
    {
      AwayAllocationFills(samples[d], AwayHours(homestay));
    }
  }

  /** The first |days| days of `schedule` are written from `days`, hour by hour. */
  ghost predicate DaysWritten(schedule: seq<nat>, home: nat, homestay: nat, days: seq<seq<nat>>)
    requires 1 <= homestay <= 23
  {
    |schedule| == ScheduleLength && |days| <= DaysPerWeek &&
    (forall d :: 0 <= d < |days| ==> |days[d]| == AwayHours(homestay)) &&
    forall d, h :: 0 <= d < |days| && 0 <= h < HoursPerDay ==>
      schedule[d * HoursPerDay + h] == DaySlot(home, homestay, days[d], h)
  }

  /** Writing the next day after the written ones keeps them and adds it. */
  lemma DaysWrittenAppend(schedule: seq<nat>, s: seq<nat>, home: nat, homestay: nat, days: seq<seq<nat>>,
                          other: seq<nat>)
    requires 1 <= homestay <= 23 && DaysWritten(schedule, home, homestay, days)
    requires |days| < DaysPerWeek && |other| == AwayHours(homestay) && |s| == ScheduleLength
    requires s[..|days| * HoursPerDay] == schedule[..|days| * HoursPerDay]
    requires forall h :: 0 <= h < HoursPerDay ==> s[|days| * HoursPerDay + h] == DaySlot(home, homestay, other, h)
    ensures DaysWritten(s, home, homestay, days + [other])
  {
    var n := |days|;
    var week := days + [other];
    forall d, h | 0 <= d < |week| && 0 <= h < HoursPerDay
      ensures s[d * HoursPerDay + h] == DaySlot(home, homestay, week[d], h)
    {
      if d < n {
        assert d * HoursPerDay + h < n * HoursPerDay;
        assert s[d * HoursPerDay + h] == s[..n * HoursPerDay][d * HoursPerDay + h];
      }
    }
  }

  /** A whole written week is the weekly schedule of its days. */
  lemma DaysWrittenIsWeeklySchedule(schedule: seq<nat>, home: nat, homestay: nat, days: seq<seq<nat>>)
    requires 1 <= homestay <= 23 && DaysWritten(schedule, home, homestay, days) && |days| == DaysPerWeek
    ensures IsWeekOfAllocations(days, homestay)
    ensures schedule == WeeklySchedule(home, homestay, days)
  {
    forall i | 0 <= i < ScheduleLength
      ensures schedule[i] == WeeklySchedule(home, homestay, days)[i]
    {
      var d, h := i / HoursPerDay, i % HoursPerDay;
      assert i == d * HoursPerDay + h;
    }
  }

  /** Writes the 24 hours of the day after the written `days`. */
  method FillDay(schedule: seq<nat>, idx: nat, home: nat, homestay: nat, other: seq<nat>, ghost days: seq<seq<nat>>)
    returns (s: seq<nat>, next: nat)
    requires 1 <= homestay <= 23 && |other| == AwayHours(homestay)
    requires DaysWritten(schedule, home, homestay, days) && |days| < DaysPerWeek && idx == |days| * HoursPerDay
    ensures DaysWritten(s, home, homestay, days + [other]) && next == idx + HoursPerDay
  {
    s := schedule;
    var firstHalf := homestay / 2;
    var secondHalf := HoursPerDay - (homestay + 1) / 2;
    for hour := 0 to HoursPerDay
      invariant |s| == ScheduleLength
      invariant s[..|days| * HoursPerDay] == schedule[..|days| * HoursPerDay]
      invariant forall h :: 0 <= h < hour ==> s[|days| * HoursPerDay + h] == DaySlot(home, homestay, other, h)
    {
      if hour < firstHalf || hour >= secondHalf {
        s := s[idx + hour := home];
      } else {
        s := s[idx + hour := other[hour - firstHalf]];
      }
    }
    DaysWrittenAppend(schedule, s, home, homestay, days, other);
    next := idx + HoursPerDay;
  }

  /**
   * One day of the schedule: draws the day's allocation of away hours and,
   * when there is one, writes the day after the written `days`.
   */
  method ScheduleDay(p: Person, data: MobilityTables, sample: seq<real>, schedule: seq<nat>, idx: nat,
                     homestay: nat, ghost days: seq<seq<nat>>)
    returns (s: seq<nat>, next: nat, dayOk: bool, ghost today: seq<nat>)
    requires HasRows(data, p.homeLocation) && IsSample(sample) && 1 <= homestay <= 23
    requires DaysWritten(schedule, p.homeLocation, homestay, days) && |days| < DaysPerWeek
    requires idx == |days| * HoursPerDay
    ensures dayOk == AwayAllocation(sample, AwayHours(homestay)).Some?
    ensures |s| == ScheduleLength
    ensures dayOk ==> today == AwayAllocation(sample, AwayHours(homestay)).value && next == idx + HoursPerDay &&
                      DaysWritten(s, p.homeLocation, homestay, days + [today])
  {
    var otherLocations := new nat[AwayHours(homestay)];
    var _, ok := DrawDirichlet(data, p, sample, otherLocations);
    s, next, dayOk, today := schedule, idx, ok, otherLocations[..];
    if ok {
      s, next := FillDay(schedule, idx, p.homeLocation, homestay, otherLocations[..], days);
    }
  }

  /**
   * Fills the weekly schedule of `p` day by day: each day draws an
   * allocation of the away hours and writes the 24 hours of the day. The
   * result reports whether every day's allocation exists; then the schedule
   * is the week of those allocations around the two home blocks.
   */
  method InitializeWeeklyTravelSchedule(p: Person, data: MobilityTables, draw: nat, samples: seq<seq<real>>)
    returns (ok: bool)
    requires p.Valid() && HasRows(data, p.homeLocation)
    requires |samples| == DaysPerWeek && forall d :: 0 <= d < |samples| ==> IsSample(samples[d])
    modifies p`weeklySchedule
    ensures p.Valid()
    ensures ok == AllDaysAllocated(samples, AwayHours(ClampHomestay(draw)))
    ensures ok ==> IsWeekOfAllocations(Allocations(samples, AwayHours(ClampHomestay(draw))), ClampHomestay(draw))
    ensures ok ==> (p.weeklySchedule ==
              WeeklySchedule(p.homeLocation, ClampHomestay(draw), Allocations(samples, AwayHours(ClampHomestay(draw)))))
  {
    var homestay := if draw > 23 then 23 else draw;
    homestay := if homestay < 1 then 1 else homestay;
    var schedule;
    schedule, ok := FillWeek(p, data, samples, homestay, p.weeklySchedule);
    p.weeklySchedule := schedule;
  }

  /** The week written into `schedule`, in the terms of the schedule's definition. */
  method FillWeek(p: Person, data: MobilityTables, samples: seq<seq<real>>, homestay: nat, schedule0: seq<nat>)
    returns (schedule: seq<nat>, ok: bool)
    requires HasRows(data, p.homeLocation) && 1 <= homestay <= 23 && |schedule0| == ScheduleLength
    requires |samples| == DaysPerWeek && forall d :: 0 <= d < |samples| ==> IsSample(samples[d])
    ensures |schedule| == ScheduleLength
    ensures ok == AllDaysAllocated(samples, AwayHours(homestay))
    ensures ok ==> IsWeekOfAllocations(Allocations(samples, AwayHours(homestay)), homestay)
    ensures ok ==> schedule == WeeklySchedule(p.homeLocation, homestay, Allocations(samples, AwayHours(homestay)))
  {
    ghost var days;
    schedule, ok, days := WriteDays(p, data, samples, homestay, schedule0);
    if ok {
      assert days == Allocations(samples, AwayHours(homestay));
      DaysWrittenIsWeeklySchedule(schedule, p.homeLocation, homestay, days);
    }
  }

  /**
   * The days of the week written one after the other into `schedule`,
   * stopping at the first day without an allocation; `days` are the
   * allocations drawn.
   */
  method WriteDays(p: Person, data: MobilityTables, samples: seq<seq<real>>, homestay: nat, schedule0: seq<nat>)
    returns (schedule: seq<nat>, ok: bool, ghost days: seq<seq<nat>>)
    requires HasRows(data, p.homeLocation) && 1 <= homestay <= 23 && |schedule0| == ScheduleLength
    requires |samples| == DaysPerWeek && forall d :: 0 <= d < |samples| ==> IsSample(samples[d])
    ensures |schedule| == ScheduleLength
    ensures !ok ==> exists d :: 0 <= d < DaysPerWeek && AwayAllocation(samples[d], AwayHours(homestay)).None?
    ensures ok ==> |days| == DaysPerWeek && DaysWritten(schedule, p.homeLocation, homestay, days)
    ensures ok ==> DaysAllocated(samples, AwayHours(homestay), days)
  {
    var away := AwayHours(homestay);
    schedule := schedule0;
    days := [];
    var idx := 0;
    for day := 0 to DaysPerWeek
      invariant |days| == day && DaysWritten(schedule, p.homeLocation, homestay, days)
      invariant idx == day * HoursPerDay
      invariant DaysAllocated(samples, away, days)
    {
      var dayOk;
      ghost var today;
      schedule, idx, dayOk, today := ScheduleDay(p, data, samples[day], schedule, idx, homestay, days);
      if !dayOk {
        assert AwayAllocation(samples[day], away).None?;
        return schedule, false, days;
      }
      DaysAllocatedAppend(samples, away, days, today);
      days := days + [today];
    }
    ok := true;
  }

  /** Each of the first |days| days has an allocation, and `days` holds them. */
  ghost predicate DaysAllocated(samples: seq<seq<real>>, away: nat, days: seq<seq<nat>>)
    requires forall d :: 0 <= d < |samples| ==> IsSample(samples[d])
  {
    |days| <= |samples| &&
    forall d :: 0 <= d < |days| ==> AwayAllocation(samples[d], away).Some? &&
                                     days[d] == AwayAllocation(samples[d], away).value
  }

  lemma DaysAllocatedAppend(samples: seq<seq<real>>, away: nat, days: seq<seq<nat>>, today: seq<nat>)
    requires forall d :: 0 <= d < |samples| ==> IsSample(samples[d])
    requires DaysAllocated(samples, away, days) && |days| < |samples|
    requires AwayAllocation(samples[|days|], away).Some? && today == AwayAllocation(samples[|days|], away).value
    ensures DaysAllocated(samples, away, days + [today])
  {
    var next := days + [today];
    forall d | 0 <= d < |next|
      ensures AwayAllocation(samples[d], away).Some? && next[d] == AwayAllocation(samples[d], away).value
    {
      if d < |days| {
        assert next[d] == days[d];
      }
    }
  }

  // ---------------------------------------------------------------------
  // Demographic group of a register entry

  /**
   * The group of a person of the given age and work status: the age band
   * decides, and within the student and working-age bands the work status
   * picks the studying or working group. The age lies within the limits of
   * the group it is assigned to.
   */
  function WorkstatusToDemographic(workstatus: int, age: nat): (d: Demographic)
    ensures AgeLimits(d).0 <= age && (age <= 110 ==> age <= AgeLimits(d).1)
    ensures d == Students <==> 17 <= age <= 24 && (workstatus == 26 || workstatus == 31)
    ensures d == MiddleAgeWorking <==> 25 <= age <= 54 && 11 <= workstatus <= 15
    ensures d == HigherAgeWorking <==> 55 <= age <= 67 && 11 <= workstatus <= 15
  {
    if age <= 4 then PreSchoolChildren
    else if age <= 11 then PrimarySchoolChildren
    else if age <= 16 then SecondarySchoolChildren
    else if age <= 24 then
      (if workstatus == 26 || workstatus == 31 then Students else NonStudyingAdolescents)
    else if age <= 54 then
      (if 11 <= workstatus <= 15 then MiddleAgeWorking else MiddleAgeUnemployed)
    else if age <= 67 then
      (if 11 <= workstatus <= 15 then HigherAgeWorking else HigherAgeUnemployed)
    else if age <= 80 then Elderly
    else Eldest
  }

  /** Outside the ages of 17 to 67 the work status plays no part. */
  lemma WorkstatusOnlyForWorkingAges(ws1: int, ws2: int, age: nat)
    requires age <= 16 || age > 67
    ensures WorkstatusToDemographic(ws1, age) == WorkstatusToDemographic(ws2, age)
  {
  }

  /** The band edges of the group table, entry by entry. */
  lemma WorkstatusExamples()
    ensures WorkstatusToDemographic(0, 0) == PreSchoolChildren
    ensures WorkstatusToDemographic(26, 4) == PreSchoolChildren
    ensures WorkstatusToDemographic(0, 5) == PrimarySchoolChildren
    ensures WorkstatusToDemographic(24, 11) == PrimarySchoolChildren
    ensures WorkstatusToDemographic(0, 12) == SecondarySchoolChildren
    ensures WorkstatusToDemographic(24, 16) == SecondarySchoolChildren
    ensures WorkstatusToDemographic(26, 17) == Students
    ensures WorkstatusToDemographic(26, 24) == Students
    ensures WorkstatusToDemographic(54, 17) == NonStudyingAdolescents
    ensures WorkstatusToDemographic(11, 20) == NonStudyingAdolescents
    ensures WorkstatusToDemographic(11, 25) == MiddleAgeWorking
    ensures WorkstatusToDemographic(15, 36) == MiddleAgeWorking
    ensures WorkstatusToDemographic(10, 35) == MiddleAgeUnemployed
    ensures WorkstatusToDemographic(26, 54) == MiddleAgeUnemployed
    ensures WorkstatusToDemographic(11, 55) == HigherAgeWorking
    ensures WorkstatusToDemographic(15, 67) == HigherAgeWorking
    ensures WorkstatusToDemographic(10, 58) == HigherAgeUnemployed
    ensures WorkstatusToDemographic(16, 62) == HigherAgeUnemployed
    ensures WorkstatusToDemographic(16, 68) == Elderly
    ensures WorkstatusToDemographic(16, 80) == Elderly
    ensures WorkstatusToDemographic(16, 81) == Eldest
    ensures WorkstatusToDemographic(16, 100) == Eldest
  {
  }

  // ---------------------------------------------------------------------
  // Municipality code to location

  /** The position of the first occurrence of `x`, if any. */
  function FirstIndexOf(s: seq<nat>, x: nat): (r: Option<nat>)
    ensures r.None? <==> x !in s
    ensures r.Some? ==> r.value < |s| && s[r.value] == x && forall j :: 0 <= j < r.value ==> s[j] != x
  {
    if |s| == 0 then None
    else if s[0] == x then Some(0)
    else match FirstIndexOf(s[1..], x)
      case None => None
      case Some(i) => Some(i + 1)
  }

  /**
   * The location of a municipality: the position of its code in the list
   * of valid codes, searched from the front. A code that is not listed is
   * fatal in the simulation; here it gives `None`.
   */
  method MunicipalityToLocation(municipality: nat, codes: seq<nat>) returns (r: Option<nat>)
    ensures r == FirstIndexOf(codes, municipality)
  {
    var i := 0;
    while i < |codes| && codes[i] != municipality
      invariant 0 <= i <= |codes|
      invariant forall j :: 0 <= j < i ==> codes[j] != municipality
    {
      i := i + 1;
    }
    if i == |codes| {
      r := None;
    } else {
      r := Some(i);
    }
  }

  // ---------------------------------------------------------------------
  // Random population: agents per group

  /** The range of `size_t`. */
  const SizeRange: nat := 0x1_0000_0000_0000_0000

  /** The rounded national share of group `d` in a population of `size`. */
  function GroupTarget(size: nat, d: nat): nat
    requires d < NumDemographies
  {
    RoundNonNeg(NationalFractionPerDemography[d] * size as real)
  }

  /**
   * The group sizes as the code computes them in unsigned 64-bit
   * arithmetic: each of the first ten groups gets its rounded share and the
   * last one the population size minus the running count, which wraps
   * around when the rounded shares already exceed the population.
   */
  function GroupSizesWrapping(size: nat, k: nat): (s: seq<nat>)
    requires k <= NumDemographies
    ensures |s| == k
  {
    if k == 0 then []
    else
      var prev := GroupSizesWrapping(size, k - 1);
      var count := Sum(prev) % SizeRange;
      prev + [if k == NumDemographies then (size - count) % SizeRange else GroupTarget(size, k - 1)]
  }

  /**
   * The group sizes with the remainder rule as intended: each group gets
   * its rounded share but never more than is left, and the last group
   * gets what is left.
   */
  function GroupSizes(size: nat, k: nat): (s: seq<nat>)
    requires k <= NumDemographies
    ensures |s| == k && Sum(s) <= size
    ensures k == NumDemographies ==> Sum(s) == size
  {
    if k == 0 then []
    else
      var prev := GroupSizes(size, k - 1);
      var left := size - Sum(prev);
      var next := if k == NumDemographies then left else Min(GroupTarget(size, k - 1), left);
      SumAppend(prev, next);
      prev + [next]
  }

  /** No group but the last gets more than its rounded share. */
  lemma {:induction false} GroupSizesWithinTargets(size: nat, k: nat)
    requires k <= NumDemographies
    ensures forall d :: 0 <= d < k && d < NumDemographies - 1 ==> GroupSizes(size, k)[d] <= GroupTarget(size, d)
  {
    if k > 0 {
      GroupSizesWithinTargets(size, k - 1);
      var prev := GroupSizes(size, k - 1);
      assert forall d :: 0 <= d < k - 1 ==> GroupSizes(size, k)[d] == prev[d];
    }
  }

  lemma SumAppend(s: seq<nat>, x: nat)
    ensures Sum(s + [x]) == Sum(s) + x
  {
    assert (s + [x])[..|s|] == s;
  }

  /** One more group: the next size is the rest for the last group and the capped share otherwise. */
  lemma GroupSizesStep(size: nat, d: nat)
    requires d < NumDemographies
    ensures var prev := GroupSizes(size, d);
            var left := size - Sum(prev);
            GroupSizes(size, d + 1) ==
              prev + [if d == NumDemographies - 1 then left else Min(GroupTarget(size, d), left)]
  {
  }

  /** The rounded shares of the first `k` groups. */
  function Targets(size: nat, k: nat): (t: seq<nat>)
    requires k <= NumDemographies
    ensures |t| == k && forall d :: 0 <= d < k ==> t[d] == GroupTarget(size, d)
  {
    if k == 0 then [] else Targets(size, k - 1) + [GroupTarget(size, k - 1)]
  }

  /** When the rounded shares of the first ten groups fit, the correction changes nothing. */
  lemma {:induction false} GroupSizesAgreeWhenSharesFit(size: nat, k: nat)
    requires k < NumDemographies && size < SizeRange
    requires Sum(Targets(size, k)) <= size
    ensures GroupSizes(size, k) == GroupSizesWrapping(size, k) == Targets(size, k)
  {
    if k > 0 {
      var prev := Targets(size, k - 1);
      assert (prev + [GroupTarget(size, k - 1)])[..k - 1] == prev;
      GroupSizesAgreeWhenSharesFit(size, k - 1);
    }
  }

  /** Before the last group nothing wraps: the first ten sizes are the rounded shares. */
  lemma {:induction false} WrappingMatchesTargets(size: nat, k: nat)
    requires k < NumDemographies
    ensures GroupSizesWrapping(size, k) == Targets(size, k)
  {
    if k > 0 {
      WrappingMatchesTargets(size, k - 1);
    }
  }

  /** The rounded shares of a population of nine. */
  lemma TargetsOfNine()
    ensures Targets(9, NumDemographies - 1) == [0, 1, 1, 1, 0, 3, 1, 1, 1, 1]
  {
    var expected: seq<nat> := [0, 1, 1, 1, 0, 3, 1, 1, 1, 1];
    forall d | 0 <= d < NumDemographies - 1
      ensures GroupTarget(9, d) == expected[d]
    {
      var f := NationalFractionPerDemography[d];
      assert f * 9.0 - 0.5 < GroupTarget(9, d) as real <= f * 9.0 + 0.5;
    }
  }

  /**
   * A population of nine: the first ten rounded shares add up to ten, so
   * the last group is given 2^64 - 1 agents instead of none, while the
   * corrected sizes add up to nine.
   */
  lemma WrappingGroupSizesOfNine()
    ensures GroupSizesWrapping(9, NumDemographies)[NumDemographies - 1] == SizeRange - 1
    ensures Sum(GroupSizes(9, NumDemographies)) == 9
  {
    var prev := GroupSizesWrapping(9, NumDemographies - 1);
    WrappingMatchesTargets(9, NumDemographies - 1);
    TargetsOfNine();
    SharesOfNine(prev);
    assert GroupSizesWrapping(9, NumDemographies) == prev + [(9 - 10) % SizeRange];
  }

  /** The ten rounded shares of a population of nine add up to ten. */
  lemma SharesOfNine(shares: seq<nat>)
    requires shares == [0, 1, 1, 1, 0, 3, 1, 1, 1, 1]
    ensures Sum(shares) == 10
  {
    assert Sum(shares[..1]) == 0 by { assert shares[..1][..0] == []; }
    assert Sum(shares[..2]) == 1 by { assert shares[..2][..1] == shares[..1]; }
    assert Sum(shares[..3]) == 2 by { assert shares[..3][..2] == shares[..2]; }
    assert Sum(shares[..4]) == 3 by { assert shares[..4][..3] == shares[..3]; }
    assert Sum(shares[..5]) == 3 by { assert shares[..5][..4] == shares[..4]; }
    assert Sum(shares[..6]) == 6 by { assert shares[..6][..5] == shares[..5]; }
    assert Sum(shares[..7]) == 7 by { assert shares[..7][..6] == shares[..6]; }
    assert Sum(shares[..8]) == 8 by { assert shares[..8][..7] == shares[..7]; }
    assert Sum(shares[..9]) == 9 by { assert shares[..9][..8] == shares[..8]; }
    assert shares[..10] == shares;
  }

  /**
   * The number of agents of each group, with the running agent count; the
   * last group takes the remainder, so the groups make up the population.
   */
  method PartitionPopulation(size: nat) returns (sizes: seq<nat>, popCount: nat)
    ensures sizes == GroupSizes(size, NumDemographies)
    ensures popCount == Sum(sizes) == size
  {
    sizes := [];
    popCount := 0;
    for d := 0 to NumDemographies
      invariant sizes == GroupSizes(size, d) && popCount == Sum(sizes)
    {
      var popPerDemo := Min(GroupTarget(size, d), size - popCount);
      if d == NumDemographies - 1 {
        popPerDemo := size - popCount;
      }
      GroupSizesStep(size, d);
      SumAppend(sizes, popPerDemo);
      sizes := sizes + [popPerDemo];
      popCount := popCount + popPerDemo;
    }
  }

  // ---------------------------------------------------------------------
  // Random population: agents per municipality

  /** The range of `uint32_t`. */
  const U32Range: nat := 0x1_0000_0000

  /** The municipality (Amsterdam) that absorbs the rounding difference. */
  const BalancingMunicipality: nat := 15

  /** Each municipality's inhabitants divided by the agent-to-person ratio and rounded. */
  function AgentsPerMunicipality(population: seq<nat>, scaling: real): (a: seq<nat>)
    requires scaling > 0.0
    ensures |a| == |population|
    ensures forall m :: 0 <= m < |a| ==>
              population[m] as real / scaling - 0.5 < a[m] as real <= population[m] as real / scaling + 0.5
  {
    seq(|population|, m requires 0 <= m < |population| => RoundNonNeg(population[m] as real / scaling))
  }

  /**
   * The agents per municipality after the balancing municipality has taken
   * the whole difference to the agent count, in unsigned 32-bit arithmetic;
   * `None` when the counts still disagree, which is fatal in the simulation.
   */
  function BalanceAgents(agents: seq<nat>, popCount: nat): Option<seq<nat>>
    requires BalancingMunicipality < |agents|
  {
    var diff := Sum(agents) - popCount;
    var adjusted := agents[BalancingMunicipality := (agents[BalancingMunicipality] - diff) % U32Range];
    if Sum(adjusted) == popCount then Some(adjusted) else None
  }

  /**
   * Balancing succeeds exactly when the balancing municipality can absorb
   * the difference within the 32-bit range; then only its entry changes
   * and the agents per municipality add up to the agent count.
   */
  lemma BalanceAgentsSpec(agents: seq<nat>, popCount: nat)
    requires BalancingMunicipality < |agents|
    ensures var b := agents[BalancingMunicipality] + popCount - Sum(agents);
            BalanceAgents(agents, popCount).Some? <==> 0 <= b < U32Range
    ensures BalanceAgents(agents, popCount).Some? ==>
              var r := BalanceAgents(agents, popCount).value;
              |r| == |agents| && Sum(r) == popCount &&
              r[BalancingMunicipality] == agents[BalancingMunicipality] + popCount - Sum(agents) &&
              forall m :: 0 <= m < |agents| && m != BalancingMunicipality ==> r[m] == agents[m]
  {
    var diff := Sum(agents) - popCount;
    var v := (agents[BalancingMunicipality] - diff) % U32Range;
    SumUpdate(agents, BalancingMunicipality, v);
  }

  /**
   * The value held by an `int` accumulator after adding up entries whose
   * exact total is `x`: the total modulo 2^32, read as a signed number.
   */
  function IntAccumulated(x: int): (r: int)
    ensures -0x8000_0000 <= r < 0x8000_0000
    ensures (r - x) % U32Range == 0
  {
    var w := x % U32Range;
    if w < 0x8000_0000 then w else w - U32Range
  }

  /**
   * The balancing as the program writes it: both totals are accumulated in
   * `int` and compared with the `size_t` agent count, and the difference is
   * subtracted from the balancing entry in `uint32_t`. The flag is the
   * fatal check on the balanced counts.
   */
  function BalanceAgentsAsWritten(agents: seq<nat>, popCount: nat): (r: (seq<nat>, bool))
    requires BalancingMunicipality < |agents| && popCount < SizeRange
    ensures |r.0| == |agents|
    ensures forall m :: 0 <= m < |agents| && m != BalancingMunicipality ==> r.0[m] == agents[m]
  {
    var diff := (IntAccumulated(Sum(agents)) - popCount) % SizeRange;
    var adjusted := agents[BalancingMunicipality := (agents[BalancingMunicipality] - diff) % U32Range];
    (adjusted, (IntAccumulated(Sum(adjusted)) - popCount) % SizeRange != 0)
  }

  /**
   * For any agent count below 2^31 the program's fatal check never fires:
   * the balanced counts agree with the agent count modulo 2^32, which is
   * all an `int` accumulator can see.
   */
  lemma BalanceCheckNeverFires(agents: seq<nat>, popCount: nat)
    requires BalancingMunicipality < |agents| && popCount < 0x8000_0000
    ensures Sum(BalanceAgentsAsWritten(agents, popCount).0) % U32Range == popCount
    ensures !BalanceAgentsAsWritten(agents, popCount).1
  {
    var s := Sum(agents);
    var a15 := agents[BalancingMunicipality];
    var acc := IntAccumulated(s);
    var diff := (acc - popCount) % SizeRange;
    var v := (a15 - diff) % U32Range;
    var adjusted := agents[BalancingMunicipality := v];
    SumUpdate(agents, BalancingMunicipality, v);
    EntryAtMostSum(agents, BalancingMunicipality);
    var q1 := (a15 - diff) / U32Range;
    var q2 := (acc - popCount) / SizeRange;
    var q3 := (acc - s) / U32Range;
    assert v == a15 - diff - q1 * U32Range;
    assert diff == acc - popCount - q2 * SizeRange;
    assert acc == s + q3 * U32Range;
    var k := q2 * U32Range - q1 - q3;
    assert q2 * SizeRange == (q2 * U32Range) * U32Range;
    assert Sum(adjusted) == popCount + k * U32Range;
    ModOfShift(popCount, k);
    assert IntAccumulated(Sum(adjusted)) == popCount;
  }

  /** Adding a multiple of 2^32 to a number below 2^32 leaves its remainder. */
  lemma ModOfShift(x: nat, k: int)
    requires x < U32Range
    ensures (x + k * U32Range) % U32Range == x
  {
  }

  lemma {:induction false} SumOnes(n: nat)
    ensures Sum(seq(n, _ => 1)) == n
  {
    if n > 0 {
      assert seq(n, _ => 1)[..n - 1] == seq(n - 1, _ => 1);
      SumOnes(n - 1);
    }
  }

  /**
   * A municipality table of 380 single agents with an agent count of 10:
   * the balancing entry wraps to 2^32 - 369, the counts then add up to
   * 2^32 + 10, and the program's check still passes. The exact balancing
   * reports the failure.
   */
  lemma BalanceCheckMissesWrap()
    ensures var agents := seq(380, _ => 1);
            var r := BalanceAgentsAsWritten(agents, 10);
            r.0[BalancingMunicipality] == U32Range - 369 && Sum(r.0) == U32Range + 10 && !r.1 &&
            BalanceAgents(agents, 10) == None
  {
    var agents := seq(380, _ => 1);
    SumOnes(380);
    BalanceCheckNeverFires(agents, 10);
    var r := BalanceAgentsAsWritten(agents, 10);
    SumUpdate(agents, BalancingMunicipality, U32Range - 369);
    assert r.0 == agents[BalancingMunicipality := U32Range - 369];
    BalanceAgentsSpec(agents, 10);
  }

  /** The running totals of a sequence: entry `i` is the sum of the first `i + 1` entries. */
  method PartialSums(a: seq<nat>) returns (c: seq<nat>)
    ensures |c| == |a|
    ensures forall i :: 0 <= i < |a| ==> c[i] == Sum(a[..i + 1])
  {
    c := [];
    var total := 0;
    for i := 0 to |a|
      invariant |c| == i && total == Sum(a[..i])
      invariant forall j :: 0 <= j < i ==> c[j] == Sum(a[..j + 1])
    {
      assert a[..i + 1][..i] == a[..i];
      total := total + a[i];
      c := c + [total];
    }
  }

  lemma {:induction false} PrefixSumMonotone(a: seq<nat>, i: nat, j: nat)
    requires i <= j <= |a|
    ensures Sum(a[..i]) <= Sum(a[..j])
  {
    if i < j {
      PrefixSumMonotone(a, i, j - 1);
      assert a[..j][..j - 1] == a[..j - 1];
    }
  }

  /** The municipality whose block of agent ids holds `uid`. */
  function BlockOf(agents: seq<nat>, uid: nat): (i: nat)
    requires uid < Sum(agents)
    ensures i < |agents| && Sum(agents[..i]) <= uid < Sum(agents[..i + 1])
  {
    var n := |agents| - 1;
    assert agents[..n + 1] == agents;
    if uid >= Sum(agents[..n]) then n
    else
      var i := BlockOf(agents[..n], uid);
      assert agents[..n][..i] == agents[..i] && agents[..n][..i + 1] == agents[..i + 1];
      i
  }

  /** The blocks do not overlap: an id inside block `i` belongs to municipality `i`. */
  lemma BlockOfUnique(agents: seq<nat>, i: nat, uid: nat)
    requires i < |agents| && Sum(agents[..i]) <= uid < Sum(agents[..i + 1])
    ensures uid < Sum(agents) && BlockOf(agents, uid) == i
  {
    PrefixSumMonotone(agents, i + 1, |agents|);
    assert agents[..|agents|] == agents;
    var b := BlockOf(agents, uid);
    if b < i {
      PrefixSumMonotone(agents, b + 1, i);
    } else if b > i {
      PrefixSumMonotone(agents, i + 1, b);
    }
  }

  /**
   * Gives the agents with ids in municipality `i`'s block, from the running
   * total before `i` up to the running total including `i`, location and
   * home location `i`.
   */
  method AssignMunicipalities(pop: seq<Person>, agents: seq<nat>)
    requires Distinct(pop) && Sum(agents) == |pop|
    modifies (set p | p in pop)`location, (set p | p in pop)`homeLocation
    ensures forall uid :: 0 <= uid < |pop| ==>
              pop[uid].location == BlockOf(agents, uid) && pop[uid].homeLocation == BlockOf(agents, uid)
  {
    var cumsum := PartialSums(agents);
    assert agents[..0] == [];
    for i := 0 to |agents|
      invariant Sum(agents[..i]) <= |pop|
      invariant forall uid :: 0 <= uid < Sum(agents[..i]) ==>
                  pop[uid].location == BlockOf(agents, uid) && pop[uid].homeLocation == BlockOf(agents, uid)
    {
      var offset := if i == 0 then 0 else cumsum[i - 1];
      assert offset == Sum(agents[..i]) by {
        if i == 0 { assert agents[..0] == []; }
      }
      PlaceBlock(pop, agents, i, offset);
    }
    assert agents[..|agents|] == agents;
  }

  /**
   * Places the persons of block `i`, the `agents[i]` persons starting at
   * `offset`, in municipality `i`; the persons before the block keep their
   * municipality.
   */
  method PlaceBlock(pop: seq<Person>, agents: seq<nat>, i: nat, offset: nat)
    requires Distinct(pop) && Sum(agents) == |pop| && i < |agents| && offset == Sum(agents[..i]) <= |pop|
    modifies (set p | p in pop)`location, (set p | p in pop)`homeLocation
    ensures Sum(agents[..i + 1]) <= |pop|
    ensures forall uid :: 0 <= uid < offset ==>
              pop[uid].location == old(pop[uid].location) && pop[uid].homeLocation == old(pop[uid].homeLocation)
    ensures forall uid :: offset <= uid < Sum(agents[..i + 1]) ==>
              pop[uid].location == BlockOf(agents, uid) && pop[uid].homeLocation == BlockOf(agents, uid)
  {
    var apm := agents[i];
    assert agents[..i + 1][..i] == agents[..i];
    PrefixSumMonotone(agents, i + 1, |agents|);
    assert agents[..|agents|] == agents;
    assert offset + apm == Sum(agents[..i + 1]) <= |pop|;
    for idx := 0 to apm
      invariant forall uid :: 0 <= uid < offset ==>
                  pop[uid].location == old(pop[uid].location) && pop[uid].homeLocation == old(pop[uid].homeLocation)
      invariant forall uid :: offset <= uid < offset + idx ==> pop[uid].location == i && pop[uid].homeLocation == i
    {
      var uid := offset + idx;
      pop[uid].location := i;
      pop[uid].homeLocation := i;
    }
    forall uid | offset <= uid < Sum(agents[..i + 1])
      ensures BlockOf(agents, uid) == i
    {
      BlockOfUnique(agents, i, uid);
    }
  }

  // ---------------------------------------------------------------------
  // Persons away from home on the first day

  /** The number of persons whose destination in hour `h` is not their home. */
  function NotHomeAt(pop: seq<Person>, h: nat): nat
    requires forall i :: 0 <= i < |pop| ==> pop[i].Valid()
    requires h < HoursPerDay
    reads set p | p in pop
  {
    if |pop| == 0 then 0
    else
      var last := pop[|pop| - 1];
      assert last.Valid();
      NotHomeAt(pop[..|pop| - 1], h) + (if last.weeklySchedule[h] != last.homeLocation then 1 else 0)
  }

  /** The tally never exceeds the population, and is zero in an hour everyone spends at home. */
  lemma {:induction false} NotHomeAtBounds(pop: seq<Person>, h: nat)
    requires forall i :: 0 <= i < |pop| ==> pop[i].Valid()
    requires h < HoursPerDay
    ensures NotHomeAt(pop, h) <= |pop|
    ensures (forall i :: 0 <= i < |pop| ==> pop[i].weeklySchedule[h] == pop[i].homeLocation) ==>
              NotHomeAt(pop, h) == 0
  {
    if |pop| > 0 {
      NotHomeAtBounds(pop[..|pop| - 1], h);
    }
  }

  /** Nobody whose schedule was built by the weekly rule is away in the last hour of the day. */
  lemma NobodyAwayAtLastHour(pop: seq<Person>, homestays: seq<nat>, weeks: seq<seq<seq<nat>>>)
    requires forall i :: 0 <= i < |pop| ==> pop[i].Valid()
    requires |homestays| == |weeks| == |pop|
    requires forall i :: 0 <= i < |pop| ==> 1 <= homestays[i] <= 23 && IsWeekOfAllocations(weeks[i], homestays[i])
    requires forall i :: 0 <= i < |pop| ==>
               pop[i].weeklySchedule == WeeklySchedule(pop[i].homeLocation, homestays[i], weeks[i])
    ensures NotHomeAt(pop, HoursPerDay - 1) == 0
  {
    forall i | 0 <= i < |pop|
      ensures pop[i].weeklySchedule[HoursPerDay - 1] == pop[i].homeLocation
    {
      NightsAtHome(pop[i].homeLocation, homestays[i], weeks[i]);
    }
    NotHomeAtBounds(pop, HoursPerDay - 1);
  }

  /** Counts, for each hour of the first day, the persons not at home. */
  method PeopleNotHome(pop: seq<Person>) returns (counts: seq<nat>)
    requires forall i :: 0 <= i < |pop| ==> pop[i].Valid()
    ensures |counts| == HoursPerDay
    ensures forall h :: 0 <= h < HoursPerDay ==> counts[h] == NotHomeAt(pop, h)
  {
    counts := seq(HoursPerDay, _ => 0);
    for i := 0 to |pop|
      invariant |counts| == HoursPerDay
      invariant forall h :: 0 <= h < HoursPerDay ==> counts[h] == NotHomeAt(pop[..i], h)
    {
      var person := pop[i];
      assert pop[..i + 1][..i] == pop[..i];
      for h := 0 to HoursPerDay
        invariant |counts| == HoursPerDay
        invariant forall k :: 0 <= k < h ==> counts[k] == NotHomeAt(pop[..i + 1], k)
        invariant forall k :: h <= k < HoursPerDay ==> counts[k] == NotHomeAt(pop[..i], k)
      {
        if person.weeklySchedule[h] != person.homeLocation {
          counts := counts[h := counts[h] + 1];
        }
      }
    }
    assert pop[..|pop|] == pop;
  }

  // ---------------------------------------------------------------------
  // Creating a person

  /**
   * A susceptible person at home in its municipality, with the clocks of a
   * fresh infection behaviour and a weekly schedule.
   */
  method CreatePerson(gender: Gender, age: nat, d: Demographic, municipality: nat, data: MobilityTables,
                      homestayDraw: nat, samples: seq<seq<real>>, durations: DurationDraws)
    returns (p: Person, ok: bool)
    requires HasRows(data, municipality) && ValidDurationDraws(durations)
    requires |samples| == DaysPerWeek && forall k :: 0 <= k < |samples| ==> IsSample(samples[k])
    ensures fresh(p) && p.Valid()
    ensures p.demography == d && p.age == age && p.gender == gender
    ensures p.location == municipality && p.homeLocation == municipality && p.state == Susceptible
    ensures !p.hospitalized && !p.homeStay && p.situation == Home
    ensures p.infection == DrawFromDistributions(ZeroClocks, Susceptible, durations)
    ensures ok == AllDaysAllocated(samples, AwayHours(ClampHomestay(homestayDraw)))
    ensures ok ==> IsWeekOfAllocations(Allocations(samples, AwayHours(ClampHomestay(homestayDraw))),
                                       ClampHomestay(homestayDraw))
    ensures ok ==> p.weeklySchedule == WeeklySchedule(municipality, ClampHomestay(homestayDraw),
                                          Allocations(samples, AwayHours(ClampHomestay(homestayDraw))))
  {
    p := new Person(d, age, gender, municipality, municipality, Susceptible);
    p.infection := DrawFromDistributions(p.infection, Susceptible, durations);
    ok := InitializeWeeklyTravelSchedule(p, data, homestayDraw, samples);
  }

  /**
   * One hour of a person: its behaviours run in the order they were
   * attached, situation first (from where the person still is), then
   * travel, then the disease course (in the municipality just reached).
   */
  method RunBehaviors(p: Person, env: Environment.CovidEnvironment, stats: UpdateStatistics.UpdateStatisticsOp,
                      betas: Betas, phase: nat, step: nat, draws: StepDraws)
    requires p.Valid() && env.Valid() && stats.Valid()
    requires p.homeLocation < NumMunicipalities
    requires forall i :: 0 <= i < |p.weeklySchedule| ==> p.weeklySchedule[i] < NumMunicipalities
    modifies p
    ensures p.weeklySchedule == old(p.weeklySchedule) && p.Valid()
    ensures p.situation == ChangeSituationBehavior.Classify(step % HoursPerDay, old(p.homeLocation == p.location),
                                                            p.homeStay, p.demography)
    ensures p.location == TravelBehavior.Destination(p.homeStay, p.homeLocation, p.weeklySchedule, step)
    ensures p.location < NumMunicipalities
    ensures p.Epi() == Step(old(p.Epi()), HospitalizationPerDemography(p.demography),
                            InfectionBehavior.HourlyForce(p, env, stats, betas, phase, step), draws)
    ensures p.homeLocation == old(p.homeLocation) && p.homeStay == old(p.homeStay)
  {
    ChangeSituationBehavior.Run(p, step);
    TravelBehavior.Run(p, step);
    InfectionBehavior.Run(p, env, stats, betas, phase, step, draws);
  }
}
