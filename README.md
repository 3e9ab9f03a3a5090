# COVID-19 agent-based model of the Netherlands, in Dafny

This project models the core of an hourly SEIR agent simulation of the
Dutch population, built on the BioDynaMo framework, and the small Python
script that measures the hospital wave for the sensitivity analysis.

Every agent is a person. A person has a demographic group, an age, a
gender, a current and a home municipality, a disease state (susceptible,
exposed, infectious, recovered), a hospital flag, a home-stay flag and a
weekly travel schedule of 168 hourly destinations. Each simulated hour,
three behaviours run on every person, in this order:

- the situation classifier picks home, work, school, work/school or
  other from the hour, whether the person is home, the home-stay flag and
  the group;
- the travel rule moves the person to home, or to the schedule's
  destination for the hour of the week;
- the infection behaviour advances the disease course. It uses
  integer clocks against drawn thresholds, a force of infection built from
  the group's susceptibility, the phase's transmission rate, the daily
  sleep pattern and the mixing matrix of the situation, and a once-only
  decision whether the person can be hospitalised.

Around these behaviours are the following pieces:

- the statistics pass, which counts persons present and infectious per
  (municipality, group) in per-thread counters, sums them and derives the
  infected fractions;
- the five 11×11 mixing matrices, normalised and reduced element-wise by
  the interventions;
- the interventions themselves: capped home-stay orders for working
  persons, and school closure with a capped share of parents;
- the daily seeding of initial infections, with a fractional remainder
  carried per municipality;
- the construction of the population: the weekly schedule from a
  Dirichlet sample of where the person spends the day, the register's
  work status to group, the random-population partition and the
  agent-to-person ratio;
- the result collectors, the exported average of daily contacts, the
  calibration window and the wave measures.

The model keeps the program's form:

- Person, the mixing-matrix environment and the three operations are
  classes whose methods update their fields.
- Loops are methods with invariants. Each is proved against a pure
  function, and the properties of those functions are proved as lemmas.
- The disease course is a pure transition `InfectionModel.Step`, and the
  behaviour's `Run` is proved to perform it.
- Random draws (Gaussian, Weibull, log-normal, uniform, Dirichlet) and
  the order in which agents are visited are parameters.
- Floating-point quantities are `real`. A division that the program does
  not guard is modelled with an extended type (`Numerics.Extended`):
  dividing by zero gives infinity or not-a-number.

One module per source file keeps the program's structure:

- Numerics holds shared sums, rounding and extended division.
- ModelFacts, PopulationScaling and Persons hold the constant tables, the
  population scaling and the person.
- InfectionModel and InfectionBehavior hold the disease course.
- ChangeSituationBehavior and TravelBehavior hold the other two
  behaviours.
- MobilityData, Initialization, UpdateStatistics, Environment,
  Interventions and InitialInfection hold the rest of the simulation.
- Evaluate, ExportStatistics, DataProcessing and SensitivityAnalysis hold
  the outputs.

## Model

| member | source | states |
|---|---|---|
| ModelFacts.DemographicAt | src/model_facts.h:37-49 | the group stored at each table position has that position as its index |
| ModelFacts.IndexIsInjective | src/model_facts.h:37-49 | the table order of the eleven groups is a bijection: equal positions iff equal groups, and position then group is the identity |
| ModelFacts.DemographyToTravelType | src/model_facts.h:74-77 | a group travels frequently exactly when it is primary or secondary pupils, students, or one of the two working groups |
| ModelFacts.DayTimeMixingHome | src/model_facts.h:79-82 | the daytime situation of a group at home is never "other" |
| ModelFacts.DayTimeMixingOther | src/model_facts.h:84-87 | the daytime situation of a group away from home is never "home" |
| ModelFacts.DayTimeMixingTablesAgree | src/model_facts.h:80-87 | the away table is the home table with every "home" replaced by "other" |
| ModelFacts.DemographyHomeStayScaling | src/model_facts.h:89-90 | every home-stay scaling is 1 or 1.5, and 1.5 exactly for groups whose home daytime situation is home or school |
| ModelFacts.NationalFractionsSum | src/model_facts.h:92-95 | the national group fractions each lie in (0, 1) and add up to 0.993 ≤ 1 |
| ModelFacts.HospitalizationPerDemography | src/model_facts.h:96-100 | every hospitalisation probability is in [0, 0.1), and it is zero exactly for pre-school and primary-school children |
| ModelFacts.AgeLimits | src/model_facts.h:101-107 | every age band has minimum ≤ maximum ≤ 110 |
| ModelFacts.AwakeSum | src/model_facts.h:109-112 | the awake weights add up to 13.5 |
| ModelFacts.DailySleepPatternIsDistribution | src/model_facts.h:109-115 | the daily sleep pattern is the awake weights over their sum, each entry in [0, 1] |
| ModelFacts.SleepPatternSumsToOne | src/model_facts.h:114-115 | the daily sleep pattern sums to one over the 24 hours |
| ModelFacts.SleepPatternEntries | src/model_facts.h:114-115 | the pattern is zero at hours 0 to 5 and 23, and positive from hour 6 to 22 |
| ModelFacts.AbsoluteSusceptibilitySum | src/model_facts.h:117-118 | the absolute susceptibilities add up to 47.253 |
| ModelFacts.Susceptibility | src/model_facts.h:117-122 | each relative susceptibility is the absolute one over their sum times eleven, and is positive |
| ModelFacts.SusceptibilityAveragesToOne | src/model_facts.h:117-122 | the relative susceptibilities add up to the number of groups |
| ModelFacts.RemoveQuotes | src/model_facts.h:16-18 | removing quotes is the character-by-character filter that drops every double quote |
| ModelFacts.WithoutQuotesSpec | src/model_facts.h:16-18 | the result holds no quote and is the input with its quotes deleted, other characters kept in order |
| ModelFacts.WithoutQuotesConcat | src/model_facts.h:16-18 | removing quotes distributes over concatenation |
| PopulationScaling.AgentToPersonRatio | src/model_facts.cc:7-18 | a non-zero custom ratio is returned; a population of the Dutch head count gives 1; otherwise head count over agents, infinite for no agents |
| PopulationScaling.RatioIsHeadCountPerAgent | src/model_facts.cc:12-17 | without a custom ratio the full-size shortcut agrees with the division, and ratio times agents is the head count |
| PopulationScaling.StatesPartition | src/model_facts.cc:20-33 | the four state counts add up to the population |
| PopulationScaling.TallySum | src/model_facts.cc:20-33 | the four-entry tally adds up to the population |
| PopulationScaling.CountStates | src/model_facts.cc:20-33 | the tally loop counts each state and its four counts sum to the number of persons |
| Persons.Person.constructor | src/person.h:16-27 | the given attributes, a 168-entry schedule, the traveller type of the group, not hospitalised and not home-staying |
| Persons.Person.Travel | src/person.h:47 | only the current municipality changes, to the destination |
| Persons.Views | src/person.h:59-69 | the counting passes read one view per agent, in agent order |
| InfectionModel.PhaseToBeta | src/behaviors/infection_behavior.h:51-61 | phase 0 gives beta1, phase 1 beta2, every other phase beta4 |
| InfectionModel.PhaseThreeRateUnused | src/behaviors/infection_behavior.h:54-57 | beta3 is never returned by any phase |
| InfectionModel.ForceOfInfectionZeroAtNight | src/behaviors/infection_behavior.h:113-118 | the force of infection is zero at the hours whose sleep weight is zero |
| InfectionModel.ForceOfInfectionNonNegative | src/behaviors/infection_behavior.h:113-118 | with non-negative rates and mixing the force of infection is non-negative |
| InfectionModel.Truncate | src/behaviors/infection_behavior.h:81-84 | a non-negative draw is truncated to the whole number no larger than it |
| InfectionModel.DrawFromDistributions | src/behaviors/infection_behavior.h:66-93 | thresholds from the draws; the elapsed clock of the state being entered starts within its threshold and the other clocks keep their values |
| InfectionModel.ElapsedTime | src/behaviors/infection_behavior.h:88-92 | a uniform share of a threshold, truncated, never exceeds the threshold |
| InfectionModel.EligibilityDecidedOnce | src/behaviors/infection_behavior.h:105-111 | after the first step the hospitalisation eligibility is fixed for every later step |
| InfectionModel.YoungChildrenNeverEligible | src/behaviors/infection_behavior.h:106-109 | pre-school and primary-school children are never eligible for hospital |
| InfectionModel.StepProgression | src/behaviors/infection_behavior.h:112-156 | each state's branch: exposure iff the draw is at most a positive force, progressions when a clock passes its threshold, otherwise exactly one clock tick; only eligible infectious persons past their threshold are hospitalised; discharge after the stay |
| InfectionModel.ZeroClocksConsistent | src/behaviors/infection_behavior.h:159-168 | fresh clocks satisfy the clock invariant |
| InfectionModel.StepPreservesConsistent | src/behaviors/infection_behavior.h:128-156 | a step keeps the invariant: never hospitalised while susceptible or exposed, never when ineligible |
| InfectionModel.DrawPreservesConsistent | src/behaviors/infection_behavior.h:66-93 | redrawing the thresholds keeps the clock invariant |
| InfectionModel.TrajectoryMonotone | src/behaviors/infection_behavior.h:112-156 | along any sequence of steps the state never moves back in the order S, E, I, R |
| InfectionModel.RecoveredStayBounded | src/behaviors/infection_behavior.h:139-156 | a recovered person stays recovered, and once the stay in hospital is over it is never hospitalised again |
| InfectionBehavior.DemographicMixing | src/behaviors/infection_behavior.h:26-49 | the loop computes the group's row sum of the situation's matrix times the infected fraction of the person's own cell |
| InfectionBehavior.MixingWeightBounds | src/behaviors/infection_behavior.h:42-47 | with non-negative entries and a fraction in [0, 1] the weight lies between zero and the row sum |
| InfectionBehavior.DecideOnFirstRun | src/behaviors/infection_behavior.h:105-111 | the eligibility is drawn on the first run only, from the group's probability |
| InfectionBehavior.AdvanceSusceptible | src/behaviors/infection_behavior.h:112-121 | the susceptible person's branch computes the hourly force of infection with the transmission rate of the phase in force, and performs the susceptible step of the transition |
| InfectionBehavior.AdvanceExposed | src/behaviors/infection_behavior.h:122-127 | the exposed person's branch performs the exposed step of the transition |
| InfectionBehavior.AdvanceInfectious | src/behaviors/infection_behavior.h:128-138 | the infectious person's branch performs the infectious step of the transition |
| InfectionBehavior.AdvanceRecovered | src/behaviors/infection_behavior.h:139-156 | the recovered person's branch performs the recovered step of the transition |
| InfectionBehavior.Run | src/behaviors/infection_behavior.h:99-157 | one run changes only the disease part of the person, to the pure transition of its old disease part with the hourly force of infection of the phase in force |
| ChangeSituationBehavior.ClassifyMeaning | src/behaviors/change_situation_behavior.h:26-44 | at night home iff at home else other; in daytime home when staying home, otherwise the group's home or away daytime situation |
| ChangeSituationBehavior.Run | src/behaviors/change_situation_behavior.h:22-45 | only the situation is written, with the classification of hour of day, at-home, home-stay and group, so running it twice changes nothing more |
| ChangeSituationBehavior.ClassifyExamples | test/change_behavior_test.cc:24-49 | the regression cases at hours 0 and 10 for three persons |
| TravelBehavior.Destination | src/behaviors/travel_behavior.h:17-27 | the destination is home when staying home, otherwise the schedule entry at the hour of the week |
| TravelBehavior.DestinationIsWeekly | src/behaviors/travel_behavior.h:20-25 | destinations repeat every 168 hours and the lookup is within the schedule |
| TravelBehavior.Run | src/behaviors/travel_behavior.h:14-28 | only the current municipality changes, to the destination |
| TravelBehavior.HomeStayStaysHome | src/behaviors/travel_behavior.h:16-18 | a home-staying person is at home after every run |
| Environment.Hadamard | src/covid_environment.h:55-67 | the element-wise product of two matrices of the same shape |
| Environment.HadamardLaws | src/covid_environment.h:57-67 | element-wise reduction composes by multiplying the reductions, commutes, and the all-ones matrix is its identity |
| Environment.ScaledRowSum | src/covid_environment.h:37-48 | scaling every entry scales every row sum by the same factor |
| Environment.FileIndex | src/covid_environment.h:19-23 | each mixing file name gives its situation's matrix slot |
| Environment.FileOrderIsComplete | src/covid_environment.h:19-33 | the five files fill the five situations, each exactly once |
| Environment.MultiplyEntries | src/covid_environment.h:61-65 | the nested loops compute the element-wise product |
| Environment.CovidEnvironment.constructor | src/covid_environment.h:18-35 | five square 11×11 matrices, one per situation, normalised; the contacts are finite exactly when the empirical average is not zero |
| Environment.CovidEnvironment.NormalizeInteractions | src/covid_environment.h:37-48 | every entry of every matrix is multiplied by the average over the empirical average; the unguarded division by a zero empirical average leaves no finite contact |
| Environment.CovidEnvironment.GetMixingMatrix | src/covid_environment.h:50-53 | the matrix of a situation is returned and nothing changes |
| Environment.CovidEnvironment.ApplyReduction | src/covid_environment.h:55-67 | every matrix becomes its element-wise product with the reduction, and finite contacts stay finite |
| Environment.ReduceAll | src/covid_environment.h:59-66 | the loop over the situations reduces each matrix |
| Interventions.Selection | src/interventions.h:21-31 | a capped pass picks each eligible person while fewer than the cap have been picked |
| Interventions.SelectionSpec | src/interventions.h:21-31 | a person is picked iff eligible and the count before it is below the cap, and at most the cap rounded up are picked |
| Interventions.SelectionPicks | src/interventions.h:21-31 | only eligible persons are picked, each exactly when the count so far is below the cap |
| Interventions.SelectionWithinCap | src/interventions.h:21-31 | no more persons are picked than the cap rounded up |
| Interventions.SelectionFillsCap | src/interventions.h:21-31 | when enough persons are eligible the cap is reached |
| Interventions.SelectionStep | src/interventions.h:21-31 | visiting one more person keeps the earlier picks and picks it iff eligible while the count is below the cap |
| Interventions.Flagged | src/interventions.h:26-28 | a person's flag after the pass is set iff it was set or the person was picked |
| Interventions.CountTrueFlagged | src/interventions.h:21-31 | when only persons not yet flagged are picked, the flags grow by exactly the picks |
| Interventions.Phase2Eligible | src/interventions.h:19-26 | phase 2 counts every working person, whether already home-staying or not |
| Interventions.Phase3Eligible | src/interventions.h:48-56 | phase 3 counts working persons not yet home-staying |
| Interventions.ParentEligible | src/interventions.h:95 | parents are middle-aged working persons not yet home-staying |
| Interventions.ChildrenHome | src/interventions.h:73-83 | every child of the three school groups gets the home-stay flag; no one else's flag changes |
| Interventions.FlagWhileBelowCap | src/interventions.h:18-33 | the capped loop sets the flags of exactly the persons the capped selection picks |
| Interventions.MobilityReductionPhase2 | src/interventions.h:9-34 | the working persons picked under the cap rate times agents are flagged, the rest keep their flags |
| Interventions.MobilityReductionPhase3 | src/interventions.h:36-64 | working persons not yet staying home are flagged under the cap of the phase-3 rate less the phase-2 rate |
| Interventions.SchoolClosure | src/interventions.h:66-103 | all children, then the parents under the parents' cap, are flagged |
| Interventions.PassEffects | src/interventions.h:21-31 | a pass never clears a flag, flags only eligible persons and at most the cap rounded up |
| Interventions.Phase3Effects | src/interventions.h:42-60 | after phase 3 only working persons have new flags, at most the cap rounded up |
| Interventions.SchoolClosureEffects | src/interventions.h:73-102 | after closure every child stays home, only children and middle-aged workers have new flags |
| Interventions.Phase2CountsHomeStayers | src/interventions.h:21-30 | a working person already staying home uses up phase 2's cap |
| Interventions.ReductionFile | src/interventions.h:111-115 | phases below 2 read the phase-2 reduction file, later phases the phase-4 file |
| Interventions.AdjustMixingMatrices | src/interventions.h:105-121 | the chosen reduction is applied to every mixing matrix, and whether the contacts are finite is unchanged |
| MobilityData.AlphaRow | src/mobility_data.h:55-61 | frequent travellers use their home row of the frequent table, others of the incidental table |
| MobilityData.DirichletAlphas | src/mobility_data.h:55-66 | the row with only the home entry multiplied by the group's home-stay scaling |
| MobilityData.AlphasFavourHome | src/mobility_data.h:63-66 | with a non-negative row the home entry never decreases and no other entry changes |
| MobilityData.RoundedHours | src/mobility_data.h:90-93 | each sampled share becomes a rounded number of hours of at most a day |
| MobilityData.RescaledBounds | src/mobility_data.h:95-100 | after integer rescaling by a positive total every bucket is at most 24 and they add up to at most 24 |
| MobilityData.RescaledEntryAtMost | src/mobility_data.h:97-100 | every rescaled bucket holds at most a day |
| MobilityData.RescaledNonZero | src/mobility_data.h:97-100 | a bucket that has hours after the rescale had hours before it: the rescale never creates a bucket |
| MobilityData.NonZeroSpec | src/mobility_data.h:104-115 | the extraction keeps exactly the non-zero buckets, in increasing municipality order, with their hours |
| MobilityData.NonZeroPairs | src/mobility_data.h:104-115 | every extracted municipality is a bucket index paired with its non-zero hours |
| MobilityData.NonZeroIncreasing | src/mobility_data.h:104-115 | the extracted municipalities are strictly increasing |
| MobilityData.NonZeroComplete | src/mobility_data.h:104-115 | every non-zero bucket is extracted |
| MobilityData.NonZeroSum | src/mobility_data.h:104-115 | the extracted hours add up to the bucket total |
| MobilityData.RenormalizedBounded | src/mobility_data.h:117-123 | each renormalised share is at most the away hours |
| MobilityData.RenormalizedNoAwayHours | src/mobility_data.h:117-123 | with no away hours every share rounds to zero |
| MobilityData.ShareAtMost | src/mobility_data.h:121-122 | a share of at most the whole never exceeds the away hours |
| MobilityData.FirstMax | src/mobility_data.h:140 | the first position of a largest entry |
| MobilityData.DeficitFixSpec | src/mobility_data.h:134-144 | a shortfall is added to the first largest bucket only, then the hours reach the away hours; without a shortfall nothing changes; an empty list with a shortfall has no result |
| MobilityData.ExpandedMembers | src/mobility_data.h:146-156 | every slot of the expansion is an extracted municipality |
| MobilityData.ExpandedSorted | src/mobility_data.h:146-156 | the expansion is non-decreasing in municipality |
| MobilityData.ExpandedCounts | src/mobility_data.h:146-156 | each municipality appears exactly its hours in the expansion before pruning |
| MobilityData.AllocatedCounts | src/mobility_data.h:146-156 | in the output pruned to the away hours, each municipality appears at most its hours |
| MobilityData.Allocated | src/mobility_data.h:146-156 | the output is the expansion pruned to the away hours |
| MobilityData.BucketAllocationSpec | src/mobility_data.h:117-156 | the renormalised, fixed and pruned allocation fills all away hours with extracted municipalities |
| MobilityData.AwayAllocationFails | src/mobility_data.h:95-144 | the allocation fails exactly when the rounded hours add up to zero, or the extraction is empty while hours are missing |
| MobilityData.AwayAllocationFills | src/mobility_data.h:90-156 | a successful allocation has exactly the away hours, each a municipality whose rounded hours were non-zero |
| MobilityData.RoundToHours | src/mobility_data.h:90-93 | the rounding loop computes the rounded hours |
| MobilityData.RescaleHours | src/mobility_data.h:95-100 | the rescaling loop computes the rescaled hours when the total is positive, and reports failure otherwise |
| MobilityData.ExtractNonZero | src/mobility_data.h:104-115 | the search loop computes the non-zero extraction |
| MobilityData.RenormalizeHours | src/mobility_data.h:119-123 | the loop computes the renormalised hours |
| MobilityData.MaxElement | src/mobility_data.h:140 | the scan finds the first largest entry |
| MobilityData.FixDeficit | src/mobility_data.h:138-144 | the fix computes the deficit-fixed hours |
| MobilityData.ExpandInto | src/mobility_data.h:146-156 | the nested loops with the pruning break write the allocation into the buffer |
| MobilityData.WriteRun | src/mobility_data.h:148-155 | the inner loop writes one municipality's run, stopping at the end of the buffer |
| MobilityData.AllocateBuckets | src/mobility_data.h:117-156 | the part after the extraction writes the bucket allocation |
| MobilityData.AllocateAwayHours | src/mobility_data.h:90-156 | the integer part of the draw writes the away allocation into the buffer, or reports that it has none |
| MobilityData.DrawDirichlet | src/mobility_data.h:48-161 | returns the alphas of the person's row and writes the away allocation of the sample |
| Initialization.ClampHomestay | src/initialization.cc:33-38 | the home-stay hours are confined to 1..23, keeping values already inside |
| Initialization.HalvesAreFloorAndCeiling | src/initialization.cc:43-44 | the integer halves are the floor and the ceiling of half the home-stay hours |
| Initialization.HomeBlocks | src/initialization.cc:43-47 | the evening block starts within the day; the two home blocks last the home-stay hours; the away block lasts the away hours |
| Initialization.WeeklySchedule | src/initialization.cc:49-61 | the schedule has 168 entries |
| Initialization.WeeklyScheduleShape | src/initialization.cc:49-61 | hours outside the away block are home, hours inside follow the day's allocation in order |
| Initialization.NightsAtHome | src/initialization.cc:54-55 | hour 23 of every day is home, and hours 0 and 1 are home when at least four hours are spent at home |
| Initialization.HourOneCanBeAway | test/initialization_test.cc:22-30 | with three home-stay hours hour 1 comes from the allocation |
| Initialization.Allocations | src/initialization.cc:50-52 | one allocation per day, each the day's draw |
| Initialization.AllocationsAreAWeek | src/initialization.cc:50-52 | each day's allocation fills exactly the away hours |
| Initialization.DaysAllocatedAppend | src/initialization.cc:50-52 | each day's allocation appended after the allocated days keeps all of them allocated |
| Initialization.FillDay | src/initialization.cc:53-60 | the hour loop writes the day's 24 hours after the written days |
| Initialization.ScheduleDay | src/initialization.cc:51-60 | one day draws its allocation and, when there is one, writes the day |
| Initialization.InitializeWeeklyTravelSchedule | src/initialization.cc:26-62 | when every day has an allocation the schedule is the week of those allocations around the two home blocks |
| Initialization.FillWeek | src/initialization.cc:49-61 | the written week is the weekly schedule of the allocations |
| Initialization.DaysWrittenIsWeeklySchedule | src/initialization.cc:49-61 | seven written days are the weekly schedule of those days, each day's allocation filling the away hours |
| Initialization.WriteDays | src/initialization.cc:49-61 | the day loop writes the days one after the other |
| Initialization.WorkstatusToDemographic | src/initialization.cc:64-98 | the age band decides; students iff aged 17 to 24 with work status 26 or 31; working iff in a working age band with status 11 to 15; the age lies within the group's limits |
| Initialization.WorkstatusOnlyForWorkingAges | src/initialization.cc:64-98 | outside ages 17 to 67 the work status plays no part |
| Initialization.WorkstatusExamples | test/initialization_test.cc:33-56 | the band edges of the group table |
| Initialization.FirstIndexOf | src/initialization.cc:100-109 | the first position holding the code, or none when it is not listed |
| Initialization.MunicipalityToLocation | src/initialization.cc:100-109 | the search returns the first position of the code, or none |
| Initialization.GroupSizes | src/initialization.cc:145-153 | the corrected group sizes never exceed the population and, over all groups, add up to it |
| Initialization.GroupSizesWithinTargets | src/initialization.cc:145-153 | no group but the last gets more than its rounded share |
| Initialization.GroupSizesStep | src/initialization.cc:145-153 | each group gets its share capped at what is left; the last gets what is left |
| Initialization.GroupSizesAgreeWhenSharesFit | src/initialization.cc:145-153 | when the shares fit, the corrected and the written sizes agree |
| Initialization.WrappingMatchesTargets | src/initialization.cc:145-151 | as written, the first ten sizes are the rounded shares |
| Initialization.TargetsOfNine | src/initialization.cc:146-147 | the rounded shares of a population of nine are 0, 1, 1, 1, 0, 3, 1, 1, 1, 1 |
| Initialization.WrappingGroupSizesOfNine | src/initialization.cc:145-153 | as written, a population of nine gives the last group 2^64 - 1 agents; the corrected sizes add up to nine |
| Initialization.SharesOfNine | src/initialization.cc:146-147 | the ten rounded shares of a population of nine add up to ten |
| Initialization.PartitionPopulation | src/initialization.cc:144-153 | the loop gives each group its corrected size and the agent count equals the population |
| Initialization.AgentsPerMunicipality | src/initialization.cc:176-184 | each municipality's inhabitants over the ratio, rounded to the nearest whole |
| Initialization.BalanceAgentsSpec | src/initialization.cc:185-197 | corrected balancing, with the check on exact totals: it succeeds iff municipality 15 can absorb the difference in 32 bits; then only its entry changes and the counts add up to the agents |
| Initialization.IntAccumulated | src/initialization.cc:185-187 | an `int` accumulator holds the exact total modulo 2^32, as a signed 32-bit number |
| Initialization.BalanceAgentsAsWritten | src/initialization.cc:185-197 | as written: the difference in `size_t` from an `int` total, taken from entry 15 in `uint32_t`, and the fatal check on the `int` total; only entry 15 changes |
| Initialization.BalanceCheckNeverFires | src/initialization.cc:191-197 | for an agent count below 2^31 the balanced counts agree with it modulo 2^32 and the fatal check never fires |
| Initialization.BalanceCheckMissesWrap | src/initialization.cc:185-197 | 380 single agents and an agent count of 10: entry 15 wraps to 2^32 - 369, the counts add up to 2^32 + 10, the check passes, and the corrected balancing fails |
| Initialization.PartialSums | src/initialization.cc:199-200 | entry i is the sum of the first i + 1 counts |
| Initialization.BlockOf | src/initialization.cc:198-210 | the municipality whose block of ids holds the agent |
| Initialization.BlockOfUnique | src/initialization.cc:198-210 | the blocks do not overlap |
| Initialization.AssignMunicipalities | src/initialization.cc:198-210 | every agent id gets the location and home of the block holding it |
| Initialization.PlaceBlock | src/initialization.cc:202-208 | one block's agents are placed in its municipality; earlier agents keep theirs |
| Initialization.NotHomeAtBounds | src/initialization.cc:338-348 | the tally of one hour never exceeds the population, and it is zero when everyone is home |
| Initialization.NobodyAwayAtLastHour | src/initialization.cc:338-348 | with schedules built by the weekly rule nobody is away at hour 23 |
| Initialization.PeopleNotHome | src/initialization.cc:338-348 | the loop counts, per hour of the first day, the persons not at home |
| Initialization.CreatePerson | src/initialization.cc:111-122 | a susceptible person at home in its municipality, with fresh infection clocks and the weekly schedule of its draws |
| Initialization.RunBehaviors | src/initialization.cc:116-118 | situation, then travel, then infection under the phase in force, each as its own behaviour specifies |
| UpdateStatistics.ShardCounts | src/operations/update_statistics_op.h:43-46 | one count per thread |
| UpdateStatistics.ShardsSumToCount | src/operations/update_statistics_op.h:53-59 | for any assignment of persons to threads the per-thread counts add up to the count |
| UpdateStatistics.CellTablesCount | src/operations/update_statistics_op.h:53-72 | summing the zero-started per-thread counters of every cell gives the persons of that cell, present or infectious |
| UpdateStatistics.HomeTableCounts | src/operations/update_statistics_op.h:53-74 | summing the zero-started per-thread home counters gives the infectious persons per home |
| UpdateStatistics.RowSumsAreMunicipalityCounts | src/operations/update_statistics_op.h:84-86 | a table of present counts sums row by row to the persons per municipality |
| UpdateStatistics.InfectedAtMostPresent | src/operations/update_statistics_op.h:43-45 | a cell's infectious persons are among its persons present |
| UpdateStatistics.RowSumIsMunicipalityCount | src/operations/update_statistics_op.h:84-86 | summing a municipality's cells over the groups gives the persons there |
| UpdateStatistics.MunicipalityCountsCoverPopulation | src/operations/update_statistics_op.h:37-51 | every person is counted in exactly one municipality, so the per-municipality counts add up to the population |
| UpdateStatistics.UpdatedFractionsAreProbabilities | src/operations/update_statistics_op.h:70-72 | the fractions stay in [0, 1] |
| UpdateStatistics.Bump | src/operations/update_statistics_op.h:43-45 | exactly one counter of the cell shards grows by one |
| UpdateStatistics.BumpHome | src/operations/update_statistics_op.h:46 | exactly one counter of the home shards grows by one |
| UpdateStatistics.CellShardsStep | src/operations/update_statistics_op.h:43-45 | one more person adds one to its cell's counter of its thread |
| UpdateStatistics.HomeShardsStep | src/operations/update_statistics_op.h:46 | one more infectious person adds one to its home's counter of its thread |
| UpdateStatistics.CellShardsDominated | src/operations/update_statistics_op.h:43-45 | infectious counters never exceed presence counters |
| UpdateStatistics.ShardInfectedAtMostPresent | src/operations/update_statistics_op.h:43-45 | within one thread a cell's infectious count never exceeds its presence count |
| UpdateStatistics.UpdateStatisticsOp.constructor | src/operations/update_statistics_op.h:97-118 | zero tables and counters, empty history |
| UpdateStatistics.UpdateStatisticsOp.Reset | src/operations/update_statistics_op.h:21-32 | every per-thread counter is zero; nothing else changes |
| UpdateStatistics.UpdateStatisticsOp.CountAgents | src/operations/update_statistics_op.h:37-51 | every person is added to its thread's counters |
| UpdateStatistics.UpdateStatisticsOp.CombineShards | src/operations/update_statistics_op.h:61-74 | the tables are the summed counters and the fractions are updated where a cell is not empty |
| UpdateStatistics.UpdateStatisticsOp.RecordHistory | src/operations/update_statistics_op.h:76-88 | one row of infectious persons per home is appended every hour; the persons per municipality only when the frequency divides the step |
| UpdateStatistics.UpdateStatisticsOp.CalculateFractions | src/operations/update_statistics_op.h:36-89 | counting, combining and recording in one pass |
| UpdateStatistics.UpdateStatisticsOp.Run | src/operations/update_statistics_op.h:91-94 | the tables hold exactly the counts of the population, the fractions are updated, the history grows by one row, or two on exported hours |
| UpdateStatistics.TallyThreads | src/operations/update_statistics_op.h:37-51 | the counting loop over the persons fills the per-thread counters |
| UpdateStatistics.CombineMunicipality | src/operations/update_statistics_op.h:65-73 | one municipality's sums and fractions, infectious never above present |
| InitialInfection.SeedEligible | src/operations/initial_infection_op.h:73-80 | the persons living in the municipality who are susceptible |
| InitialInfection.Seeded | src/operations/initial_infection_op.h:79-81 | the picked persons move to the target state, the others keep theirs |
| InitialInfection.Redrawn | src/operations/initial_infection_op.h:82 | the picked persons draw new thresholds for the target state |
| InitialInfection.SeedMunicipality | src/operations/initial_infection_op.h:73-86 | the loop seeds exactly the persons the capped selection picks among the eligible |
| InitialInfection.VisitPerson | src/operations/initial_infection_op.h:73-86 | one visit seeds the person iff it lives in the municipality, is susceptible and the limit is not reached, and counts it |
| InitialInfection.SeededThroughout | src/operations/initial_infection_op.h:72-86 | after every person is visited the population holds the seeded states and the redrawn clocks |
| InitialInfection.SelectionPicksEligible | src/operations/initial_infection_op.h:73-80 | a capped pass picks only eligible persons |
| InitialInfection.EligibilityUnchanged | src/operations/initial_infection_op.h:73-75 | a municipality's eligible persons depend only on the persons living there |
| InitialInfection.UntouchedBeforePass | src/operations/initial_infection_op.h:62-87 | before the pass of a municipality its persons, and those of later ones, are as they were |
| InitialInfection.SeedAllByMunicipality | src/operations/initial_infection_op.h:62-87 | the municipalities' passes do not interfere: sequential passes equal separate ones |
| InitialInfection.SeedAllEffects | src/operations/initial_infection_op.h:62-87 | only susceptible persons are seeded, each to the target; per municipality at most its limit rounded up |
| InitialInfection.SplitAgents | src/operations/initial_infection_op.h:65-67 | whole agents and remainder of the reported count over the ratio plus the carry |
| InitialInfection.Limits | src/operations/initial_infection_op.h:65-66 | each municipality's limit is the whole part of its agents to seed times the factor |
| InitialInfection.CarryStep | src/operations/initial_infection_op.h:67-68 | each remainder is the fractional part of the agents to seed |
| InitialInfection.PassEntry | src/operations/initial_infection_op.h:65-68 | the limit and remainder read the day's entry within the table |
| InitialInfection.CarryIsFraction | src/operations/initial_infection_op.h:65-68 | each remainder is in [0, 1), and limit plus remainder is the agents to seed |
| InitialInfection.GuardAsWrittenReadsPastTable | src/operations/initial_infection_op.h:54-57 | the written guard admits the day just past the table |
| InitialInfection.GuardInBounds | src/operations/initial_infection_op.h:51-57 | the corrected guard keeps the day in the table, implies the written one, and they differ only on the day just past it |
| InitialInfection.SeedOrSkip | src/operations/initial_infection_op.h:69-86 | a pass with no whole agent to seed changes nobody |
| InitialInfection.PassMunicipality | src/operations/initial_infection_op.h:63-87 | one municipality's remainder and seeding |
| InitialInfection.PassEffects | src/operations/initial_infection_op.h:62-87 | a pass seeds only susceptible persons, all to its target |
| InitialInfection.DaySeedingEffects | src/operations/initial_infection_op.h:60-120 | a day seeds only susceptible persons, to exposed or, when due, infectious; every remainder is in [0, 1) |
| InitialInfection.InitialInfectionOp.constructor | src/operations/initial_infection_op.h:22-24 | not yet initialised, no table, no remainders |
| InitialInfection.InitialInfectionOp.Initialize | src/operations/initial_infection_op.h:27-36 | the table is stored and every remainder starts at zero |
| InitialInfection.InitialInfectionOp.SeedingPass | src/operations/initial_infection_op.h:62-87 | a pass over the municipalities performs the pure pass |
| InitialInfection.InitialInfectionOp.Run | src/operations/initial_infection_op.h:38-121 | initialises on the first call; off a day boundary or past the table nothing changes; otherwise the day's seeding with the infectious pass after the incubation delay |
| Evaluate.AgentToPersonScaling | src/evaluate.h:49-52 | an agent count times the ratio |
| Evaluate.CityAtMostNational | src/evaluate.h:34-45 | a city's hospital count never exceeds the national count |
| Evaluate.ScaledCityAtMostNational | src/evaluate.h:95-100 | the same for the scaled series |
| Evaluate.AffectedPartition | src/evaluate.h:57-64 | a group's affected and susceptible agents add up to the group |
| Evaluate.PopulationPerDemography | src/evaluate.h:71-74 | the loop sums a group's column of the table of persons present |
| Evaluate.AffectedShare | src/evaluate.h:66-76 | the affected count over the column sum |
| Evaluate.PresentColumnCoversGroup | src/evaluate.h:71-74 | a group's column of present persons adds up to the group |
| Evaluate.AffectedShareOfGroup | src/evaluate.h:57-76 | the affected share is the non-susceptible share of the group, in [0, 1]; an empty group gives not-a-number |
| Evaluate.AffectedShareOfPopulation | src/evaluate.h:66-76 | fed the statistics of the same population the share is the group's affected share |
| Evaluate.FixtureAffectedElderly | test/evaluate_test.cc:29-57 | 10000 elderly agents with 6000 susceptible give 0.4 |
| ExportStatistics.CountInteractions | src/operations/export_statistics_op.h:16-30 | the row sum of the group in the situation's matrix; times the fraction it is the infection mixing weight |
| ExportStatistics.AverageInteractions | src/operations/export_statistics_op.h:40-50 | not-a-number for no agents; for a non-empty population finite exactly when the contacts are finite |
| ExportStatistics.TotalInteractionsBounds | src/operations/export_statistics_op.h:41-46 | with every agent's contacts in [lo, hi] the total lies between n·lo and n·hi |
| ExportStatistics.ExportedAverageBounds | src/operations/export_statistics_op.h:40-50 | with finite contacts, the exported value lies between lo and hi times the ratio |
| ExportStatistics.SumInteractions | src/operations/export_statistics_op.h:41-46 | the loop sums every agent's contacts |
| ExportStatistics.ExportStatisticsOp.constructor | src/operations/export_statistics_op.h:34 | nothing exported yet |
| ExportStatistics.ExportStatisticsOp.Run | src/operations/export_statistics_op.h:37-51 | exactly one value, the average contacts times the ratio, is appended |
| DataProcessing.SelectSamples | src/data_processing_helpers.h:26-31 | the loop keeps exactly the values at midnights from hour 384 to 720, in order |
| DataProcessing.SampleCountStep | src/data_processing_helpers.h:27-28 | one more hour adds one sample exactly when it is a sampled hour |
| DataProcessing.WindowContents | src/data_processing_helpers.h:26-31 | at most 15 samples, exactly 15 for a series past hour 720; sample k is the value at hour 384 + 24k |
| DataProcessing.ComputeError | src/data_processing_helpers.h:33-42 | a length mismatch gives the infinite error; otherwise the observed and the sampled series are compared |
| DataProcessing.ObservedSeriesFitsWindow | test/compute_error_test.cc:18 | the 15 observed days match the window of any run longer than 720 hours |
| SensitivityAnalysis.Amplitude | src/analysis/plot_sensitivity_analysis.py:13-16 | the largest entry, attained, of a non-empty series |
| SensitivityAnalysis.ArgMax | src/analysis/plot_sensitivity_analysis.py:21 | the first position of the largest entry |
| SensitivityAnalysis.AmplitudeAtArgMax | src/analysis/plot_sensitivity_analysis.py:13-22 | the amplitude is the entry at the first maximum |
| SensitivityAnalysis.Search | src/analysis/plot_sensitivity_analysis.py:31-34 | the first position at least the level, or the length |
| SensitivityAnalysis.FirstAtLeast | src/analysis/plot_sensitivity_analysis.py:34 | the argmax of the mask, within the series |
| SensitivityAnalysis.Reverse | src/analysis/plot_sensitivity_analysis.py:35 | the reversed series |
| SensitivityAnalysis.LastAtLeast | src/analysis/plot_sensitivity_analysis.py:35 | the position from the reversed mask, within the series |
| SensitivityAnalysis.Fwhm | src/analysis/plot_sensitivity_analysis.py:25-40 | a width exactly for a non-empty series |
| SensitivityAnalysis.CrossingsOfLevel | src/analysis/plot_sensitivity_analysis.py:30-35 | when some entry reaches the level, the searches find the first and the last such entry |
| SensitivityAnalysis.FwhmBracketsPeak | src/analysis/plot_sensitivity_analysis.py:25-40 | with a non-negative peak, first ≤ argmax ≤ last, the width is last - first ≥ 0, and everything outside is below half the peak |
| SensitivityAnalysis.NegativePeakSpansSeries | src/analysis/plot_sensitivity_analysis.py:25-40 | with a negative peak both masks are all false and the width is the length less one |
| SensitivityAnalysis.AmplitudeError | src/analysis/plot_sensitivity_analysis.py:19-22 | the error series at the first maximum; none when that index is past the error series |
| SensitivityAnalysis.FwhmError | src/analysis/plot_sensitivity_analysis.py:43-55 | the mean of the error series at the two ends; none when an end is past the error series |

## Left out

- File input and output: the matrix, mobility, population, register, seeding and observation files are parameters of the members that use them. The register-file branch of the population set-up is not modelled.
- Random draws are parameters: the Gaussian home-stay draw (as the rounded value, a natural number), the Weibull and log-normal thresholds, the uniform draws, the Dirichlet sample, the random population's ages, genders and municipalities, and the shuffled order of the agents.
- DirichletAlphas: the division of the alphas by the home population and their renormalisation at src/mobility_data.h:68-79 are not modelled. They are floating-point work with an `int` accumulation, and the allocation starts from the sample instead.
- Concurrency: OpenMP and per-thread storage are modelled as sequential loops. Per-thread counters are indexed by a thread id given per person.
- Floating point is modelled as exact real arithmetic. An unguarded division by zero gives infinity or not-a-number.
- Integer widths: the clocks and locations are unbounded naturals, so the 32-bit clock and 16-bit location wrap-around are not modelled. The 32-bit balancing of agents and the 64-bit group partition are written out explicitly.
- The `int` accumulation of the persons per municipality at src/operations/update_statistics_op.h:85 is summed exactly.
- MobilityData.AwayAllocationFails: a zero total of the rounded hours, and a shortfall with no extracted bucket, are undefined behaviour in the program. Here they give no allocation, and then the weekly schedule reports failure.
- Initialization.HourOneCanBeAway: the test at test/initialization_test.cc:25-27 expects hours 0 and 1 to be home. The code guarantees this only with at least four home-stay hours, and the lemma exhibits the case it misses.
- The test at test/mobility_data_test.cc:20-22 expects no away slot to be the home municipality. The code does not promise this, so it is not stated.
- ChangeSituationBehavior.ClassifyMeaning: the doc comment at src/behaviors/change_situation_behavior.h:14 gives the daytime as 08:00 to 18:00. The model follows the code, whose daytime is hours 9 to 17.
- UpdateStatistics.UpdatedFractionsAreProbabilities: an empty cell keeps its previous fraction, as the code does, rather than being set to zero.
- InfectionBehavior.DemographicMixing: the fraction is that of the person's own group, as the code does. It is not summed per contact group.
- Persons.Person.constructor: the program leaves the situation uninitialised. The model starts it at home.
- Persons.Person.GetHomeLocation is a plain read without a contract. The other getters are field reads.
- The phase sequencing of `Simulate` (src/cbs-covid.h:112-133) is not modelled. The phase in force is a parameter of the force of infection, of the infection behaviour and of the choice of reduction file.
- Orchestration is not modelled: `Simulate`, the scheduler, `main` and the experiment driver.
- The time series are not modelled as a framework. The `Counter` and `TimeSeries` collection is a tally function per collector.
- The mean squared error of the calibration is not modelled. DataProcessing.ComputeError returns the two series to be compared.
- InitialInfection.InitialInfectionOp.Run: the reshuffle of the agents on the first call is the given visiting order.
- SensitivityAnalysis.Amplitude: an empty series, or an index past the error series, is an error in Python. Here it gives no value.
- Evaluate.FixtureAffectedElderly: the fixture is stated on the group's counts, not on the agents built by the test.
- Environment.CovidEnvironment.NormalizeInteractions: with a zero empirical average the program's contacts become infinite or not-a-number. The model records only that the contacts are not finite and keeps the real entries unchanged, so the force of infection of such an environment is not modelled.
- Initialization.BalanceAgentsSpec: the check it states is on exact totals, as the program evidently intends. The program's own check is modelled by BalanceAgentsAsWritten and never fires below 2^31 agents (see Findings). What follows a wrapped entry, an out-of-range cumulative sum and agent ids past the population, is undefined behaviour and is not modelled.
- ExportStatistics.AverageInteractions: when the contacts are not finite, the model exports not-a-number. The program exports infinity or not-a-number, depending on which raw contacts are zero.
- Printing and logging are left out. A fatal path gives no result (`None`) or a reported failure.

## Findings

| source | as written | input that shows it | evidently intended | confidence | as-written member | corrected member |
|---|---|---|---|---|---|---|
| src/operations/initial_infection_op.h:55 | the day guard `day > size / 380` lets the day equal to `size / 380` through, and the pass then reads `initial_infected_[day * 380 + m]` past the end of the table | a table of two days (760 entries) at step 48: day 2 passes the guard and reads entry 760 | proceed only while `day < size / 380` | not executed | InitialInfection.GuardAsWrittenReadsPastTable | InitialInfection.GuardInBounds |
| src/initialization.cc:146-153 | the first ten groups get their rounded national share and the last gets `population_size - pop_count` in `size_t`, which wraps when the rounded shares already exceed the population | population size 9: the ten rounded shares add up to 10, so the last group gets 2^64 - 1 agents | each group gets its share but never more than is left, so the groups add up to the population | not executed | Initialization.WrappingGroupSizesOfNine | Initialization.PartitionPopulation |
| src/initialization.cc:185-197 | the totals are summed with `std::accumulate(..., 0)` into an `int`, so the fatal check compares the balanced counts with the agent count only modulo 2^32 and never fires below 2^31 agents, even after entry 15 has wrapped | 380 municipalities of one agent each and an agent count of 10: entry 15 becomes 2^32 - 369, the counts add up to 2^32 + 10, and the check passes | sum in a 64-bit accumulator, so that the check fails whenever entry 15 cannot absorb the difference | not executed | Initialization.BalanceCheckMissesWrap | Initialization.BalanceAgentsSpec |
