/**
 * Fixed facts of the Dutch population model: the demographic groups, the
 * person states, the sizes of the model, and the per-group and per-hour
 * tables consulted by the behaviours.
 */
module ModelFacts {
  import opened Numerics

  const NumDemographies: nat := 11
  const NumMunicipalities: nat := 380
  const HoursPerDay: nat := 24
  const DaysPerWeek: nat := 7
  const TotalPopulationSize: nat := 17181084

  /** The eleven demographic groups, in the order the tables are indexed. */
  datatype Demographic =
    | PreSchoolChildren
    | PrimarySchoolChildren
    | SecondarySchoolChildren
    | Students
    | NonStudyingAdolescents
    | MiddleAgeWorking
    | MiddleAgeUnemployed
    | HigherAgeWorking
    | HigherAgeUnemployed
    | Elderly
    | Eldest
  {
    /** Position of the group in every per-group table. */
    function Index(): (i: nat)
      ensures i < NumDemographies
    {
      match this
      case PreSchoolChildren => 0
      case PrimarySchoolChildren => 1
      case SecondarySchoolChildren => 2
      case Students => 3
      case NonStudyingAdolescents => 4
      case MiddleAgeWorking => 5
      case MiddleAgeUnemployed => 6
      case HigherAgeWorking => 7
      case HigherAgeUnemployed => 8
      case Elderly => 9
      case Eldest => 10
    }
  }

  /** The group stored at a table position. */
  function DemographicAt(i: nat): (d: Demographic)
    requires i < NumDemographies
    ensures d.Index() == i
  {
    [PreSchoolChildren, PrimarySchoolChildren, SecondarySchoolChildren, Students,
     NonStudyingAdolescents, MiddleAgeWorking, MiddleAgeUnemployed, HigherAgeWorking,
     HigherAgeUnemployed, Elderly, Eldest][i]
  }

  /** Positions identify groups: the table order is a bijection. */
  lemma IndexIsInjective(d: Demographic, e: Demographic)
    ensures d.Index() == e.Index() <==> d == e
    ensures DemographicAt(d.Index()) == d
  {
  }

  datatype Gender = Male | Female

  datatype TravelerType = Frequent | Incidental

  datatype Situation = Home | Work | School | WorkSchool | Other

  datatype State = Susceptible | Exposed | Infectious | Recovered
  {
    /** Position along the one-way progression S, E, I, R. */
    function Rank(): (r: nat)
      ensures r < 4
    {
      match this
      case Susceptible => 0
      case Exposed => 1
      case Infectious => 2
      case Recovered => 3
    }
  }

  /** Who travels frequently: children at school, students and workers. */
  function DemographyToTravelType(d: Demographic): (t: TravelerType)
    ensures t == Frequent <==>
              d in {PrimarySchoolChildren, SecondarySchoolChildren, Students,
                    MiddleAgeWorking, HigherAgeWorking}
  {
    match d
    case PreSchoolChildren => Incidental
    case PrimarySchoolChildren => Frequent
    case SecondarySchoolChildren => Frequent
    case Students => Frequent
    case NonStudyingAdolescents => Incidental
    case MiddleAgeWorking => Frequent
    case MiddleAgeUnemployed => Incidental
    case HigherAgeWorking => Frequent
    case HigherAgeUnemployed => Incidental
    case Elderly => Incidental
    case Eldest => Incidental
  }

  /** The day-time mixing situation of a group inside its home municipality. */
  function DayTimeMixingHome(d: Demographic): (s: Situation)
    ensures s != Other
  {
    match d
    case PreSchoolChildren => Home
    case PrimarySchoolChildren => School
    case SecondarySchoolChildren => School
    case Students => WorkSchool
    case NonStudyingAdolescents => Work
    case MiddleAgeWorking => Work
    case MiddleAgeUnemployed => Home
    case HigherAgeWorking => Work
    case HigherAgeUnemployed => Home
    case Elderly => Home
    case Eldest => Home
  }

  /** The day-time mixing situation of a group away from home. */
  function DayTimeMixingOther(d: Demographic): (s: Situation)
    ensures s != Home
  {
    match d
    case PreSchoolChildren => Other
    case PrimarySchoolChildren => School
    case SecondarySchoolChildren => School
    case Students => WorkSchool
    case NonStudyingAdolescents => Work
    case MiddleAgeWorking => Work
    case MiddleAgeUnemployed => Other
    case HigherAgeWorking => Work
    case HigherAgeUnemployed => Other
    case Elderly => Other
    case Eldest => Other
  }

  /** Away from home a group mixes as at home, except that Home becomes Other. */
  lemma DayTimeMixingTablesAgree(d: Demographic)
    ensures DayTimeMixingOther(d) ==
              (if DayTimeMixingHome(d) == Home then Other else DayTimeMixingHome(d))
  {
  }

  /** Scaling of the staying-at-home Dirichlet weight per group. */
  function DemographyHomeStayScaling(d: Demographic): (k: real)
    ensures k == 1.0 || k == 1.5
    ensures k == 1.5 <==> DayTimeMixingHome(d) in {Home, School}
  {
    match d
    case PreSchoolChildren => 1.5
    case PrimarySchoolChildren => 1.5
    case SecondarySchoolChildren => 1.5
    case Students => 1.0
    case NonStudyingAdolescents => 1.0
    case MiddleAgeWorking => 1.0
    case MiddleAgeUnemployed => 1.5
    case HigherAgeWorking => 1.0
    case HigherAgeUnemployed => 1.5
    case Elderly => 1.5
    case Eldest => 1.5
  }

  /** Fraction of the national population in each group, by table position. */
  const NationalFractionPerDemography: seq<real> :=
    [0.049, 0.075, 0.057, 0.062, 0.036, 0.318, 0.071, 0.093, 0.064, 0.122, 0.046]

  /** The national fractions cover 99.3% of the population, not all of it. */
  lemma NationalFractionsSum()
    ensures |NationalFractionPerDemography| == NumDemographies
    ensures forall i :: 0 <= i < NumDemographies ==> 0.0 < NationalFractionPerDemography[i] < 1.0
    ensures SumReal(NationalFractionPerDemography) == 0.993
  {
    var f := NationalFractionPerDemography;
    assert f[..0] == [];
    assert SumReal(f[..1]) == 0.049 by { assert f[..1][..0] == f[..0]; }
    assert SumReal(f[..2]) == 0.124 by { assert f[..2][..1] == f[..1]; }
    assert SumReal(f[..3]) == 0.181 by { assert f[..3][..2] == f[..2]; }
    assert SumReal(f[..4]) == 0.243 by { assert f[..4][..3] == f[..3]; }
    assert SumReal(f[..5]) == 0.279 by { assert f[..5][..4] == f[..4]; }
    assert SumReal(f[..6]) == 0.597 by { assert f[..6][..5] == f[..5]; }
    assert SumReal(f[..7]) == 0.668 by { assert f[..7][..6] == f[..6]; }
    assert SumReal(f[..8]) == 0.761 by { assert f[..8][..7] == f[..7]; }
    assert SumReal(f[..9]) == 0.825 by { assert f[..9][..8] == f[..8]; }
    assert SumReal(f[..10]) == 0.947 by { assert f[..10][..9] == f[..9]; }
    assert f[..11] == f;
  }

  /** Probability that an infected member of the group needs a hospital bed. */
  function HospitalizationPerDemography(d: Demographic): (p: real)
    ensures 0.0 <= p < 0.1
    ensures p == 0.0 <==> d == PreSchoolChildren || d == PrimarySchoolChildren
  {
    match d
    case PreSchoolChildren => 0.0
    case PrimarySchoolChildren => 0.0
    case SecondarySchoolChildren => 0.0018
    case Students => 0.0006
    case NonStudyingAdolescents => 0.0006
    case MiddleAgeWorking => 0.0081
    case MiddleAgeUnemployed => 0.0081
    case HigherAgeWorking => 0.0276
    case HigherAgeUnemployed => 0.0276
    case Elderly => 0.0494
    case Eldest => 0.0641
  }

  /** The (minimum age, maximum age) of each group. */
  function AgeLimits(d: Demographic): (r: (nat, nat))
    ensures r.0 <= r.1 <= 110
  {
    match d
    case PreSchoolChildren => (0, 4)
    case PrimarySchoolChildren => (5, 11)
    case SecondarySchoolChildren => (12, 16)
    case Students => (17, 24)
    case NonStudyingAdolescents => (17, 24)
    case MiddleAgeWorking => (25, 54)
    case MiddleAgeUnemployed => (25, 54)
    case HigherAgeWorking => (55, 67)
    case HigherAgeUnemployed => (55, 67)
    case Elderly => (68, 80)
    case Eldest => (80, 110)
  }

  /** Weights of how likely a person is to be awake at each hour of the day. */
  const Awake: seq<real> :=
    [0.0, 0.0, 0.0, 0.0, 0.0, 0.0, 0.25, 0.5, 0.75, 1.0, 1.0, 1.0,
     1.0, 1.0, 1.0, 1.0, 1.0, 1.0, 1.0, 0.8, 0.6, 0.4, 0.2, 0.0]

  /** The awake weights normalised by their sum. */
  function DailySleepPattern(): (p: seq<real>)
    ensures |p| == HoursPerDay
  {
    var total := SumReal(Awake);
    seq(HoursPerDay, h requires 0 <= h < HoursPerDay => if total == 0.0 then 0.0 else Awake[h] / total)
  }

  lemma {:induction false} AwakeSum()
    ensures SumReal(Awake) == 13.5
  {
    var night: seq<real> := [0.0, 0.0, 0.0, 0.0, 0.0, 0.0];
    var morning: seq<real> := [0.25, 0.5, 0.75, 1.0, 1.0, 1.0];
    var day: seq<real> := [1.0, 1.0, 1.0, 1.0, 1.0, 1.0];
    var evening: seq<real> := [1.0, 0.8, 0.6, 0.4, 0.2, 0.0];
    assert Awake == night + morning + day + evening;
    SixSum(night);
    SixSum(morning);
    SixSum(day);
    SixSum(evening);
    SumRealConcat(night, morning);
    SumRealConcat(night + morning, day);
    SumRealConcat(night + morning + day, evening);
  }

  lemma SixSum(s: seq<real>)
    requires |s| == 6
    ensures SumReal(s) == s[0] + s[1] + s[2] + s[3] + s[4] + s[5]
  {
    SumRealPrefixStep(s, 1);
    SumRealPrefixStep(s, 2);
    SumRealPrefixStep(s, 3);
    SumRealPrefixStep(s, 4);
    SumRealPrefixStep(s, 5);
    SumRealPrefixStep(s, 6);
    assert s[..0] == [];
    assert s[..6] == s;
  }

  lemma SumRealPrefixStep(s: seq<real>, i: nat)
    requires 0 < i <= |s|
    ensures SumReal(s[..i]) == SumReal(s[..i - 1]) + s[i - 1]
  {
    assert s[..i][..i - 1] == s[..i - 1];
  }

  /**
   * The sleep pattern is a distribution over the hours of the day: it sums
   * to one, and is zero from midnight to 06:00 and in the last hour.
   */
  lemma DailySleepPatternIsDistribution()
    ensures SumReal(DailySleepPattern()) == 1.0
    ensures forall h :: 0 <= h < HoursPerDay ==> DailySleepPattern()[h] >= 0.0
    ensures forall h :: 0 <= h < 6 || h == 23 ==> DailySleepPattern()[h] == 0.0
    ensures forall h :: 9 <= h <= 18 ==> DailySleepPattern()[h] == 1.0 / 13.5
  {
    SleepPatternEntries();
    SleepPatternSumsToOne();
  }

  lemma SleepPatternSumsToOne()
    ensures SumReal(DailySleepPattern()) == 1.0
  {
    var t := seq(|Awake|, i requires 0 <= i < |Awake| => Awake[i] * (1.0 / 13.5));
    forall h | 0 <= h < HoursPerDay
      ensures DailySleepPattern()[h] == t[h]
    {
      SleepPatternEntries();
    }
    assert DailySleepPattern() == t;
    SumRealScale(Awake, 1.0 / 13.5);
    AwakeSum();
  }

  /** Each hour's entry is its awake weight over the weights' sum. */
  lemma SleepPatternEntries()
    ensures forall h :: 0 <= h < HoursPerDay ==> DailySleepPattern()[h] == Awake[h] / 13.5
  {
    AwakeSum();
  }

  /** Relative susceptibility of each group before normalisation. */
  const AbsoluteSusceptibility: seq<real> :=
    [1.0, 2.0, 3.051, 5.751, 5.751, 3.6, 3.6, 5.0, 5.0, 5.3, 7.2]

  /** Susceptibility per group, scaled so that the groups average to one. */
  function Susceptibility(): (s: seq<real>)
    ensures |s| == NumDemographies
  {
    var total := SumReal(AbsoluteSusceptibility);
    seq(NumDemographies, i requires 0 <= i < NumDemographies =>
      if total == 0.0 then 0.0 else AbsoluteSusceptibility[i] / total * NumDemographies as real)
  }

  lemma {:induction false} AbsoluteSusceptibilitySum()
    ensures SumReal(AbsoluteSusceptibility) == 47.253
  {
    var a := AbsoluteSusceptibility;
    assert a == a[..6] + a[6..];
    SumRealConcat(a[..6], a[6..]);
    SixSum(a[..6]);
    var b := a[6..];
    SumRealPrefixStep(b, 1);
    SumRealPrefixStep(b, 2);
    SumRealPrefixStep(b, 3);
    SumRealPrefixStep(b, 4);
    SumRealPrefixStep(b, 5);
    assert b[..0] == [];
    assert b[..5] == b;
  }

  /** The susceptibility of the eleven groups sums to eleven, each one positive. */
  lemma SusceptibilityAveragesToOne()
    ensures SumReal(Susceptibility()) == NumDemographies as real
    ensures forall i :: 0 <= i < NumDemographies ==> Susceptibility()[i] > 0.0
  {
    AbsoluteSusceptibilitySum();
    var k := 11.0 / 47.253;
    var t := seq(|AbsoluteSusceptibility|, i requires 0 <= i < |AbsoluteSusceptibility| =>
      AbsoluteSusceptibility[i] * k);
    assert forall i :: 0 <= i < NumDemographies ==> Susceptibility()[i] == t[i];
    assert Susceptibility() == t;
    SumRealScale(AbsoluteSusceptibility, k);
  }

  /** The string with every double-quote character removed, order kept. */
  function WithoutQuotes(s: string): string
  {
    if |s| == 0 then []
    else WithoutQuotes(s[..|s| - 1]) + (if s[|s| - 1] == '"' then [] else [s[|s| - 1]])
  }

  /** Erases the double quotes of a path string (the erase-remove idiom). */
  method RemoveQuotes(s: string) returns (r: string)
    ensures r == WithoutQuotes(s)
  {
    r := [];
    var i := 0;
    while i < |s|
      invariant 0 <= i <= |s|
      invariant r == WithoutQuotes(s[..i])
    {
      assert s[..i + 1][..i] == s[..i];
      if s[i] != '"' {
        r := r + [s[i]];
      }
      i := i + 1;
    }
    assert s[..|s|] == s;
  }

  /** Removing quotes splits over concatenation, so the order of what remains is kept. */
  lemma {:induction false} WithoutQuotesConcat(s: string, t: string)
    ensures WithoutQuotes(s + t) == WithoutQuotes(s) + WithoutQuotes(t)
    decreases |t|
  {
    if |t| == 0 {
      assert s + t == s;
    } else {
      assert (s + t)[..|s + t| - 1] == s + t[..|t| - 1];
      WithoutQuotesConcat(s, t[..|t| - 1]);
    }
  }

  /**
   * Removing quotes leaves no quote behind, keeps every other character
   * with its multiplicity, and leaves a string without quotes unchanged.
   */
  lemma {:induction false} WithoutQuotesSpec(s: string)
    ensures '"' !in WithoutQuotes(s)
    ensures multiset(WithoutQuotes(s)) == multiset(s)['"' := 0]
    ensures '"' !in s ==> WithoutQuotes(s) == s
  {
    if |s| > 0 {
      var s' := s[..|s| - 1];
      WithoutQuotesSpec(s');
      assert s == s' + [s[|s| - 1]];
      assert multiset(s) == multiset(s') + multiset{s[|s| - 1]};
    }
  }
}
