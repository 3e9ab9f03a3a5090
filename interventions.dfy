/**
 * The interventions of the lockdown phases: sending part of the working
 * population to work from home, closing the schools (children and some
 * of their parents stay home), and scaling the contact matrices by the
 * reduction of a phase. Each person pass visits the persons in a given
 * order, the shuffled agent order, which is a parameter.
 */
module Interventions {
  import opened Numerics
  import opened ModelFacts
  import opened Persons
  import opened Environment

  // ---------------------------------------------------------------------
  // Capped selection

  /**
   * Who is picked by a pass that visits the persons in order and picks an
   * eligible person while fewer than `cap` have been picked so far.
   */
  function Selection(eligible: seq<bool>, cap: real): (sel: seq<bool>)
    ensures |sel| == |eligible|
  {
    if |eligible| == 0 then []
    else
      var prev := Selection(eligible[..|eligible| - 1], cap);
      prev + [eligible[|eligible| - 1] && (CountTrue(prev) as real) < cap]
  }

  /** The pass on a prefix of the order is the prefix of the pass. */
  lemma {:induction false} SelectionPrefix(eligible: seq<bool>, cap: real, n: nat)
    requires n <= |eligible|
    ensures Selection(eligible[..n], cap) == Selection(eligible, cap)[..n]
  {
    if n < |eligible| {
      var m := |eligible| - 1;
      assert eligible[..m][..n] == eligible[..n];
      SelectionPrefix(eligible[..m], cap, n);
      assert Selection(eligible, cap)[..m] == Selection(eligible[..m], cap);
    } else {
      assert eligible[..n] == eligible;
    }
  }

  /**
   * A person is picked exactly when eligible while the count of those
   * picked before it is below the cap; only eligible persons are picked,
   * and no more than the cap rounded up.
   */
  lemma SelectionSpec(eligible: seq<bool>, cap: real)
    ensures forall i :: 0 <= i < |eligible| ==>
              (Selection(eligible, cap)[i] <==>
                 eligible[i] && (CountTrue(Selection(eligible, cap)[..i]) as real) < cap)
    ensures CountTrue(Selection(eligible, cap)) <= Max(0, Ceil(cap))
  {
    SelectionPicks(eligible, cap);
    SelectionWithinCap(eligible, cap);
  }

  /** Who is picked: an eligible person reached while the count so far is below the cap. */
  lemma {:induction false} SelectionPicks(eligible: seq<bool>, cap: real)
    ensures forall i :: 0 <= i < |eligible| ==>
              (Selection(eligible, cap)[i] <==>
                 eligible[i] && (CountTrue(Selection(eligible, cap)[..i]) as real) < cap)
  {
    var sel := Selection(eligible, cap);
    if |eligible| > 0 {
      var m := |eligible| - 1;
      var prev := Selection(eligible[..m], cap);
      SelectionPicks(eligible[..m], cap);
      assert sel[..m] == prev;
      forall i | 0 <= i < m
        ensures sel[i] <==> eligible[i] && (CountTrue(sel[..i]) as real) < cap
      {
        assert sel[..i] == prev[..i];
      }
    }
  }

  /** No more are picked than the cap rounded up. */
  lemma {:induction false} SelectionWithinCap(eligible: seq<bool>, cap: real)
    ensures CountTrue(Selection(eligible, cap)) <= Max(0, Ceil(cap))
  {
    var sel := Selection(eligible, cap);
    if |eligible| > 0 {
      var m := |eligible| - 1;
      var prev := Selection(eligible[..m], cap);
      SelectionWithinCap(eligible[..m], cap);
      assert sel[..m] == prev;
      if sel[m] {
        assert (CountTrue(prev) as real) < cap;
        var c := Ceil(cap);
        assert cap <= c as real;
      }
    }
  }

  /**
   * The pass stops early only because the cap is reached: either every
   * eligible person is picked, or at least `cap` persons are.
   */
  lemma {:induction false} SelectionFillsCap(eligible: seq<bool>, cap: real)
    ensures (forall i :: 0 <= i < |eligible| && eligible[i] ==> Selection(eligible, cap)[i]) ||
            (CountTrue(Selection(eligible, cap)) as real) >= cap
  {
    if |eligible| > 0 {
      var m := |eligible| - 1;
      var prev := Selection(eligible[..m], cap);
      SelectionFillsCap(eligible[..m], cap);
      var sel := Selection(eligible, cap);
      assert sel[..m] == prev;
      if (CountTrue(prev) as real) >= cap {
        assert sel == prev + [sel[m]];
      }
    }
  }

  /** One more person visited: earlier picks stay, and the new one is picked while below the cap. */
  lemma SelectionStep(eligible: seq<bool>, cap: real, i: nat)
    requires i < |eligible|
    ensures var prev := Selection(eligible[..i], cap);
            var next := Selection(eligible[..i + 1], cap);
            (forall j :: 0 <= j < i ==> next[j] == prev[j]) &&
            (next[i] <==> eligible[i] && (CountTrue(prev) as real) < cap) &&
            CountTrue(next) == CountTrue(prev) + (if next[i] then 1 else 0)
  {
    assert eligible[..i + 1][..i] == eligible[..i];
    var prev := Selection(eligible[..i], cap);
    assert Selection(eligible[..i + 1], cap) == prev + [eligible[i] && (CountTrue(prev) as real) < cap];
  }

  /** The home-stay flags with the picked persons added. */
  function Flagged(flags: seq<bool>, sel: seq<bool>): (r: seq<bool>)
    requires |flags| == |sel|
    ensures |r| == |flags|
    ensures forall i :: 0 <= i < |flags| ==> (r[i] <==> flags[i] || sel[i])
  {
    seq(|flags|, i requires 0 <= i < |flags| => flags[i] || sel[i])
  }

  // ---------------------------------------------------------------------
  // Who is eligible

  predicate IsWorkingClass(d: Demographic)
  {
    d == HigherAgeWorking || d == MiddleAgeWorking
  }

  predicate IsChild(d: Demographic)
  {
    d == PreSchoolChildren || d == PrimarySchoolChildren || d == SecondarySchoolChildren
  }

  /** The groups of the persons, in visiting order. */
  function Demographies(order: seq<Person>): (ds: seq<Demographic>)
    ensures |ds| == |order| && forall i :: 0 <= i < |order| ==> ds[i] == order[i].demography
  {
    seq(|order|, i requires 0 <= i < |order| => order[i].demography)
  }

  /** The home-stay flags of the persons, in visiting order. */
  function HomeStays(order: seq<Person>): (fs: seq<bool>)
    reads set p | p in order
    ensures |fs| == |order| && forall i :: 0 <= i < |order| ==> fs[i] == order[i].homeStay
  {
    if |order| == 0 then [] else HomeStays(order[..|order| - 1]) + [order[|order| - 1].homeStay]
  }

  /** Phase 2 counts every working person it reaches, home-staying or not. */
  function Phase2Eligible(ds: seq<Demographic>): (e: seq<bool>)
    ensures |e| == |ds| && forall i :: 0 <= i < |ds| ==> (e[i] <==> IsWorkingClass(ds[i]))
  {
    seq(|ds|, i requires 0 <= i < |ds| => IsWorkingClass(ds[i]))
  }

  /** Phase 3 skips working persons who already stay home. */
  function Phase3Eligible(ds: seq<Demographic>, flags: seq<bool>): (e: seq<bool>)
    requires |flags| == |ds|
    ensures |e| == |ds| && forall i :: 0 <= i < |ds| ==> (e[i] <==> IsWorkingClass(ds[i]) && !flags[i])
  {
    seq(|ds|, i requires 0 <= i < |ds| => IsWorkingClass(ds[i]) && !flags[i])
  }

  /** The parents that may stay home with their children: working middle-aged persons not yet home. */
  function ParentEligible(ds: seq<Demographic>, flags: seq<bool>): (e: seq<bool>)
    requires |flags| == |ds|
    ensures |e| == |ds| && forall i :: 0 <= i < |ds| ==> (e[i] <==> ds[i] == MiddleAgeWorking && !flags[i])
  {
    seq(|ds|, i requires 0 <= i < |ds| => ds[i] == MiddleAgeWorking && !flags[i])
  }

  /** The flags after every child has been sent home. */
  function ChildrenHome(ds: seq<Demographic>, flags: seq<bool>): (r: seq<bool>)
    requires |flags| == |ds|
    ensures |r| == |ds|
    ensures forall i :: 0 <= i < |ds| ==> (r[i] <==> flags[i] || IsChild(ds[i]))
  {
    seq(|ds|, i requires 0 <= i < |ds| => flags[i] || IsChild(ds[i]))
  }

  // ---------------------------------------------------------------------
  // The passes

  /**
   * Visits the persons in order and sets the home-stay flag of each
   * eligible one while fewer than `cap` have been counted.
   */
  method FlagWhileBelowCap(order: seq<Person>, eligible: seq<bool>, cap: real)
    requires Distinct(order) && |eligible| == |order|
    modifies (set p | p in order)`homeStay
    ensures HomeStays(order) == Flagged(old(HomeStays(order)), Selection(eligible, cap))
  {
    ghost var before := HomeStays(order);
    ghost var sel := Selection(eligible, cap);
    SelectionPicks(eligible, cap);
    var counter: nat := 0;
    for i := 0 to |order|
      invariant counter == CountTrue(sel[..i])
      invariant forall j :: 0 <= j < i ==> order[j].homeStay == (before[j] || sel[j])
      invariant forall j :: i <= j < |order| ==> order[j].homeStay == before[j]
    {
      CountTruePrefixStep(sel, i);
      if (counter as real) < cap {
        var person := order[i];
        if eligible[i] {
          person.homeStay := true;
          counter := counter + 1;
        }
      }
    }
  }

  /** Counting one more entry of a prefix adds one exactly when that entry is true. */
  lemma CountTruePrefixStep(s: seq<bool>, i: nat)
    requires i < |s|
    ensures CountTrue(s[..i + 1]) == CountTrue(s[..i]) + (if s[i] then 1 else 0)
  {
    assert s[..i + 1][..i] == s[..i];
  }

  /**
   * Phase 2: working persons are sent home in visiting order while fewer
   * than the phase-2 rate times the number of agents have been counted.
   */
  method MobilityReductionPhase2(order: seq<Person>, phase2Rate: real)
    requires Distinct(order)
    modifies (set p | p in order)`homeStay
    ensures HomeStays(order) == Flagged(old(HomeStays(order)),
                                        Selection(Phase2Eligible(Demographies(order)), phase2Rate * |order| as real))
  {
    var numHomeworkers := phase2Rate * |order| as real;
    FlagWhileBelowCap(order, Phase2Eligible(Demographies(order)), numHomeworkers);
  }

  /**
   * Phase 3: working persons not yet at home are sent home while fewer
   * than the difference of the phase-3 and phase-2 shares have been counted.
   */
  method MobilityReductionPhase3(order: seq<Person>, phase2Rate: real, phase3Rate: real)
    requires Distinct(order)
    modifies (set p | p in order)`homeStay
    ensures HomeStays(order) ==
              Flagged(old(HomeStays(order)),
                      Selection(Phase3Eligible(Demographies(order), old(HomeStays(order))),
                                phase3Rate * |order| as real - phase2Rate * |order| as real))
  {
    var numHomeworkers := phase3Rate * |order| as real - phase2Rate * |order| as real;
    FlagWhileBelowCap(order, Phase3Eligible(Demographies(order), HomeStays(order)), numHomeworkers);
  }

  /**
   * Closing the schools: every child is sent home, then, in visiting
   * order, working middle-aged persons not yet home are sent home while
   * fewer than the parents' rate times the number of agents have been.
   */
  method SchoolClosure(order: seq<Person>, parentsRate: real)
    requires Distinct(order)
    modifies (set p | p in order)`homeStay
    ensures HomeStays(order) ==
              Flagged(ChildrenHome(Demographies(order), old(HomeStays(order))),
                      Selection(ParentEligible(Demographies(order), ChildrenHome(Demographies(order), old(HomeStays(order)))),
                                parentsRate * |order| as real))
  {
    ghost var before := HomeStays(order);
    for i := 0 to |order|
      invariant forall j :: 0 <= j < i ==> order[j].homeStay == (before[j] || IsChild(order[j].demography))
      invariant forall j :: i <= j < |order| ==> order[j].homeStay == before[j]
    {
      var person := order[i];
      if IsChild(person.demography) {
        person.homeStay := true;
      }
    }
    assert HomeStays(order) == ChildrenHome(Demographies(order), before);
    var homeschoolingParents := parentsRate * |order| as real;
    FlagWhileBelowCap(order, ParentEligible(Demographies(order), HomeStays(order)), homeschoolingParents);
  }

  // ---------------------------------------------------------------------
  // What the passes promise

  /**
   * A capped pass never clears a flag, leaves everyone who is not eligible
   * as they were, and adds at most the cap rounded up.
   */
  lemma PassEffects(flags: seq<bool>, eligible: seq<bool>, cap: real)
    requires |flags| == |eligible|
    ensures forall i :: 0 <= i < |flags| && flags[i] ==> Flagged(flags, Selection(eligible, cap))[i]
    ensures forall i :: 0 <= i < |flags| && !eligible[i] ==> Flagged(flags, Selection(eligible, cap))[i] == flags[i]
    ensures CountTrue(Selection(eligible, cap)) <= Max(0, Ceil(cap))
  {
    SelectionSpec(eligible, cap);
  }

  lemma {:induction false} CountTrueFlagged(flags: seq<bool>, sel: seq<bool>)
    requires |flags| == |sel|
    requires forall i :: 0 <= i < |sel| && sel[i] ==> !flags[i]
    ensures CountTrue(Flagged(flags, sel)) == CountTrue(flags) + CountTrue(sel)
  {
    if |flags| > 0 {
      var m := |flags| - 1;
      CountTrueFlagged(flags[..m], sel[..m]);
      assert Flagged(flags, sel)[..m] == Flagged(flags[..m], sel[..m]);
    }
  }

  /**
   * Phase 3 sends home only working persons, exactly as many as it counts,
   * and at most the difference of the two phases' shares rounded up.
   */
  lemma Phase3Effects(ds: seq<Demographic>, flags: seq<bool>, cap: real)
    requires |ds| == |flags|
    ensures var r := Flagged(flags, Selection(Phase3Eligible(ds, flags), cap));
            (forall i :: 0 <= i < |ds| && r[i] != flags[i] ==> IsWorkingClass(ds[i]) && !flags[i]) &&
            CountTrue(r) == CountTrue(flags) + CountTrue(Selection(Phase3Eligible(ds, flags), cap)) &&
            CountTrue(r) <= CountTrue(flags) + Max(0, Ceil(cap))
  {
    var e := Phase3Eligible(ds, flags);
    SelectionSpec(e, cap);
    CountTrueFlagged(flags, Selection(e, cap));
  }

  /**
   * Closing the schools sends every child home and, besides them, only
   * working middle-aged parents not yet home, no more than the parents'
   * share rounded up; no flag is cleared.
   */
  lemma SchoolClosureEffects(ds: seq<Demographic>, flags: seq<bool>, cap: real)
    requires |ds| == |flags|
    ensures var c := ChildrenHome(ds, flags);
            var r := Flagged(c, Selection(ParentEligible(ds, c), cap));
            (forall i :: 0 <= i < |ds| ==> (flags[i] ==> r[i]) && (IsChild(ds[i]) ==> r[i])) &&
            (forall i :: 0 <= i < |ds| && r[i] != c[i] ==> ds[i] == MiddleAgeWorking && !flags[i]) &&
            (forall i :: 0 <= i < |ds| && !IsChild(ds[i]) && ds[i] != MiddleAgeWorking ==> r[i] == flags[i]) &&
            CountTrue(r) == CountTrue(c) + CountTrue(Selection(ParentEligible(ds, c), cap)) &&
            CountTrue(r) <= CountTrue(c) + Max(0, Ceil(cap))
  {
    var c := ChildrenHome(ds, flags);
    var e := ParentEligible(ds, c);
    SelectionSpec(e, cap);
    CountTrueFlagged(c, Selection(e, cap));
  }

  /**
   * Phase 2 counts a working person who already stays home, so that person
   * can use up the cap: of two working persons of whom the first is home,
   * a cap of one leaves the second at work.
   */
  lemma Phase2CountsHomeStayers()
    ensures var ds := [MiddleAgeWorking, MiddleAgeWorking];
            var flags := [true, false];
            Flagged(flags, Selection(Phase2Eligible(ds), 1.0)) == flags
  {
    var ds := [MiddleAgeWorking, MiddleAgeWorking];
    var e := Phase2Eligible(ds);
    assert e == [true, true];
    assert e[..1] == [true] && [true][..0] == [];
    assert Selection([true], 1.0) == [true];
    assert Selection(e, 1.0) == [true, false];
  }

  // ---------------------------------------------------------------------
  // Contact reduction

  /** The reduction file of a phase: the phase-2 matrix before phase 2, the phase-4 matrix after. */
  function ReductionFile(phase: nat): (f: string)
    ensures phase < 2 ==> f == "mixmat_phase2.csv"
    ensures phase >= 2 ==> f == "mixmat_phase4.csv"
  {
    if phase < 2 then "mixmat_phase2.csv" else "mixmat_phase4.csv"
  }

  /** Scales every contact matrix by the reduction matrix loaded for the phase. */
  method AdjustMixingMatrices(env: CovidEnvironment, phase: nat, reductions: map<string, Matrix>)
    requires env.Valid() && ReductionFile(phase) in reductions && IsSquare(reductions[ReductionFile(phase)])
    modifies env`mixingMatrices
    ensures env.Valid() && env.contactsFinite == old(env.contactsFinite)
    ensures forall s: Situation :: env.mixingMatrices[s] ==
              Hadamard(old(env.mixingMatrices)[s], reductions[ReductionFile(phase)])
  {
    var fullPath := ReductionFile(phase);
    env.ApplyReduction(reductions[fullPath]);
  }
}
