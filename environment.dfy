/**
 * The environment of the simulation: one 11 x 11 contact (mixing) matrix per
 * mixing situation, indexed [own group][other group], loaded from five
 * files, normalised to hourly contacts and scaled by interventions.
 */
module Environment {
  import opened Numerics
  import opened ModelFacts

  type Matrix = seq<seq<real>>

  /** A demography-by-demography matrix. */
  predicate IsSquare(m: Matrix)
  {
    |m| == NumDemographies && forall r :: 0 <= r < |m| ==> |m[r]| == NumDemographies
  }

  /** Entry-wise product of two matrices of the same shape. */
  function Hadamard(m: Matrix, w: Matrix): (r: Matrix)
    requires IsSquare(m) && IsSquare(w)
    ensures IsSquare(r)
    ensures forall i, j :: 0 <= i < NumDemographies && 0 <= j < NumDemographies ==>
              r[i][j] == m[i][j] * w[i][j]
  {
    seq(NumDemographies, i requires 0 <= i < NumDemographies =>
      seq(NumDemographies, j requires 0 <= j < NumDemographies => m[i][j] * w[i][j]))
  }

  /** The matrix with every entry equal to `k`. */
  function Filled(k: real): (r: Matrix)
    ensures IsSquare(r)
    ensures forall i, j :: 0 <= i < NumDemographies && 0 <= j < NumDemographies ==> r[i][j] == k
  {
    seq(NumDemographies, i => seq(NumDemographies, j => k))
  }

  /** Every entry multiplied by the same factor. */
  function Scaled(m: Matrix, k: real): (r: Matrix)
    requires IsSquare(m)
    ensures IsSquare(r)
  {
    Hadamard(m, Filled(k))
  }

  lemma MatrixEquality(a: Matrix, b: Matrix)
    requires IsSquare(a) && IsSquare(b)
    requires forall i, j :: 0 <= i < NumDemographies && 0 <= j < NumDemographies ==> a[i][j] == b[i][j]
    ensures a == b
  {
    forall i | 0 <= i < NumDemographies
      ensures a[i] == b[i]
    {
    }
  }

  /**
   * Reductions compose: applying `w` then `v` is applying their entry-wise
   * product, the order does not matter, and the all-ones matrix changes
   * nothing.
   */
  lemma HadamardLaws(m: Matrix, w: Matrix, v: Matrix)
    requires IsSquare(m) && IsSquare(w) && IsSquare(v)
    ensures Hadamard(Hadamard(m, w), v) == Hadamard(m, Hadamard(w, v))
    ensures Hadamard(Hadamard(m, w), v) == Hadamard(Hadamard(m, v), w)
    ensures Hadamard(m, Filled(1.0)) == m
  {
    MatrixEquality(Hadamard(Hadamard(m, w), v), Hadamard(m, Hadamard(w, v)));
    MatrixEquality(Hadamard(Hadamard(m, w), v), Hadamard(Hadamard(m, v), w));
    MatrixEquality(Hadamard(m, Filled(1.0)), m);
  }

  /** Normalising a row scales its number of contacts by the same factor. */
  lemma ScaledRowSum(m: Matrix, k: real, i: nat)
    requires IsSquare(m) && i < NumDemographies
    ensures SumReal(Scaled(m, k)[i]) == SumReal(m[i]) * k
  {
    var row := m[i];
    var t := seq(|row|, j requires 0 <= j < |row| => row[j] * k);
    assert forall j :: 0 <= j < NumDemographies ==> Scaled(m, k)[i][j] == t[j];
    assert Scaled(m, k)[i] == t;
    SumRealScale(row, k);
  }

  /** The situations, in the order of the files they are loaded from. */
  const SituationsInFileOrder: seq<Situation> := [Home, Other, School, Work, WorkSchool]

  /** The files holding the contact matrices, one per situation above. */
  const MixingFiles: seq<string> := ["Mix_h.csv", "Mix_o.csv", "Mix_s.csv", "Mix_w.csv", "Mix_ws.csv"]

  /** Where a situation's matrix comes in the file order. */
  function FileIndex(s: Situation): (i: nat)
    ensures i < |SituationsInFileOrder| && SituationsInFileOrder[i] == s
  {
    match s
    case Home => 0
    case Other => 1
    case School => 2
    case Work => 3
    case WorkSchool => 4
  }

  /** Every situation has its own file: the file order lists each situation once. */
  lemma FileOrderIsComplete()
    ensures |SituationsInFileOrder| == |MixingFiles| == 5
    ensures forall i, j :: 0 <= i < j < 5 ==> SituationsInFileOrder[i] != SituationsInFileOrder[j]
    ensures forall s: Situation :: s in SituationsInFileOrder
  {
    forall s: Situation
      ensures s in SituationsInFileOrder
    {
      assert SituationsInFileOrder[FileIndex(s)] == s;
    }
  }

  /** Entry-wise product of two matrices, computed cell by cell. */
  method MultiplyEntries(m: Matrix, w: Matrix) returns (r: Matrix)
    requires IsSquare(m) && IsSquare(w)
    ensures r == Hadamard(m, w)
  {
    r := m;
    for row := 0 to NumDemographies
      invariant IsSquare(r)
      invariant forall i :: 0 <= i < row ==> r[i] == Hadamard(m, w)[i]
      invariant forall i :: row <= i < NumDemographies ==> r[i] == m[i]
    {
      for col := 0 to NumDemographies
        invariant IsSquare(r)
        invariant forall i :: 0 <= i < row ==> r[i] == Hadamard(m, w)[i]
        invariant forall i :: row < i < NumDemographies ==> r[i] == m[i]
        invariant forall j :: 0 <= j < col ==> r[row][j] == m[row][j] * w[row][j]
        invariant forall j :: col <= j < NumDemographies ==> r[row][j] == m[row][j]
      {
        r := r[row := r[row][col := r[row][col] * w[row][col]]];
      }
      assert forall j :: 0 <= j < NumDemographies ==> r[row][j] == Hadamard(m, w)[row][j];
      assert r[row] == Hadamard(m, w)[row];
    }
    MatrixEquality(r, Hadamard(m, w));
  }

  class CovidEnvironment {
    var mixingMatrices: map<Situation, Matrix>
    /**
     * Whether the contacts are finite numbers. A zero empirical average
     * makes the normalisation factor infinite or not-a-number, and with it
     * every contact; such contacts are not carried as values.
     */
    var contactsFinite: bool

    /** Every situation has a demography-by-demography matrix. */
    ghost predicate Valid()
      reads this
    {
      forall s: Situation :: s in mixingMatrices && IsSquare(mixingMatrices[s])
    }

    /**
     * Stores the five loaded matrices under their situations, then
     * normalises them by average over empirical daily contacts.
     */
    constructor (loaded: seq<Matrix>, avgInteractions: real, empiricalAvgInteractions: real)
      requires |loaded| == |SituationsInFileOrder|
      requires forall i :: 0 <= i < |loaded| ==> IsSquare(loaded[i])
      ensures Valid()
      ensures contactsFinite <==> empiricalAvgInteractions != 0.0
      ensures empiricalAvgInteractions != 0.0 ==>
                forall i :: 0 <= i < |loaded| ==>
                  mixingMatrices[SituationsInFileOrder[i]] ==
                    Scaled(loaded[i], avgInteractions / empiricalAvgInteractions)
    {
      var m: map<Situation, Matrix> := map[];
      for idx := 0 to |loaded|
        invariant forall i :: 0 <= i < idx ==> SituationsInFileOrder[i] in m
        invariant forall i :: 0 <= i < idx ==> m[SituationsInFileOrder[i]] == loaded[i]
        invariant forall s :: s in m ==> FileIndex(s) < idx
      {
        m := m[SituationsInFileOrder[idx] := loaded[idx]];
      }
      mixingMatrices := m;
      contactsFinite := true;
      new;
      forall s: Situation
        ensures s in mixingMatrices && IsSquare(mixingMatrices[s])
      {
        assert SituationsInFileOrder[FileIndex(s)] == s;
      }
      NormalizeInteractions(avgInteractions, empiricalAvgInteractions);
    }

    /**
     * Scales every contact by the ratio of average to empirical daily
     * contacts. The division is unguarded: a zero empirical average leaves
     * no finite contact.
     */
    method NormalizeInteractions(avgInteractions: real, empiricalAvgInteractions: real)
      requires Valid()
      modifies this
      ensures Valid()
      ensures contactsFinite <==> old(contactsFinite) && Divide(avgInteractions, empiricalAvgInteractions).Finite?
      ensures Divide(avgInteractions, empiricalAvgInteractions).Finite? ==>
                forall s: Situation :: mixingMatrices[s] ==
                  Scaled(old(mixingMatrices)[s], avgInteractions / empiricalAvgInteractions)
      ensures !Divide(avgInteractions, empiricalAvgInteractions).Finite? ==> mixingMatrices == old(mixingMatrices)
    {
      var factor := Divide(avgInteractions, empiricalAvgInteractions);
      if factor.Finite? {
        // The same cell-by-cell product as a reduction, with every factor equal.
        ApplyReduction(Filled(factor.value));
      } else {
        contactsFinite := false;
      }
    }

    /** The contact matrix of a situation. */
    function GetMixingMatrix(s: Situation): (m: Matrix)
      requires Valid()
      reads this
      ensures IsSquare(m)
    {
      mixingMatrices[s]
    }

    /**
     * Multiplies every matrix entry-wise by the reduction matrix. Finite
     * contacts stay finite, and infinite or not-a-number contacts stay so.
     */
    method ApplyReduction(reduction: Matrix)
      requires Valid() && IsSquare(reduction)
      modifies this`mixingMatrices
      ensures Valid() && contactsFinite == old(contactsFinite)
      ensures forall s: Situation :: mixingMatrices[s] == Hadamard(old(mixingMatrices)[s], reduction)
    {
      mixingMatrices := ReduceAll(mixingMatrices, reduction);
    }
  }

  /** Multiplies the matrix of every situation, in file order, entrywise by `reduction`. */
  method ReduceAll(matrices: map<Situation, Matrix>, reduction: Matrix) returns (r: map<Situation, Matrix>)
    requires IsSquare(reduction)
    requires forall s: Situation :: s in matrices && IsSquare(matrices[s])
    ensures forall s: Situation :: s in r && r[s] == Hadamard(matrices[s], reduction)
  {
    r := matrices;
    for idx := 0 to |SituationsInFileOrder|
      invariant forall s: Situation :: s in r && IsSquare(r[s])
      invariant forall s: Situation :: FileIndex(s) < idx ==> r[s] == Hadamard(matrices[s], reduction)
      invariant forall s: Situation :: FileIndex(s) >= idx ==> r[s] == matrices[s]
    {
      var s := SituationsInFileOrder[idx];
      var reduced := MultiplyEntries(r[s], reduction);
      r := r[s := reduced];
    }
  }
}
