/**
 * Arithmetic shared by the whole model: sums and counts over sequences,
 * the C++ rounding functions, and the outcomes of a floating-point
 * division whose divisor may be zero.
 */
module Numerics {

  datatype Option<T> = None | Some(value: T)

  datatype Result<T, E> = Ok(value: T) | Err(error: E)

  /** A floating-point value: finite, an infinity, or not-a-number. */
  datatype Extended = Finite(value: real) | PosInf | NegInf | NaN

  /** IEEE-754 division `a / b` of two reals, with a positive zero divisor. */
  function Divide(a: real, b: real): (r: Extended)
    ensures b != 0.0 ==> r == Finite(a / b)
    ensures b == 0.0 ==> (r.Finite? <==> false)
    ensures b == 0.0 ==> (r == NaN <==> a == 0.0)
    ensures b == 0.0 ==> (r == PosInf <==> a > 0.0)
  {
    if b != 0.0 then Finite(a / b)
    else if a == 0.0 then NaN
    else if a > 0.0 then PosInf
    else NegInf
  }

  /** IEEE-754 product of a value with a real factor. */
  function Times(x: Extended, k: real): (r: Extended)
    ensures x.Finite? <==> r.Finite?
    ensures x.Finite? ==> r.value == x.value * k
    ensures x == NaN ==> r == NaN
  {
    match x
    case Finite(v) => Finite(v * k)
    case NaN => NaN
    case PosInf => if k > 0.0 then PosInf else if k < 0.0 then NegInf else NaN
    case NegInf => if k > 0.0 then NegInf else if k < 0.0 then PosInf else NaN
  }

  /** IEEE-754 product of two values. */
  function Multiply(a: Extended, b: Extended): (r: Extended)
    ensures a.Finite? && b.Finite? ==> r == Finite(a.value * b.value)
    ensures a == NaN || b == NaN ==> r == NaN
    ensures a.Finite? && !b.Finite? ==> r == Times(b, a.value)
  {
    if a == NaN || b == NaN then NaN
    else if b.Finite? then Times(a, b.value)
    else if a.Finite? then Times(b, a.value)
    else Times(a, if b == PosInf then 1.0 else -1.0)
  }

  function Min(a: int, b: int): int { if a <= b then a else b }

  function Max(a: int, b: int): int { if a >= b then a else b }

  /** `std::round` on a non-negative value: halves are rounded up. */
  function RoundNonNeg(x: real): (r: nat)
    requires x >= 0.0
    ensures x - 0.5 < r as real <= x + 0.5
  {
    (x + 0.5).Floor
  }

  /** Rounding a value no larger than a whole number gives no more than that number. */
  lemma RoundNonNegAtMost(x: real, a: nat)
    requires 0.0 <= x <= a as real
    ensures RoundNonNeg(x) <= a
  {
    var y := x + 0.5;
    assert y < (a + 1) as real;
    assert y.Floor as real <= y;
  }

  /** `std::round` on any value: halves are rounded away from zero. */
  function Round(x: real): (r: int)
    ensures x - 0.5 <= r as real <= x + 0.5
    ensures x >= 0.0 ==> r >= 0
  {
    if x >= 0.0 then RoundNonNeg(x) else 0 - RoundNonNeg(-x) as int
  }

  /** `std::ceil`. */
  function Ceil(x: real): (r: int)
    ensures x <= r as real < x + 1.0
  {
    -((-x).Floor)
  }

  /** `round(a / b)` for integers, computed without leaving the integers. */
  function RoundDiv(a: nat, b: nat): nat
    requires b > 0
  {
    (2 * a + b) / (2 * b)
  }

  lemma {:induction false} FloorOfQuotient(p: nat, q: nat)
    requires q > 0
    ensures (p as real / q as real).Floor == p / q
  {
    var k, r := p / q, p % q;
    assert p == k * q + r;
    assert p as real / q as real == k as real + r as real / q as real;
    assert 0.0 <= r as real / q as real < 1.0;
  }

  lemma QuotientUnique(z: real, p: real, q: real)
    requires q != 0.0 && z * q == p
    ensures z == p / q
  {
  }

  /** The integer formula agrees with rounding the real quotient. */
  lemma {:induction false} RoundDivIsRound(a: nat, b: nat)
    requires b > 0
    ensures RoundDiv(a, b) == RoundNonNeg(a as real / b as real)
  {
    var x := a as real / b as real;
    var y := (2 * a + b) as real / (2 * b) as real;
    assert x * b as real == a as real;
    assert y * (2 * b) as real == (2 * a + b) as real;
    assert (x + 0.5) * (2 * b) as real == (2 * a + b) as real;
    QuotientUnique(x + 0.5, (2 * a + b) as real, (2 * b) as real);
    FloorOfQuotient(2 * a + b, 2 * b);
  }

  function Sum(s: seq<nat>): nat
  {
    if |s| == 0 then 0 else Sum(s[..|s| - 1]) + s[|s| - 1]
  }

  function SumReal(s: seq<real>): real
  {
    if |s| == 0 then 0.0 else SumReal(s[..|s| - 1]) + s[|s| - 1]
  }

  /** Number of `true` entries. */
  function CountTrue(s: seq<bool>): nat
  {
    if |s| == 0 then 0 else CountTrue(s[..|s| - 1]) + (if s[|s| - 1] then 1 else 0)
  }

  lemma {:induction false} SumConcat(a: seq<nat>, b: seq<nat>)
    ensures Sum(a + b) == Sum(a) + Sum(b)
  {
    if |b| == 0 {
      assert a + b == a;
    } else {
      assert (a + b)[..|a + b| - 1] == a + b[..|b| - 1];
      SumConcat(a, b[..|b| - 1]);
    }
  }

  lemma {:induction false} SumRealConcat(a: seq<real>, b: seq<real>)
    ensures SumReal(a + b) == SumReal(a) + SumReal(b)
  {
    if |b| == 0 {
      assert a + b == a;
    } else {
      assert (a + b)[..|a + b| - 1] == a + b[..|b| - 1];
      SumRealConcat(a, b[..|b| - 1]);
    }
  }

  /** A single entry never exceeds the sum of non-negative entries. */
  lemma {:induction false} EntryAtMostSum(s: seq<nat>, i: nat)
    requires i < |s|
    ensures s[i] <= Sum(s)
  {
    if i < |s| - 1 {
      EntryAtMostSum(s[..|s| - 1], i);
    }
  }

  lemma {:induction false} SumZeros(n: nat)
    ensures Sum(seq(n, _ => 0)) == 0
  {
    if n > 0 {
      assert seq(n, _ => 0)[..n - 1] == seq(n - 1, _ => 0);
      SumZeros(n - 1);
    }
  }

  /** Entry-wise smaller sequences have smaller sums. */
  lemma {:induction false} SumMonotone(a: seq<nat>, b: seq<nat>)
    requires |a| == |b|
    requires forall i :: 0 <= i < |a| ==> a[i] <= b[i]
    ensures Sum(a) <= Sum(b)
  {
    if |a| > 0 {
      SumMonotone(a[..|a| - 1], b[..|b| - 1]);
    }
  }

  /** Summing after a point update changes the sum by the same amount. */
  lemma {:induction false} SumUpdate(s: seq<nat>, i: nat, v: nat)
    requires i < |s|
    ensures Sum(s[i := v]) == Sum(s) - s[i] + v
  {
    if i == |s| - 1 {
      assert s[i := v][..|s| - 1] == s[..|s| - 1];
    } else {
      assert s[i := v][..|s| - 1] == s[..|s| - 1][i := v];
      SumUpdate(s[..|s| - 1], i, v);
    }
  }

  /** Scaling every entry scales the sum. */
  lemma {:induction false} SumRealScale(s: seq<real>, k: real)
    ensures SumReal(seq(|s|, i requires 0 <= i < |s| => s[i] * k)) == SumReal(s) * k
  {
    var t := seq(|s|, i requires 0 <= i < |s| => s[i] * k);
    if |s| > 0 {
      var s' := s[..|s| - 1];
      var t' := seq(|s'|, i requires 0 <= i < |s'| => s'[i] * k);
      assert forall i :: 0 <= i < |t'| ==> t[..|t| - 1][i] == t'[i];
      assert t[..|t| - 1] == t';
      SumRealScale(s', k);
    }
  }

  lemma {:induction false} CountTrueAtMostLength(s: seq<bool>)
    ensures CountTrue(s) <= |s|
  {
    if |s| > 0 {
      CountTrueAtMostLength(s[..|s| - 1]);
    }
  }

  lemma {:induction false} SumRealNonNegative(s: seq<real>)
    requires forall j :: 0 <= j < |s| ==> s[j] >= 0.0
    ensures SumReal(s) >= 0.0
  {
    if |s| > 0 {
      SumRealNonNegative(s[..|s| - 1]);
    }
  }

  /** A sequence with one positive entry has a positive sum. */
  lemma PositiveEntryPositiveSum(s: seq<nat>, i: nat)
    requires i < |s| && s[i] > 0
    ensures Sum(s) > 0
  {
    EntryAtMostSum(s, i);
  }

  /** The running total of a sequence, left to right. */
  method Accumulate(s: seq<nat>) returns (total: nat)
    ensures total == Sum(s)
  {
    total := 0;
    for i := 0 to |s|
      invariant total == Sum(s[..i])
    {
      assert s[..i + 1][..i] == s[..i];
      total := total + s[i];
    }
    assert s[..|s|] == s;
  }
}
