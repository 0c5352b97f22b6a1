/** Real-valued views of Kotlin `FloatArray` signals: sums, peaks and scaling.
    Every function folds from the left, in the order the source's loops visit
    the samples. */
module Samples {

  /** A Kotlin `Float` or `Double` that is either a number or NaN (the mean
      of no values). */
  datatype Float = Num(value: real) | NaN

  function Abs(x: real): (r: real)
    ensures r >= 0.0 && (r == x || r == -x)
  {
    if x < 0.0 then -x else x
  }

  function Max(a: real, b: real): (r: real)
    ensures r >= a && r >= b && (r == a || r == b)
  {
    if a >= b then a else b
  }

  /** Clamp, as Kotlin's `coerceIn(lo, hi)` on a finite value. */
  function Clamp(x: real, lo: real, hi: real): (r: real)
    requires lo <= hi
    ensures lo <= r <= hi
    ensures lo <= x <= hi ==> r == x
    ensures x < lo ==> r == lo
    ensures x > hi ==> r == hi
  {
    if x < lo then lo else if x > hi then hi else x
  }

  /** Left-to-right sum. */
  function Sum(s: seq<real>): real
  {
    if |s| == 0 then 0.0 else Sum(s[..|s| - 1]) + s[|s| - 1]
  }

  /** `a * b`. Products of two samples (or of a sample and a factor) are
      written `Mul(a, b)` so that the solver treats them as terms; their sign
      facts are the lemmas below. */
  function Mul(a: real, b: real): real
  {
    a * b
  }

  /** `x * x`, never negative and positive away from 0. */
  function Square(x: real): (r: real)
    ensures r >= 0.0
    ensures x != 0.0 ==> r > 0.0
  {
    if x > 0.0 then MulPositive(x, x); Mul(x, x)
    else if x < 0.0 then MulNegative(x, x); Mul(x, x)
    else Mul(x, x)
  }

  lemma MulPositive(a: real, b: real)
    requires a > 0.0 && b > 0.0
    ensures Mul(a, b) > 0.0 && a * b > 0.0
  {
  }

  lemma MulNegative(a: real, b: real)
    requires a < 0.0 && b < 0.0
    ensures Mul(a, b) > 0.0
  {
  }

  /** Left-to-right sum of squares. */
  function SumSquares(s: seq<real>): (r: real)
    ensures r >= 0.0
  {
    if |s| == 0 then 0.0 else SumSquares(s[..|s| - 1]) + Square(s[|s| - 1])
  }

  /** The peak: the largest absolute sample value, 0 for an empty signal. */
  function MaxAbs(s: seq<real>): (r: real)
    ensures r >= 0.0
  {
    if |s| == 0 then 0.0 else Max(MaxAbs(s[..|s| - 1]), Abs(s[|s| - 1]))
  }

  /** Every sample divided by `d`. */
  function DivideAll(s: seq<real>, d: real): (r: seq<real>)
    requires d != 0.0
    ensures |r| == |s|
    ensures forall i :: 0 <= i < |s| ==> r[i] == s[i] / d
  {
    seq(|s|, i requires 0 <= i < |s| => s[i] / d)
  }

  /** Every sample multiplied by `k`. */
  function ScaleAll(s: seq<real>, k: real): (r: seq<real>)
    ensures |r| == |s|
    ensures forall i :: 0 <= i < |s| ==> r[i] == Mul(s[i], k)
  {
    seq(|s|, i requires 0 <= i < |s| => Mul(s[i], k))
  }

  function Zeros(n: nat): (r: seq<real>)
    ensures |r| == n
    ensures forall i :: 0 <= i < n ==> r[i] == 0.0
  {
    seq(n, i => 0.0)
  }

  /** `f` computes square roots of non-negative reals (Math.sqrt, exact). */
  ghost predicate IsSqrt(f: real -> real)
  {
    forall x :: 0.0 <= x ==> 0.0 <= f(x) && Square(f(x)) == x
  }

  lemma SumAppend(s: seq<real>, x: real)
    ensures Sum(s + [x]) == Sum(s) + x
  {
    assert (s + [x])[..|s|] == s;
  }

  lemma SumSquaresAppend(s: seq<real>, x: real)
    ensures SumSquares(s + [x]) == SumSquares(s) + Square(x)
  {
    assert (s + [x])[..|s|] == s;
  }

  lemma MaxAbsAppend(s: seq<real>, x: real)
    ensures MaxAbs(s + [x]) == Max(MaxAbs(s), Abs(x))
  {
    assert (s + [x])[..|s|] == s;
  }

  /** The peak bounds every sample and is reached by one of them. */
  lemma {:induction false} MaxAbsIsPeak(s: seq<real>)
    ensures forall i :: 0 <= i < |s| ==> Abs(s[i]) <= MaxAbs(s)
    ensures |s| > 0 ==> exists i :: 0 <= i < |s| && Abs(s[i]) == MaxAbs(s)
  {
    if |s| > 0 {
      var p := s[..|s| - 1];
      MaxAbsIsPeak(p);
      assert forall i :: 0 <= i < |p| ==> s[i] == p[i];
      if |p| > 0 && MaxAbs(p) >= Abs(s[|s| - 1]) {
        var j :| 0 <= j < |p| && Abs(p[j]) == MaxAbs(p);
        assert Abs(s[j]) == MaxAbs(s);
      } else {
        assert Abs(s[|s| - 1]) == MaxAbs(s);
      }
    }
  }

  /** A value bounding every sample and reached by one of them is the peak. */
  lemma PeakCharacterisation(s: seq<real>, p: real, k: int)
    requires 0 <= k < |s| && Abs(s[k]) == p
    requires forall i :: 0 <= i < |s| ==> Abs(s[i]) <= p
    ensures MaxAbs(s) == p
  {
    MaxAbsIsPeak(s);
    var j :| 0 <= j < |s| && Abs(s[j]) == MaxAbs(s);
  }

  /** The peak is 0 exactly for silence. */
  lemma {:induction false} MaxAbsZero(s: seq<real>)
    ensures MaxAbs(s) == 0.0 <==> forall i :: 0 <= i < |s| ==> s[i] == 0.0
  {
    MaxAbsIsPeak(s);
    if forall i :: 0 <= i < |s| ==> s[i] == 0.0 {
      if |s| > 0 {
        var j :| 0 <= j < |s| && Abs(s[j]) == MaxAbs(s);
      }
    }
  }

  lemma DivideMonotone(a: real, b: real, d: real)
    requires d > 0.0
    ensures a <= b <==> a / d <= b / d
  {
    var qa, qb := a / d, b / d;
    assert qa * d == a && qb * d == b;
    assert (qb - qa) * d == b - a;
  }

  lemma AbsDivide(x: real, d: real)
    requires d > 0.0
    ensures Abs(x / d) == Abs(x) / d
  {
    DivideMonotone(x, 0.0, d);
    assert (-x) / d == -(x / d);
  }

  lemma MaxDivide(a: real, b: real, d: real)
    requires d > 0.0
    ensures Max(a / d, b / d) == Max(a, b) / d
  {
    DivideMonotone(a, b, d);
    DivideMonotone(b, a, d);
  }

  /** Dividing by a positive constant divides the peak by it. */
  lemma {:induction false} MaxAbsDivide(s: seq<real>, d: real)
    requires d > 0.0
    ensures MaxAbs(DivideAll(s, d)) == MaxAbs(s) / d
  {
    if |s| > 0 {
      var p := s[..|s| - 1];
      var q := DivideAll(s, d);
      MaxAbsDivide(p, d);
      assert q[..|s| - 1] == DivideAll(p, d);
      var x := s[|s| - 1];
      assert q[|s| - 1] == x / d;
      AbsDivide(x, d);
      MaxDivide(MaxAbs(p), Abs(x), d);
    }
  }

  lemma ScaleMonotone(a: real, b: real, k: real)
    requires k > 0.0
    ensures a <= b <==> a * k <= b * k
  {
    assert (b - a) * k == b * k - a * k;
    if a <= b {
      MulNonNegative(b - a, k);
    } else {
      MulPositive(a - b, k);
    }
  }

  lemma MulNonNegative(a: real, b: real)
    requires a >= 0.0 && b >= 0.0
    ensures a * b >= 0.0
  {
  }

  lemma AbsScale(x: real, k: real)
    requires k > 0.0
    ensures Abs(Mul(x, k)) == Mul(Abs(x), k)
  {
    ScaleMonotone(x, 0.0, k);
    assert (-x) * k == -(x * k);
  }

  lemma MaxScale(a: real, b: real, k: real)
    requires k > 0.0
    ensures Max(Mul(a, k), Mul(b, k)) == Mul(Max(a, b), k)
  {
    ScaleMonotone(a, b, k);
    ScaleMonotone(b, a, k);
  }

  lemma MaxAbsScaleStep(p: seq<real>, x: real, k: real)
    requires k > 0.0 && MaxAbs(ScaleAll(p, k)) == Mul(MaxAbs(p), k)
    ensures MaxAbs(ScaleAll(p + [x], k)) == Mul(MaxAbs(p + [x]), k)
  {
    assert ScaleAll(p + [x], k) == ScaleAll(p, k) + [Mul(x, k)];
    MaxAbsAppend(ScaleAll(p, k), Mul(x, k));
    MaxAbsAppend(p, x);
    AbsScale(x, k);
    MaxScale(MaxAbs(p), Abs(x), k);
  }

  /** Scaling by a positive factor scales the peak by it. */
  lemma {:induction false} MaxAbsScale(s: seq<real>, k: real)
    requires k > 0.0
    ensures MaxAbs(ScaleAll(s, k)) == Mul(MaxAbs(s), k)
  {
    if |s| > 0 {
      var p := s[..|s| - 1];
      MaxAbsScale(p, k);
      assert s == p + [s[|s| - 1]];
      MaxAbsScaleStep(p, s[|s| - 1], k);
    } else {
      assert MaxAbs(ScaleAll(s, k)) == 0.0;
    }
  }

  /** Scaling by a positive factor keeps every sample's sign. */
  lemma ScaleKeepsSigns(s: seq<real>, k: real)
    requires k > 0.0
    ensures forall i :: 0 <= i < |s| ==>
      (ScaleAll(s, k)[i] > 0.0 <==> s[i] > 0.0) && (ScaleAll(s, k)[i] < 0.0 <==> s[i] < 0.0)
  {
    forall i | 0 <= i < |s|
      ensures (ScaleAll(s, k)[i] > 0.0 <==> s[i] > 0.0) && (ScaleAll(s, k)[i] < 0.0 <==> s[i] < 0.0)
    {
      ScaleMonotone(s[i], 0.0, k);
      ScaleMonotone(0.0, s[i], k);
    }
  }

  lemma CancelFactor(a: real, b: real, c: real)
    requires c != 0.0 && a * c == b * c
    ensures a == b
  {
    assert (a - b) * c == 0.0;
  }

  lemma MulIdentity(x: real, q: real)
    requires q != 0.0 && Mul(x, q) == q
    ensures x == 1.0
  {
    assert (x - 1.0) * q == x * q - q;
  }

  lemma SquareProduct(y: real, d: real)
    ensures Mul(Square(y), Square(d)) == Square(y * d)
  {
  }

  lemma DivideTimes(x: real, d: real)
    requires d != 0.0
    ensures Mul(x / d, d) == x
  {
  }

  lemma ScaleStep(a: real, b: real, y: real, d: real, x: real)
    requires Mul(a, Square(d)) == b && Mul(y, d) == x
    ensures Mul(a + Square(y), Square(d)) == b + Square(x)
  {
    SquareProduct(y, d);
    assert Mul(a + Square(y), Square(d)) == Mul(a, Square(d)) + Mul(Square(y), Square(d));
  }

  lemma SumSquaresDivideStep(p: seq<real>, x: real, d: real)
    requires d != 0.0
    requires Mul(SumSquares(DivideAll(p, d)), Square(d)) == SumSquares(p)
    ensures Mul(SumSquares(DivideAll(p + [x], d)), Square(d)) == SumSquares(p + [x])
  {
    assert DivideAll(p + [x], d) == DivideAll(p, d) + [x / d];
    SumSquaresAppend(DivideAll(p, d), x / d);
    SumSquaresAppend(p, x);
    DivideTimes(x, d);
    ScaleStep(SumSquares(DivideAll(p, d)), SumSquares(p), x / d, d, x);
  }

  /** Dividing by `d` divides the sum of squares by `d*d`. */
  lemma {:induction false} SumSquaresDivide(s: seq<real>, d: real)
    requires d != 0.0
    ensures Mul(SumSquares(DivideAll(s, d)), Square(d)) == SumSquares(s)
  {
    if |s| > 0 {
      var p := s[..|s| - 1];
      SumSquaresDivide(p, d);
      assert s == p + [s[|s| - 1]];
      SumSquaresDivideStep(p, s[|s| - 1], d);
    } else {
      assert SumSquares(DivideAll(s, d)) == 0.0;
    }
  }

  /** The sum of squares is 0 exactly for silence. */
  lemma {:induction false} SumSquaresZero(s: seq<real>)
    ensures SumSquares(s) == 0.0 <==> forall i :: 0 <= i < |s| ==> s[i] == 0.0
  {
    if |s| > 0 {
      var p := s[..|s| - 1];
      SumSquaresZero(p);
      assert forall i :: 0 <= i < |p| ==> s[i] == p[i];
      var x := s[|s| - 1];
      if x != 0.0 {
        assert SumSquares(s) == SumSquares(p) + Square(x);
        assert !(forall i :: 0 <= i < |s| ==> s[i] == 0.0) by {
          assert s[|s| - 1] != 0.0;
        }
      }
    }
  }
}
