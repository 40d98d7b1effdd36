/**
  The unscaled discrete Fourier transform, as the reference transform of the FFT tests computes it, and its inversion.
  The twiddle exp(-2*pi*i/N) is a parameter: any primitive N-th root of unity of modulus one.
 */
module Dft {
  import opened ComplexNumbers

  // ----- powers -----

  function Pow(z: Complex, e: nat): Complex {
    if e == 0 then ONE else Mul(Pow(z, e - 1), z)
  }

  lemma {:induction false} PowOne(e: nat)
    ensures Pow(ONE, e) == ONE
  {
    hide Mul;
    MulUnits(ONE);
    if e > 0 {
      PowOne(e - 1);
    }
  }

  lemma {:induction false} PowAdd(z: Complex, a: nat, b: nat)
    ensures Pow(z, a + b) == Mul(Pow(z, a), Pow(z, b))
  {
    if b == 0 {
    } else {
      PowAdd(z, a, b - 1);
      MulAssociative(Pow(z, a), Pow(z, b - 1), z);
    }
  }

  lemma {:induction false} PowProduct(y: Complex, z: Complex, e: nat)
    ensures Pow(Mul(y, z), e) == Mul(Pow(y, e), Pow(z, e))
  {
    if e == 0 {
    } else {
      PowProduct(y, z, e - 1);
      MulInterchange(Pow(y, e - 1), Pow(z, e - 1), y, z);
    }
  }

  lemma {:induction false} PowPow(z: Complex, a: nat, b: nat)
    ensures Pow(Pow(z, a), b) == Pow(z, a * b)
  {
    hide Mul;
    if b == 0 {
      assert a * b == 0;
    } else {
      PowPow(z, a, b - 1);
      assert a * b == a * (b - 1) + a;
      PowAdd(z, a * (b - 1), a);
    }
  }

  lemma {:induction false} PowConj(z: Complex, e: nat)
    ensures Pow(Conj(z), e) == Conj(Pow(z, e))
  {
    if e > 0 {
      PowConj(z, e - 1);
      ConjMul(Pow(z, e - 1), z);
    }
  }

  // ----- roots of unity -----

  /** `w` stands for exp(-2*pi*i/n): a primitive n-th root of unity on the unit circle. */
  ghost predicate IsTwiddle(w: Complex, n: nat) {
    && n >= 1
    && Pow(w, n) == ONE
    && (forall k :: 0 < k < n ==> Pow(w, k) != ONE)
    && Mul(w, Conj(w)) == ONE
  }

  lemma PowZero(z: Complex)
    ensures Pow(z, 0) == ONE
  {}

  lemma NextPower(z: Complex, e: nat, p: Complex, q: Complex)
    requires Pow(z, e) == p && Mul(p, z) == q
    ensures Pow(z, e + 1) == q
  {}

  lemma MulMinusOne(z: Complex)
    ensures Mul(z, Complex(-1.0, 0.0)) == Complex(-z.re, -z.im)
  {}

  lemma MulMinusI(z: Complex)
    ensures Mul(z, Complex(0.0, -1.0)) == Complex(z.im, -z.re)
  {}

  /** The hypothesis is met by the exact twiddles of lengths 1, 2 and 4. */
  lemma TwiddlesExist(n: nat)
    requires n == 1 || n == 2 || n == 4
    ensures exists w :: IsTwiddle(w, n)
  {
    var minusOne, minusI := Complex(-1.0, 0.0), Complex(0.0, -1.0);
    hide Mul, Pow;
    PowZero(ONE);
    PowZero(minusOne);
    PowZero(minusI);
    if n == 1 {
      MulUnits(ONE);
      NextPower(ONE, 0, ONE, ONE);
      assert IsTwiddle(ONE, n);
    } else if n == 2 {
      MulMinusOne(ONE);
      MulMinusOne(minusOne);
      NextPower(minusOne, 0, ONE, minusOne);
      NextPower(minusOne, 1, minusOne, ONE);
      assert IsTwiddle(minusOne, n);
    } else {
      MulMinusI(ONE);
      MulMinusI(minusI);
      MulMinusI(minusOne);
      MulMinusI(Complex(0.0, 1.0));
      MulCommutative(minusI, Complex(0.0, 1.0));
      NextPower(minusI, 0, ONE, minusI);
      NextPower(minusI, 1, minusI, minusOne);
      NextPower(minusI, 2, minusOne, Complex(0.0, 1.0));
      NextPower(minusI, 3, Complex(0.0, 1.0), ONE);
      assert IsTwiddle(minusI, n);
    }
  }

  lemma ConjTwiddle(w: Complex, n: nat)
    requires IsTwiddle(w, n)
    ensures IsTwiddle(Conj(w), n)
  {
    forall k: nat {
      PowConj(w, k);
    }
    assert forall z :: Conj(z) == ONE ==> z == ONE;
    MulCommutative(w, Conj(w));
  }

  lemma UnitPowers(w: Complex, e: nat)
    requires Mul(w, Conj(w)) == ONE
    ensures Mul(Pow(w, e), Pow(Conj(w), e)) == ONE
  {
    PowProduct(w, Conj(w), e);
    PowOne(e);
  }

  /** For distinct rows j and m the ratio of the twiddles is not one. */
  lemma DistinctRatio(w: Complex, n: nat, j: nat, m: nat)
    requires IsTwiddle(w, n) && m < j < n
    ensures Mul(Pow(w, j), Pow(Conj(w), m)) != ONE
  {
    var d := j - m;
    PowAdd(w, d, m);
    MulAssociative(Pow(w, d), Pow(w, m), Pow(Conj(w), m));
    UnitPowers(w, m);
  }

  lemma Ratio(w: Complex, n: nat, j: nat, m: nat)
    requires IsTwiddle(w, n) && j < n && m < n
    ensures Mul(Pow(w, j), Pow(Conj(w), m)) == ONE <==> j == m
  {
    if m < j {
      DistinctRatio(w, n, j, m);
    } else if j < m {
      ConjTwiddle(w, n);
      DistinctRatio(Conj(w), n, m, j);
      MulCommutative(Pow(w, j), Pow(Conj(w), m));
    } else {
      UnitPowers(w, j);
    }
  }

  // ----- geometric sums -----

  /** z^0 + ... + z^(n-1) */
  function Geometric(z: Complex, n: nat): Complex {
    if n == 0 then ZERO else Add(Geometric(z, n - 1), Pow(z, n - 1))
  }

  lemma MulBySub(z: Complex, p: Complex)
    ensures Mul(Sub(z, ONE), p) == Sub(Mul(p, z), p)
  {}

  lemma {:induction false} GeometricTelescopes(z: Complex, n: nat)
    ensures Mul(Sub(z, ONE), Geometric(z, n)) == Sub(Pow(z, n), ONE)
  {
    hide Mul;
    if n == 0 {
      MulUnits(Sub(z, ONE));
    } else {
      GeometricTelescopes(z, n - 1);
      var p := Pow(z, n - 1);
      MulBySub(z, p);
      MulDistributes(Sub(z, ONE), Geometric(z, n - 1), p);
    }
  }

  lemma {:induction false} GeometricOfOne(n: nat)
    ensures Geometric(ONE, n) == FromReal(n as real)
  {
    hide Mul;
    if n > 0 {
      GeometricOfOne(n - 1);
      PowOne(n - 1);
    }
  }

  /** Orthogonality of the rows of the transform. */
  lemma Orthogonality(w: Complex, n: nat, j: nat, m: nat)
    requires IsTwiddle(w, n) && j < n && m < n
    ensures Geometric(Mul(Pow(w, j), Pow(Conj(w), m)), n) == if j == m then FromReal(n as real) else ZERO
  {
    var z := Mul(Pow(w, j), Pow(Conj(w), m));
    Ratio(w, n, j, m);
    if j == m {
      GeometricOfOne(n);
    } else {
      RatioIsRoot(w, n, j, m);
      GeometricTelescopes(z, n);
      NoZeroDivisors(Sub(z, ONE), Geometric(z, n));
    }
  }

  lemma RatioIsRoot(w: Complex, n: nat, j: nat, m: nat)
    requires IsTwiddle(w, n)
    ensures Pow(Mul(Pow(w, j), Pow(Conj(w), m)), n) == ONE
  {
    ConjTwiddle(w, n);
    PowProduct(Pow(w, j), Pow(Conj(w), m), n);
    RootPower(w, n, j);
    RootPower(Conj(w), n, m);
  }

  lemma RootPower(w: Complex, n: nat, j: nat)
    requires Pow(w, n) == ONE
    ensures Pow(Pow(w, j), n) == ONE
  {
    hide Mul, Pow;
    PowOne(j);
    PowPow(w, n, j);
    PowPow(w, j, n);
    assert j * n == n * j;
  }

  // ----- the transform -----

  /** The factor of input element `j` in output bin `k`. */
  function Factor(w: Complex, j: nat, k: nat): Complex {
    Pow(w, j * k)
  }

  /** The accumulator of output bin `k` after the first `n` input elements. */
  function Bin(w: Complex, x: seq<Complex>, k: nat, n: nat): Complex
    requires n <= |x|
  {
    if n == 0 then ZERO else Add(Bin(w, x, k, n - 1), Mul(x[n - 1], Factor(w, n - 1, k)))
  }

  /** The unscaled transform with twiddle `w`; the inverse direction is the same transform with `Conj(w)`. */
  function Transform(w: Complex, x: seq<Complex>): (r: seq<Complex>)
    ensures |r| == |x|
  {
    seq(|x|, k requires 0 <= k < |x| => Bin(w, x, k, |x|))
  }

  /** The reference transform of the tests, loop for loop. */
  method ReferenceDft(w: Complex, x: seq<Complex>) returns (out: array<Complex>)
    ensures fresh(out)
    ensures out[..] == Transform(w, x)
  {
    hide Mul, Pow;
    var n := |x|;
    out := new Complex[n](_ => ZERO);
    for k := 0 to n
      invariant forall i :: 0 <= i < k ==> out[i] == Bin(w, x, i, n)
    {
      var acc := ZERO;
      for j := 0 to n
        invariant acc == Bin(w, x, k, j)
      {
        assert Factor(w, j, k) == Pow(w, j * k);
        acc := Add(acc, Mul(x[j], Pow(w, j * k)));
      }
      out[k] := acc;
    }
  }

  // ----- what determines the transform -----

  lemma {:induction false} BinOfImpulse(w: Complex, x: seq<Complex>, j: nat, k: nat, n: nat)
    requires j < |x| && n <= |x|
    requires x[j] == ONE && forall i :: 0 <= i < |x| && i != j ==> x[i] == ZERO
    ensures Bin(w, x, k, n) == if j < n then Pow(w, j * k) else ZERO
  {
    hide Mul, Pow;
    if n > 0 {
      BinOfImpulse(w, x, j, k, n - 1);
      MulUnits(Factor(w, n - 1, k));
    }
  }

  /** The spectrum of a unit impulse at `j` is the row of powers w^(j k): all ones for an impulse at 0. */
  lemma TransformOfImpulse(w: Complex, x: seq<Complex>, j: nat, k: nat)
    requires j < |x| && k < |x|
    requires x[j] == Complex(1.0, 0.0) && forall i :: 0 <= i < |x| && i != j ==> x[i] == Complex(0.0, 0.0)
    ensures Transform(w, x)[k] == Pow(w, j * k)
    ensures j == 0 ==> Transform(w, x)[k] == Complex(1.0, 0.0)
  {
    BinOfImpulse(w, x, j, k, |x|);
    PowZero(w);
    assert j == 0 ==> j * k == 0;
    hide Pow;
  }

  lemma {:induction false} BinIsLinear(w: Complex, a: Complex, x: seq<Complex>, b: Complex, y: seq<Complex>,
                                       z: seq<Complex>, k: nat, n: nat)
    requires |x| == |y| == |z| && n <= |x|
    requires forall i :: 0 <= i < |x| ==> z[i] == Add(Mul(a, x[i]), Mul(b, y[i]))
    ensures Bin(w, z, k, n) == Add(Mul(a, Bin(w, x, k, n)), Mul(b, Bin(w, y, k, n)))
  {
    hide Mul, Factor;
    if n == 0 {
      MulUnits(a);
      MulUnits(b);
    } else {
      BinIsLinear(w, a, x, b, y, z, k, n - 1);
      var f, p, q := Factor(w, n - 1, k), x[n - 1], y[n - 1];
      MulDistributes(f, Mul(a, p), Mul(b, q));
      MulAssociative(a, p, f);
      MulAssociative(b, q, f);
      MulDistributes(a, Bin(w, x, k, n - 1), Mul(p, f));
      MulDistributes(b, Bin(w, y, k, n - 1), Mul(q, f));
    }
  }

  /** The transform is linear; together with its value on impulses this determines it. */
  lemma TransformIsLinear(w: Complex, a: Complex, x: seq<Complex>, b: Complex, y: seq<Complex>, z: seq<Complex>,
                          k: nat)
    requires |x| == |y| == |z| && k < |x|
    requires forall i :: 0 <= i < |x| ==> z[i] == Add(Mul(a, x[i]), Mul(b, y[i]))
    ensures Transform(w, z)[k] == Add(Mul(a, Transform(w, x)[k]), Mul(b, Transform(w, y)[k]))
  {
    BinIsLinear(w, a, x, b, y, z, k, |x|);
    hide Mul;
  }

  // ----- inversion -----

  /**
    Bin `m` of the opposite transform, applied to the first `bins` of the spectra that the first `n` inputs produce.
   */
  function Back(w: Complex, x: seq<Complex>, m: nat, n: nat, bins: nat): Complex
    requires n <= |x|
  {
    if bins == 0 then ZERO
    else Add(Back(w, x, m, n, bins - 1), Mul(Bin(w, x, bins - 1, n), Factor(Conj(w), bins - 1, m)))
  }

  lemma {:induction false} BackIsBin(w: Complex, x: seq<Complex>, m: nat, bins: nat)
    requires bins <= |x|
    ensures Back(w, x, m, |x|, bins) == Bin(Conj(w), Transform(w, x), m, bins)
  {
    if bins > 0 {
      BackIsBin(w, x, m, bins - 1);
    }
  }

  lemma {:induction false} BackOfNothing(w: Complex, x: seq<Complex>, m: nat, bins: nat)
    ensures Back(w, x, m, 0, bins) == ZERO
  {
    hide Mul, Factor;
    if bins > 0 {
      BackOfNothing(w, x, m, bins - 1);
      MulUnits(Factor(Conj(w), bins - 1, m));
    }
  }

  /** w^(j k) * conj(w)^(k m) is the k-th power of w^j * conj(w)^m. */
  lemma TwiddleRatio(w: Complex, j: nat, k: nat, m: nat)
    ensures Mul(Factor(w, j, k), Factor(Conj(w), k, m)) == Pow(Mul(Pow(w, j), Pow(Conj(w), m)), k)
  {
    hide Mul, Pow;
    PowPow(w, j, k);
    PowPow(Conj(w), m, k);
    assert k * m == m * k;
    PowProduct(Pow(w, j), Pow(Conj(w), m), k);
  }

  /** One more input element adds its value times one geometric sum. */
  lemma {:induction false} BackStep(w: Complex, x: seq<Complex>, m: nat, n: nat, bins: nat)
    requires 0 < n <= |x|
    ensures Back(w, x, m, n, bins)
         == Add(Back(w, x, m, n - 1, bins),
                Mul(x[n - 1], Geometric(Mul(Pow(w, n - 1), Pow(Conj(w), m)), bins)))
  {
    hide Mul, Pow, Factor;
    var z := Mul(Pow(w, n - 1), Pow(Conj(w), m));
    if bins == 0 {
      MulUnits(x[n - 1]);
    } else {
      var k := bins - 1;
      BackStep(w, x, m, n, k);
      BackStepTerm(w, x[n - 1], Bin(w, x, k, n - 1), n - 1, k, m);
      AddRegroup(Back(w, x, m, n - 1, k), Mul(x[n - 1], Geometric(z, k)),
                 Mul(Bin(w, x, k, n - 1), Factor(Conj(w), k, m)), Mul(x[n - 1], Pow(z, k)));
      MulDistributes(x[n - 1], Geometric(z, k), Pow(z, k));
    }
  }

  lemma BackStepTerm(w: Complex, v: Complex, acc: Complex, j: nat, k: nat, m: nat)
    ensures Mul(Add(acc, Mul(v, Factor(w, j, k))), Factor(Conj(w), k, m))
         == Add(Mul(acc, Factor(Conj(w), k, m)), Mul(v, Pow(Mul(Pow(w, j), Pow(Conj(w), m)), k)))
  {
    hide *;
    MulDistributes(Factor(Conj(w), k, m), acc, Mul(v, Factor(w, j, k)));
    MulAssociative(v, Factor(w, j, k), Factor(Conj(w), k, m));
    TwiddleRatio(w, j, k, m);
  }

  lemma AddRegroup(a: Complex, b: Complex, c: Complex, d: Complex)
    ensures Add(Add(a, b), Add(c, d)) == Add(Add(a, c), Add(b, d))
  {}

  lemma AddTerm(acc: Complex, v: Complex, r: real)
    ensures Add(acc, Mul(v, ZERO)) == acc
    ensures Add(ZERO, Mul(v, FromReal(r))) == Scale(r, v)
  {
    MulUnits(v);
    MulReal(v, r);
    hide Mul;
  }

  lemma {:induction false} BackSum(w: Complex, x: seq<Complex>, m: nat, n: nat)
    requires IsTwiddle(w, |x|) && m < |x| && n <= |x|
    ensures Back(w, x, m, n, |x|) == if m < n then Scale(|x| as real, x[m]) else ZERO
  {
    hide *;
    if n == 0 {
      BackOfNothing(w, x, m, |x|);
    } else {
      BackSum(w, x, m, n - 1);
      BackStep(w, x, m, n, |x|);
      Orthogonality(w, |x|, n - 1, m);
      AddTerm(Back(w, x, m, n - 1, |x|), x[n - 1], |x| as real);
    }
  }

  /** The two unscaled transforms, one after the other, multiply every element by N. */
  lemma TransformInverts(w: Complex, x: seq<Complex>)
    requires IsTwiddle(w, |x|)
    ensures Transform(Conj(w), Transform(w, x)) == seq(|x|, m requires 0 <= m < |x| => Scale(|x| as real, x[m]))
  {
    forall m | 0 <= m < |x|
      ensures Transform(Conj(w), Transform(w, x))[m] == Scale(|x| as real, x[m])
    {
      BackIsBin(w, x, m, |x|);
      BackSum(w, x, m, |x|);
    }
  }
}
