/**
  The normalized public FFT contract: the forward transforms are unscaled, the inverse ones carry 1/N, a real
  transform of length N has N/2+1 bins, and the imaginary parts of the DC and Nyquist bins are ignored on input.
 */
module FftContract {
  import opened ComplexNumbers
  import opened Dft

  // ----- complex transforms -----

  function ScaleAll(r: real, x: seq<Complex>): (y: seq<Complex>)
    ensures |y| == |x|
  {
    seq(|x|, i requires 0 <= i < |x| => Scale(r, x[i]))
  }

  function Forward(w: Complex, x: seq<Complex>): (y: seq<Complex>)
    ensures |y| == |x|
  {
    Transform(w, x)
  }

  function Inverse(w: Complex, x: seq<Complex>): (y: seq<Complex>)
    requires x != []
    ensures |y| == |x|
  {
    ScaleAll(1.0 / |x| as real, Transform(Conj(w), x))
  }

  /** What a complex plan of either direction must make of one row. */
  function ComplexTransform(w: Complex, inverse: bool, x: seq<Complex>): (y: seq<Complex>)
    ensures |y| == |x|
  {
    if inverse && x != [] then Inverse(w, x) else Forward(w, x)
  }

  lemma {:induction false} BinOfScaled(w: Complex, r: real, x: seq<Complex>, k: nat, n: nat)
    requires n <= |x|
    ensures Bin(w, ScaleAll(r, x), k, n) == Scale(r, Bin(w, x, k, n))
  {
    hide Mul, Factor, Scale;
    ScaleAdd(r, ZERO, ZERO);
    if n > 0 {
      BinOfScaled(w, r, x, k, n - 1);
      ScaleMul(r, x[n - 1], Factor(w, n - 1, k));
      ScaleAdd(r, Bin(w, x, k, n - 1), Mul(x[n - 1], Factor(w, n - 1, k)));
    }
  }

  lemma ScaleAdd(r: real, a: Complex, b: Complex)
    ensures Scale(r, Add(a, b)) == Add(Scale(r, a), Scale(r, b))
    ensures Scale(r, ZERO) == ZERO
  {}

  lemma ScaleMul(r: real, a: Complex, b: Complex)
    ensures Mul(Scale(r, a), b) == Scale(r, Mul(a, b))
  {}

  lemma ScaleCancels(n: real, a: Complex)
    requires n != 0.0
    ensures Scale(1.0 / n, Scale(n, a)) == a
  {
    var r := 1.0 / n;
    assert r * n == 1.0;
    ScaleTwice(r, n, a);
    assert 1.0 * a.re == a.re && 1.0 * a.im == a.im;
  }

  lemma ScaleTwice(r: real, s: real, a: Complex)
    ensures Scale(r, Scale(s, a)) == Scale(r * s, a)
  {}

  lemma TransformOfScaled(w: Complex, r: real, x: seq<Complex>)
    ensures Transform(w, ScaleAll(r, x)) == ScaleAll(r, Transform(w, x))
  {
    forall k | 0 <= k < |x|
      ensures Transform(w, ScaleAll(r, x))[k] == Scale(r, Transform(w, x)[k])
    {
      BinOfScaled(w, r, x, k, |x|);
    }
  }

  lemma ScaleAllCancels(n: real, x: seq<Complex>)
    requires n != 0.0
    ensures ScaleAll(1.0 / n, ScaleAll(n, x)) == x
  {
    hide Scale;
    forall i | 0 <= i < |x| {
      ScaleCancels(n, x[i]);
    }
  }

  lemma ConjConj(w: Complex)
    ensures Conj(Conj(w)) == w
  {}

  /** The inverse transform undoes the forward one ... */
  lemma InverseOfForward(w: Complex, x: seq<Complex>)
    requires IsTwiddle(w, |x|)
    ensures Inverse(w, Forward(w, x)) == x
  {
    assert |x| >= 1;
    hide IsTwiddle, Scale;
    TransformInverts(w, x);
    ScaleAllCancels(|x| as real, x);
    assert Transform(Conj(w), Transform(w, x)) == ScaleAll(|x| as real, x);
  }

  /** ... and the forward one undoes the inverse. */
  lemma ForwardOfInverse(w: Complex, x: seq<Complex>)
    requires IsTwiddle(w, |x|)
    ensures Forward(w, Inverse(w, x)) == x
  {
    assert |x| >= 1;
    hide IsTwiddle, Scale;
    ConjTwiddle(w, |x|);
    ConjConj(w);
    TransformInverts(Conj(w), x);
    TransformOfScaled(w, 1.0 / |x| as real, Transform(Conj(w), x));
    ScaleAllCancels(|x| as real, x);
    assert Transform(w, Transform(Conj(w), x)) == ScaleAll(|x| as real, x);
  }

  /** Which direction is unscaled: a forward plan computes the transform, an inverse one what the transform undoes. */
  lemma DirectionsOfComplexTransform(w: Complex, inverse: bool, x: seq<Complex>)
    requires IsTwiddle(w, |x|)
    ensures !inverse ==> ComplexTransform(w, inverse, x) == Transform(w, x)
    ensures inverse ==> Transform(w, ComplexTransform(w, inverse, x)) == x
  {
    assert x != [];
    ForwardOfInverse(w, x);
    hide IsTwiddle, Inverse, Transform;
  }

  /** The same of the rows a plan read and the rows it wrote. */
  lemma DirectionsOfRows(w: Complex, inverse: bool, n: nat, before: seq<seq<Complex>>, after: seq<seq<Complex>>)
    requires IsTwiddle(w, n) && |before| == |after| && forall b :: 0 <= b < |before| ==> |before[b]| == n
    requires forall b :: 0 <= b < |after| ==> after[b] == ComplexTransform(w, inverse, before[b])
    ensures !inverse ==> forall b :: 0 <= b < |after| ==> after[b] == Transform(w, before[b])
    ensures inverse ==> forall b :: 0 <= b < |after| ==> Transform(w, after[b]) == before[b]
  {
    hide IsTwiddle, ComplexTransform, Transform;
    forall b | 0 <= b < |after|
      ensures !inverse ==> after[b] == Transform(w, before[b])
      ensures inverse ==> Transform(w, after[b]) == before[b]
    {
      DirectionsOfComplexTransform(w, inverse, before[b]);
    }
  }

  // ----- real transforms -----

  function BinCount(n: nat): nat {
    n / 2 + 1
  }

  /** The first N/2+1 bins of the unscaled transform of real input. */
  function RealToComplex(w: Complex, x: seq<real>): (bins: seq<Complex>)
    requires x != []
    ensures |bins| == BinCount(|x|)
  {
    Forward(w, Embed(x))[..BinCount(|x|)]
  }

  /** Bin 0, and bin N/2 when N is even, are their own mirror images. */
  predicate SelfMirrored(n: nat, k: nat) {
    k == 0 || 2 * k == n
  }

  /** The full spectrum that N/2+1 bins stand for. */
  function Expand(bins: seq<Complex>, n: nat): (spectrum: seq<Complex>)
    requires n >= 1 && |bins| == BinCount(n)
    ensures |spectrum| == n
  {
    seq(n, k requires 0 <= k < n =>
      if SelfMirrored(n, k) then FromReal(bins[k].re)
      else if 2 * k < n then bins[k]
      else Conj(bins[n - k]))
  }

  /** The real output of the inverse transform, scaled by 1/N. */
  function ComplexToReal(w: Complex, bins: seq<Complex>, n: nat): (x: seq<real>)
    requires n >= 1 && |bins| == BinCount(n)
    ensures |x| == n
  {
    RealParts(Inverse(w, Expand(bins, n)))
  }

  /** The bins with the ignored imaginary parts set to zero. */
  function Sanitize(bins: seq<Complex>, n: nat): (clean: seq<Complex>)
    requires n >= 1 && |bins| == BinCount(n)
    ensures |clean| == |bins|
  {
    seq(|bins|, k requires 0 <= k < |bins| => if SelfMirrored(n, k) then FromReal(bins[k].re) else bins[k])
  }

  function ConjAll(x: seq<Complex>): (y: seq<Complex>)
    ensures |y| == |x|
  {
    seq(|x|, i requires 0 <= i < |x| => Conj(x[i]))
  }

  lemma FactorConj(w: Complex, j: nat, k: nat)
    ensures Factor(Conj(w), j, k) == Conj(Factor(w, j, k))
  {
    hide Pow;
    PowConj(w, j * k);
  }

  lemma {:induction false} ConjBin(w: Complex, x: seq<Complex>, k: nat, n: nat)
    requires n <= |x|
    ensures Conj(Bin(w, x, k, n)) == Bin(Conj(w), ConjAll(x), k, n)
  {
    hide Mul, Factor;
    if n > 0 {
      ConjBin(w, x, k, n - 1);
      ConjMul(x[n - 1], Factor(w, n - 1, k));
      FactorConj(w, n - 1, k);
    }
  }

  lemma SplitExponent(j: nat, n: nat, k: nat)
    requires k <= n
    ensures 0 <= j * (n - k) && j * (n - k) + j * k == j * n
  {}

  /** Exponents that add up to a multiple of n belong to conjugate powers. */
  lemma MirrorPowers(w: Complex, n: nat, j: nat, e: nat, f: nat)
    requires IsTwiddle(w, n) && e + f == j * n
    ensures Pow(Conj(w), f) == Pow(w, e)
  {
    hide Mul, Pow, Conj;
    var a, b, c := Pow(w, f), Pow(Conj(w), f), Pow(w, e);
    UnitPowers(w, f);
    PowAdd(w, e, f);
    PowPow(w, j, n);
    RootPower(w, n, j);
    MulAssociative(c, a, b);
    MulUnits(b);
    MulUnits(c);
  }

  /** conj(w)^(j k) == w^(j (n - k)) */
  lemma FactorMirror(w: Complex, n: nat, j: nat, k: nat)
    requires IsTwiddle(w, n) && k <= n
    ensures Factor(Conj(w), j, k) == Factor(w, j, n - k)
  {
    hide Mul, Pow, Conj;
    SplitExponent(j, n, k);
    MirrorPowers(w, n, j, j * (n - k), j * k);
  }

  /** Reading a bin with the conjugate twiddle is reading the mirrored bin. */
  lemma {:induction false} BinMirror(w: Complex, x: seq<Complex>, k: nat, n: nat)
    requires IsTwiddle(w, |x|) && k <= |x| && n <= |x|
    ensures Bin(Conj(w), x, k, n) == Bin(w, x, |x| - k, n)
  {
    hide Mul, Factor, IsTwiddle, Conj;
    if n > 0 {
      BinMirror(w, x, k, n - 1);
      FactorMirror(w, |x|, n - 1, k);
    }
  }

  /** Bin 0 does not depend on the twiddle. */
  lemma {:induction false} DcBin(w: Complex, v: Complex, x: seq<Complex>, n: nat)
    requires n <= |x|
    ensures Bin(w, x, 0, n) == Bin(v, x, 0, n)
  {
    hide Mul;
    if n > 0 {
      DcBin(w, v, x, n - 1);
      assert (n - 1) * 0 == 0;
    }
  }

  function Mirror(n: nat, k: nat): (m: nat)
    requires k < n
    ensures m < n
  {
    if k == 0 then 0 else n - k
  }

  /** The transform of the conjugated input is the conjugated transform with its bins mirrored. */
  lemma TransformOfConj(w: Complex, x: seq<Complex>, k: nat)
    requires IsTwiddle(w, |x|) && k < |x|
    ensures Transform(w, ConjAll(x))[k] == Conj(Transform(w, x)[Mirror(|x|, k)])
  {
    hide Bin, IsTwiddle, Conj;
    ConjBin(Conj(w), x, k, |x|);
    ConjConj(w);
    if k == 0 {
      DcBin(Conj(w), w, x, |x|);
    } else {
      BinMirror(w, x, k, |x|);
    }
  }

  /** The transform of real input is Hermitian. */
  lemma HermitianSymmetry(w: Complex, x: seq<real>, k: nat)
    requires IsTwiddle(w, |x|) && k < |x|
    ensures Transform(w, Embed(x))[k] == Conj(Transform(w, Embed(x))[Mirror(|x|, k)])
    ensures SelfMirrored(|x|, k) ==> Transform(w, Embed(x))[k].im == 0.0
  {
    hide Transform, IsTwiddle;
    TransformOfConj(w, Embed(x), k);
    assert ConjAll(Embed(x)) == Embed(x);
  }

  /** The N/2+1 bins of real input lose nothing: they expand to the whole spectrum. */
  lemma ExpandOfRealToComplex(w: Complex, x: seq<real>)
    requires IsTwiddle(w, |x|)
    ensures |RealToComplex(w, x)| == |x| / 2 + 1
    ensures forall k :: 0 <= k <= |x| / 2 && k < |x| ==> RealToComplex(w, x)[k] == Transform(w, Embed(x))[k]
    ensures Expand(RealToComplex(w, x), |x|) == Transform(w, Embed(x))
  {
    var n := |x|;
    forall k | 0 <= k < n
      ensures Expand(RealToComplex(w, x), n)[k] == Transform(w, Embed(x))[k]
    {
      HermitianSymmetry(w, x, k);
      hide Transform, IsTwiddle;
    }
  }

  /** Real round trip: complex-to-real undoes real-to-complex, for every length. */
  lemma RealRoundTrip(w: Complex, x: seq<real>)
    requires IsTwiddle(w, |x|)
    ensures ComplexToReal(w, RealToComplex(w, x), |x|) == x
  {
    ExpandOfRealToComplex(w, x);
    InverseOfForward(w, Embed(x));
  }

  /** A spectrum that is its own mirrored conjugate comes from real samples. */
  lemma InverseIsReal(w: Complex, spectrum: seq<Complex>)
    requires IsTwiddle(w, |spectrum|)
    requires forall k :: 0 <= k < |spectrum| ==> spectrum[k] == Conj(spectrum[Mirror(|spectrum|, k)])
    ensures Embed(RealParts(Inverse(w, spectrum))) == Inverse(w, spectrum)
  {
    var y := Inverse(w, spectrum);
    ForwardOfInverse(w, spectrum);
    forall k | 0 <= k < |spectrum|
      ensures Transform(w, ConjAll(y))[k] == spectrum[k]
    {
      TransformOfConj(w, y, k);
    }
    hide Inverse, IsTwiddle;
    assert Forward(w, ConjAll(y)) == spectrum;
    InverseOfForward(w, ConjAll(y));
    assert ConjAll(y) == y;
    forall i | 0 <= i < |y|
      ensures y[i].im == 0.0
    {
      assert ConjAll(y)[i] == y[i];
    }
  }

  lemma ExpandIsHermitian(bins: seq<Complex>, n: nat, k: nat)
    requires n >= 1 && |bins| == BinCount(n) && k < n
    ensures Expand(bins, n)[k] == Conj(Expand(bins, n)[Mirror(n, k)])
  {}

  /** Reverse round trip: of arbitrary bins only the DC and Nyquist imaginary parts are lost. */
  lemma BinsRoundTrip(w: Complex, bins: seq<Complex>, n: nat)
    requires IsTwiddle(w, n) && |bins| == BinCount(n)
    ensures RealToComplex(w, ComplexToReal(w, bins, n)) == Sanitize(bins, n)
  {
    var spectrum := Expand(bins, n);
    forall k | 0 <= k < n {
      ExpandIsHermitian(bins, n, k);
    }
    InverseIsReal(w, spectrum);
    ForwardOfInverse(w, spectrum);
    hide Inverse, IsTwiddle, Forward;
  }

  /** The reverse trip is the identity exactly when the ignored imaginary parts are zero. */
  lemma BinsRoundTripExactly(w: Complex, bins: seq<Complex>, n: nat)
    requires IsTwiddle(w, n) && |bins| == BinCount(n)
    ensures RealToComplex(w, ComplexToReal(w, bins, n)) == bins
       <==> bins[0].im == 0.0 && (n % 2 == 0 ==> bins[n / 2].im == 0.0)
  {
    BinsRoundTrip(w, bins, n);
    hide RealToComplex, ComplexToReal, IsTwiddle;
    var clean := Sanitize(bins, n);
    assert clean[0].im == 0.0 && (n % 2 == 0 ==> clean[n / 2].im == 0.0);
    if bins[0].im == 0.0 && (n % 2 == 0 ==> bins[n / 2].im == 0.0) {
      assert clean == bins;
    }
  }

  /** Complex-to-real ignores exactly the imaginary parts that `Sanitize` clears. */
  lemma IgnoredParts(w: Complex, a: seq<Complex>, b: seq<Complex>, n: nat)
    requires IsTwiddle(w, n) && |a| == |b| == BinCount(n)
    ensures ComplexToReal(w, a, n) == ComplexToReal(w, b, n) <==> Sanitize(a, n) == Sanitize(b, n)
  {
    BinsRoundTrip(w, a, n);
    BinsRoundTrip(w, b, n);
    hide Inverse, RealToComplex, IsTwiddle;
    if Sanitize(a, n) == Sanitize(b, n) {
      forall k | 0 <= k < n
        ensures Expand(a, n)[k] == Expand(b, n)[k]
      {
        var m := if 2 * k <= n then k else n - k;
        assert Sanitize(a, n)[m] == Sanitize(b, n)[m];
      }
      assert Expand(a, n) == Expand(b, n);
    }
  }
}
