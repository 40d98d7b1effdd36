/** The three sample and tap types of the FIR plans, and the laws that hold for exact arithmetic over them. */
module FirArithmetic {
  import opened ComplexNumbers
  import opened FirSpec

  /** The product of reals, named so that a proof can treat it as an atom. */
  function Times(x: real, t: real): real {
    x * t
  }

  /** FirType::Real */
  function RealArith(): Arith<real, real> {
    Arith(0.0, (acc: real, x: real, t: real) => acc + Times(x, t))
  }

  /** FirType::ComplexRealTaps */
  function ComplexRealTapsArith(): Arith<Complex, real> {
    Arith(ZERO, (acc: Complex, x: Complex, t: real) => Complex(acc.re + Times(x.re, t), acc.im + Times(x.im, t)))
  }

  /** FirType::Complex */
  function ComplexArith(): Arith<Complex, Complex> {
    Arith(ZERO, (acc: Complex, x: Complex, t: Complex) => Add(acc, Mul(x, t)))
  }

  /** All three instances meet the law that the streaming theorems ask for. */
  lemma AllLawful()
    ensures RealArith().Lawful()
    ensures ComplexRealTapsArith().Lawful()
    ensures ComplexArith().Lawful()
  {
    forall acc: Complex, t: Complex
      ensures ComplexArith().mac(acc, ZERO, t) == acc
    {
      MulUnits(t);
    }
  }

  /** A fresh plan of any type answers a unit impulse with its taps, whatever the blocks, and is silent after them. */
  lemma UnitImpulse(taps: seq<real>, ctaps: seq<Complex>, x: seq<seq<real>>, z: seq<seq<Complex>>, i: nat)
    requires 1 <= |taps| == |ctaps| && i < |Flatten(x)| == |Flatten(z)|
    requires Flatten(x)[0] == 1.0 && forall j :: 1 <= j < |Flatten(x)| ==> Flatten(x)[j] == 0.0
    requires Flatten(z)[0] == Complex(1.0, 0.0)
    requires forall j :: 1 <= j < |Flatten(z)| ==> Flatten(z)[j] == Complex(0.0, 0.0)
    ensures |FreshOut(RealArith(), taps, x)| == |Flatten(x)|
    ensures |FreshOut(ComplexRealTapsArith(), taps, z)| == |FreshOut(ComplexArith(), ctaps, z)| == |Flatten(z)|
    ensures FreshOut(RealArith(), taps, x)[i] == if i < |taps| then taps[i] else 0.0
    ensures FreshOut(ComplexRealTapsArith(), taps, z)[i] == Complex(if i < |taps| then taps[i] else 0.0, 0.0)
    ensures FreshOut(ComplexArith(), ctaps, z)[i] == if i < |taps| then ctaps[i] else Complex(0.0, 0.0)
  {
    AllLawful();
    ImpulseResponse(RealArith(), taps, x, i);
    ImpulseResponse(ComplexRealTapsArith(), taps, z, i);
    ImpulseResponse(ComplexArith(), ctaps, z, i);
    hide FreshOut, Flatten;
  }

  // ----- complex plans as real plans -----

  lemma {:induction false} RealTapsSplit(z: seq<Complex>, taps: seq<real>, i: nat, k: nat)
    requires i < |z| && k <= |taps|
    ensures RefAcc(ComplexRealTapsArith(), z, taps, i, k)
         == Complex(RefAcc(RealArith(), RealParts(z), taps, i, k), RefAcc(RealArith(), ImagParts(z), taps, i, k))
  {
    hide Times;
    if k > 0 {
      RealTapsSplit(z, taps, i, k - 1);
    }
  }

  /** A complex plan with real taps is two real plans, one on the real and one on the imaginary stream. */
  lemma ComplexRealTapsIsTwoRealPlans(taps: seq<real>, z: seq<seq<Complex>>, x: seq<seq<real>>, y: seq<seq<real>>)
    requires 1 <= |taps|
    requires Flatten(x) == RealParts(Flatten(z)) && Flatten(y) == ImagParts(Flatten(z))
    ensures RealParts(FreshOut(ComplexRealTapsArith(), taps, z)) == FreshOut(RealArith(), taps, x)
    ensures ImagParts(FreshOut(ComplexRealTapsArith(), taps, z)) == FreshOut(RealArith(), taps, y)
  {
    AllLawful();
    StreamingEqualsOneShot(ComplexRealTapsArith(), taps, z);
    StreamingEqualsOneShot(RealArith(), taps, x);
    StreamingEqualsOneShot(RealArith(), taps, y);
    var s := Flatten(z);
    forall i | 0 <= i < |s| {
      RealTapsSplit(s, taps, i, |taps|);
    }
    hide RealArith, ComplexRealTapsArith, RefAcc, FreshOut;
  }

  lemma MacParts(acc: Complex, x: Complex, t: Complex, rr: real, ii: real, ri: real, ir: real)
    requires acc == Complex(rr - ii, ri + ir)
    ensures Add(acc, Mul(x, t))
         == Complex((rr + Times(x.re, t.re)) - (ii + Times(x.im, t.im)),
                    (ri + Times(x.re, t.im)) + (ir + Times(x.im, t.re)))
  {}

  lemma {:induction false} ComplexSplit(z: seq<Complex>, taps: seq<Complex>, i: nat, k: nat)
    requires i < |z| && k <= |taps|
    ensures var x, y, g, h := RealParts(z), ImagParts(z), RealParts(taps), ImagParts(taps);
            RefAcc(ComplexArith(), z, taps, i, k)
            == Complex(RefAcc(RealArith(), x, g, i, k) - RefAcc(RealArith(), y, h, i, k),
                       RefAcc(RealArith(), x, h, i, k) + RefAcc(RealArith(), y, g, i, k))
  {
    hide Mul, Add, Times;
    if k > 0 {
      ComplexSplit(z, taps, i, k - 1);
      if i >= k - 1 {
        var x, y, g, h := RealParts(z), ImagParts(z), RealParts(taps), ImagParts(taps);
        MacParts(RefAcc(ComplexArith(), z, taps, i, k - 1), z[i - (k - 1)], taps[k - 1],
                 RefAcc(RealArith(), x, g, i, k - 1), RefAcc(RealArith(), y, h, i, k - 1),
                 RefAcc(RealArith(), x, h, i, k - 1), RefAcc(RealArith(), y, g, i, k - 1));
      }
    }
  }

  /** A complex plan is four real plans, combined as a complex product combines its parts. */
  lemma ComplexIsFourRealPlans(taps: seq<Complex>, z: seq<seq<Complex>>, x: seq<seq<real>>, y: seq<seq<real>>, i: nat)
    requires 1 <= |taps| && i < |Flatten(z)|
    requires Flatten(x) == RealParts(Flatten(z)) && Flatten(y) == ImagParts(Flatten(z))
    ensures |FreshOut(ComplexArith(), taps, z)| == |Flatten(z)|
    ensures |FreshOut(RealArith(), RealParts(taps), x)| == |FreshOut(RealArith(), ImagParts(taps), x)| == |Flatten(z)|
    ensures |FreshOut(RealArith(), RealParts(taps), y)| == |FreshOut(RealArith(), ImagParts(taps), y)| == |Flatten(z)|
    ensures FreshOut(ComplexArith(), taps, z)[i]
         == Complex(FreshOut(RealArith(), RealParts(taps), x)[i] - FreshOut(RealArith(), ImagParts(taps), y)[i],
                    FreshOut(RealArith(), ImagParts(taps), x)[i] + FreshOut(RealArith(), RealParts(taps), y)[i])
  {
    AllLawful();
    StreamingEqualsOneShot(ComplexArith(), taps, z);
    StreamingEqualsOneShot(RealArith(), RealParts(taps), x);
    StreamingEqualsOneShot(RealArith(), ImagParts(taps), x);
    StreamingEqualsOneShot(RealArith(), RealParts(taps), y);
    StreamingEqualsOneShot(RealArith(), ImagParts(taps), y);
    ComplexSplit(Flatten(z), taps, i, |taps|);
    hide RealArith, ComplexArith, RefAcc, FreshOut;
  }

  // ----- superposition -----

  function Mix(a: real, x: seq<real>, b: real, y: seq<real>): (m: seq<real>)
    requires |x| == |y|
    ensures |m| == |x|
  {
    seq(|x|, i requires 0 <= i < |x| => Times(a, x[i]) + Times(b, y[i]))
  }

  lemma TimesZero(a: real)
    ensures Times(a, 0.0) == 0.0
  {}

  lemma MixMac(a: real, p: real, x: real, b: real, q: real, y: real, t: real)
    ensures Times(a, p) + Times(b, q) + Times(Times(a, x) + Times(b, y), t)
         == Times(a, p + Times(x, t)) + Times(b, q + Times(y, t))
  {}

  lemma {:induction false} RefAccOfMix(a: real, x: seq<real>, b: real, y: seq<real>, taps: seq<real>, i: nat, k: nat)
    requires |x| == |y| && i < |x| && k <= |taps|
    ensures RefAcc(RealArith(), Mix(a, x, b, y), taps, i, k)
         == Times(a, RefAcc(RealArith(), x, taps, i, k)) + Times(b, RefAcc(RealArith(), y, taps, i, k))
  {
    TimesZero(a);
    TimesZero(b);
    hide Times;
    if k > 0 {
      RefAccOfMix(a, x, b, y, taps, i, k - 1);
      if i >= k - 1 {
        var j := i - (k - 1);
        MixMac(a, RefAcc(RealArith(), x, taps, i, k - 1), x[j], b, RefAcc(RealArith(), y, taps, i, k - 1), y[j],
               taps[k - 1]);
      }
    }
  }

  lemma RefFirOfMix(a: real, x: seq<real>, b: real, y: seq<real>, taps: seq<real>)
    requires |x| == |y|
    ensures RefFir(RealArith(), Mix(a, x, b, y), taps)
         == Mix(a, RefFir(RealArith(), x, taps), b, RefFir(RealArith(), y, taps))
  {
    hide RealArith, RefAcc, Times;
    forall i | 0 <= i < |x| {
      RefAccOfMix(a, x, b, y, taps, i, |taps|);
    }
  }

  lemma MixOf(a: real, x: seq<real>, b: real, y: seq<real>, m: seq<real>)
    requires |x| == |y| == |m|
    ensures m == Mix(a, x, b, y) <==> forall i :: 0 <= i < |m| ==> m[i] == a * x[i] + b * y[i]
  {
    forall i | 0 <= i < |m|
      ensures Mix(a, x, b, y)[i] == a * x[i] + b * y[i]
    {}
    hide Mix;
  }

  lemma MixedStreams(taps: seq<real>, a: real, x: seq<seq<real>>, b: real, y: seq<seq<real>>, z: seq<seq<real>>)
    requires 1 <= |taps| && |Flatten(x)| == |Flatten(y)|
    requires Flatten(z) == Mix(a, Flatten(x), b, Flatten(y))
    ensures |FreshOut(RealArith(), taps, x)| == |FreshOut(RealArith(), taps, y)|
    ensures FreshOut(RealArith(), taps, z)
         == Mix(a, FreshOut(RealArith(), taps, x), b, FreshOut(RealArith(), taps, y))
  {
    AllLawful();
    StreamingEqualsOneShot(RealArith(), taps, x);
    StreamingEqualsOneShot(RealArith(), taps, y);
    StreamingEqualsOneShot(RealArith(), taps, z);
    RefFirOfMix(a, Flatten(x), b, Flatten(y), taps);
    hide *;
  }

  /** Superposition over whole runs, output by output, however the three streams are cut into blocks. */
  lemma Superposition(taps: seq<real>, a: real, x: seq<seq<real>>, b: real, y: seq<seq<real>>, z: seq<seq<real>>)
    requires 1 <= |taps| && |Flatten(x)| == |Flatten(y)| == |Flatten(z)|
    requires forall i :: 0 <= i < |Flatten(z)| ==> Flatten(z)[i] == a * Flatten(x)[i] + b * Flatten(y)[i]
    ensures |FreshOut(RealArith(), taps, x)| == |FreshOut(RealArith(), taps, y)| == |Flatten(z)|
    ensures |FreshOut(RealArith(), taps, z)| == |Flatten(z)|
    ensures forall i :: 0 <= i < |Flatten(z)| ==>
      FreshOut(RealArith(), taps, z)[i] == a * FreshOut(RealArith(), taps, x)[i] + b * FreshOut(RealArith(), taps, y)[i]
  {
    MixOf(a, Flatten(x), b, Flatten(y), Flatten(z));
    MixedStreams(taps, a, x, b, y, z);
    AllLawful();
    StreamingEqualsOneShot(RealArith(), taps, x);
    MixOf(a, FreshOut(RealArith(), taps, x), b, FreshOut(RealArith(), taps, y), FreshOut(RealArith(), taps, z));
    hide *;
  }

  function ComplexMix(a: Complex, x: seq<Complex>, b: Complex, y: seq<Complex>): (m: seq<Complex>)
    requires |x| == |y|
    ensures |m| == |x|
  {
    seq(|x|, i requires 0 <= i < |x| => Add(Mul(a, x[i]), Mul(b, y[i])))
  }

  lemma AddZero()
    ensures Add(ZERO, ZERO) == ZERO
  {}

  lemma ComplexMixMac(a: Complex, p: Complex, x: Complex, b: Complex, q: Complex, y: Complex, t: Complex)
    ensures Add(Add(Mul(a, p), Mul(b, q)), Mul(Add(Mul(a, x), Mul(b, y)), t))
         == Add(Mul(a, Add(p, Mul(x, t))), Mul(b, Add(q, Mul(y, t))))
  {
    hide Mul;
    MulDistributes(t, Mul(a, x), Mul(b, y));
    MulAssociative(a, x, t);
    MulAssociative(b, y, t);
    MulDistributes(a, p, Mul(x, t));
    MulDistributes(b, q, Mul(y, t));
  }

  lemma {:induction false} RefAccOfComplexMix(a: Complex, x: seq<Complex>, b: Complex, y: seq<Complex>,
                                              taps: seq<Complex>, i: nat, k: nat)
    requires |x| == |y| && i < |x| && k <= |taps|
    ensures RefAcc(ComplexArith(), ComplexMix(a, x, b, y), taps, i, k)
         == Add(Mul(a, RefAcc(ComplexArith(), x, taps, i, k)), Mul(b, RefAcc(ComplexArith(), y, taps, i, k)))
  {
    hide Mul, Add;
    if k == 0 {
      MulUnits(a);
      MulUnits(b);
      AddZero();
    } else {
      RefAccOfComplexMix(a, x, b, y, taps, i, k - 1);
      if i >= k - 1 {
        var j := i - (k - 1);
        ComplexMixMac(a, RefAcc(ComplexArith(), x, taps, i, k - 1), x[j],
                      b, RefAcc(ComplexArith(), y, taps, i, k - 1), y[j], taps[k - 1]);
      }
    }
  }

  lemma RefFirOfComplexMix(a: Complex, x: seq<Complex>, b: Complex, y: seq<Complex>, taps: seq<Complex>)
    requires |x| == |y|
    ensures RefFir(ComplexArith(), ComplexMix(a, x, b, y), taps)
         == ComplexMix(a, RefFir(ComplexArith(), x, taps), b, RefFir(ComplexArith(), y, taps))
  {
    hide ComplexArith, RefAcc, Mul;
    forall i | 0 <= i < |x| {
      RefAccOfComplexMix(a, x, b, y, taps, i, |taps|);
    }
  }

  lemma ComplexMixOf(a: Complex, x: seq<Complex>, b: Complex, y: seq<Complex>, m: seq<Complex>)
    requires |x| == |y| == |m|
    ensures m == ComplexMix(a, x, b, y) <==> forall i :: 0 <= i < |m| ==> m[i] == Add(Mul(a, x[i]), Mul(b, y[i]))
  {
    hide Mul, Add;
  }

  lemma ComplexMixedStreams(taps: seq<Complex>, a: Complex, x: seq<seq<Complex>>, b: Complex, y: seq<seq<Complex>>,
                            z: seq<seq<Complex>>)
    requires 1 <= |taps| && |Flatten(x)| == |Flatten(y)|
    requires Flatten(z) == ComplexMix(a, Flatten(x), b, Flatten(y))
    ensures |FreshOut(ComplexArith(), taps, x)| == |FreshOut(ComplexArith(), taps, y)|
    ensures FreshOut(ComplexArith(), taps, z)
         == ComplexMix(a, FreshOut(ComplexArith(), taps, x), b, FreshOut(ComplexArith(), taps, y))
  {
    AllLawful();
    StreamingEqualsOneShot(ComplexArith(), taps, x);
    StreamingEqualsOneShot(ComplexArith(), taps, y);
    StreamingEqualsOneShot(ComplexArith(), taps, z);
    RefFirOfComplexMix(a, Flatten(x), b, Flatten(y), taps);
    hide *;
  }

  /** Superposition of complex plans, with complex weights. */
  lemma ComplexSuperposition(taps: seq<Complex>, a: Complex, x: seq<seq<Complex>>, b: Complex, y: seq<seq<Complex>>,
                             z: seq<seq<Complex>>)
    requires 1 <= |taps| && |Flatten(x)| == |Flatten(y)| == |Flatten(z)|
    requires forall i :: 0 <= i < |Flatten(z)| ==>
      Flatten(z)[i] == Add(Mul(a, Flatten(x)[i]), Mul(b, Flatten(y)[i]))
    ensures |FreshOut(ComplexArith(), taps, x)| == |FreshOut(ComplexArith(), taps, y)| == |Flatten(z)|
    ensures |FreshOut(ComplexArith(), taps, z)| == |Flatten(z)|
    ensures forall i :: 0 <= i < |Flatten(z)| ==>
      FreshOut(ComplexArith(), taps, z)[i]
      == Add(Mul(a, FreshOut(ComplexArith(), taps, x)[i]), Mul(b, FreshOut(ComplexArith(), taps, y)[i]))
  {
    ComplexMixOf(a, Flatten(x), b, Flatten(y), Flatten(z));
    ComplexMixedStreams(taps, a, x, b, y, z);
    AllLawful();
    StreamingEqualsOneShot(ComplexArith(), taps, x);
    ComplexMixOf(a, FreshOut(ComplexArith(), taps, x), b, FreshOut(ComplexArith(), taps, y),
                 FreshOut(ComplexArith(), taps, z));
    hide *;
  }

  lemma MacByReal(acc: Complex, x: Complex, t: real)
    ensures Add(acc, Mul(x, FromReal(t))) == Complex(acc.re + Times(x.re, t), acc.im + Times(x.im, t))
  {}

  lemma {:induction false} RealTapsEmbed(z: seq<Complex>, taps: seq<real>, i: nat, k: nat)
    requires i < |z| && k <= |taps|
    ensures RefAcc(ComplexRealTapsArith(), z, taps, i, k) == RefAcc(ComplexArith(), z, Embed(taps), i, k)
  {
    hide Mul, Add, Times;
    if k > 0 {
      RealTapsEmbed(z, taps, i, k - 1);
      if i >= k - 1 {
        MacByReal(RefAcc(ComplexRealTapsArith(), z, taps, i, k - 1), z[i - (k - 1)], taps[k - 1]);
      }
    }
  }

  /** A plan with real taps puts out what a complex plan with the same taps puts out. */
  lemma RealTapsAreComplexTaps(taps: seq<real>, z: seq<seq<Complex>>)
    requires 1 <= |taps|
    ensures FreshOut(ComplexRealTapsArith(), taps, z) == FreshOut(ComplexArith(), Embed(taps), z)
  {
    AllLawful();
    StreamingEqualsOneShot(ComplexRealTapsArith(), taps, z);
    StreamingEqualsOneShot(ComplexArith(), Embed(taps), z);
    var s := Flatten(z);
    forall i | 0 <= i < |s| {
      RealTapsEmbed(s, taps, i, |taps|);
    }
    hide ComplexArith, ComplexRealTapsArith, RefAcc, FreshOut;
  }

  /** Superposition of complex plans with real taps; the weights may still be complex. */
  lemma RealTapsSuperposition(taps: seq<real>, a: Complex, x: seq<seq<Complex>>, b: Complex, y: seq<seq<Complex>>,
                              z: seq<seq<Complex>>)
    requires 1 <= |taps| && |Flatten(x)| == |Flatten(y)| == |Flatten(z)|
    requires forall i :: 0 <= i < |Flatten(z)| ==>
      Flatten(z)[i] == Add(Mul(a, Flatten(x)[i]), Mul(b, Flatten(y)[i]))
    ensures |FreshOut(ComplexRealTapsArith(), taps, x)| == |FreshOut(ComplexRealTapsArith(), taps, y)| == |Flatten(z)|
    ensures |FreshOut(ComplexRealTapsArith(), taps, z)| == |Flatten(z)|
    ensures forall i :: 0 <= i < |Flatten(z)| ==>
      FreshOut(ComplexRealTapsArith(), taps, z)[i]
      == Add(Mul(a, FreshOut(ComplexRealTapsArith(), taps, x)[i]),
             Mul(b, FreshOut(ComplexRealTapsArith(), taps, y)[i]))
  {
    hide *;
    RealTapsAreComplexTaps(taps, x);
    RealTapsAreComplexTaps(taps, y);
    RealTapsAreComplexTaps(taps, z);
    ComplexSuperposition(Embed(taps), a, x, b, y, z);
  }
}
