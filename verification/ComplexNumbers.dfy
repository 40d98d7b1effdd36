/** Exact complex arithmetic: the `std::complex` values of the repository with rounding left out. */
module ComplexNumbers {

  datatype Complex = Complex(re: real, im: real)

  const ZERO := Complex(0.0, 0.0)
  const ONE := Complex(1.0, 0.0)

  function Add(a: Complex, b: Complex): Complex {
    Complex(a.re + b.re, a.im + b.im)
  }

  function Sub(a: Complex, b: Complex): Complex {
    Complex(a.re - b.re, a.im - b.im)
  }

  function Mul(a: Complex, b: Complex): Complex {
    Complex(a.re * b.re - a.im * b.im, a.re * b.im + a.im * b.re)
  }

  function Conj(a: Complex): Complex {
    Complex(a.re, -a.im)
  }

  function Scale(r: real, a: Complex): Complex {
    Complex(r * a.re, r * a.im)
  }

  function FromReal(r: real): Complex {
    Complex(r, 0.0)
  }

  // ----- streams -----

  function Embed(x: seq<real>): (y: seq<Complex>)
    ensures |y| == |x|
  {
    seq(|x|, i requires 0 <= i < |x| => FromReal(x[i]))
  }

  function RealParts(x: seq<Complex>): (y: seq<real>)
    ensures |y| == |x|
  {
    seq(|x|, i requires 0 <= i < |x| => x[i].re)
  }

  function ImagParts(x: seq<Complex>): (y: seq<real>)
    ensures |y| == |x|
  {
    seq(|x|, i requires 0 <= i < |x| => x[i].im)
  }

  // ----- ring laws -----

  lemma MulAssociative(a: Complex, b: Complex, c: Complex)
    ensures Mul(Mul(a, b), c) == Mul(a, Mul(b, c))
  {}

  lemma MulCommutative(a: Complex, b: Complex)
    ensures Mul(a, b) == Mul(b, a)
  {}

  lemma MulDistributesLeft(a: Complex, b: Complex, c: Complex)
    ensures Mul(a, Add(b, c)) == Add(Mul(a, b), Mul(a, c))
  {}

  lemma MulDistributes(a: Complex, b: Complex, c: Complex)
    ensures Mul(a, Add(b, c)) == Add(Mul(a, b), Mul(a, c))
    ensures Mul(Add(b, c), a) == Add(Mul(b, a), Mul(c, a))
  {
    hide *;
    MulDistributesLeft(a, b, c);
    MulCommutative(a, Add(b, c));
    MulCommutative(a, b);
    MulCommutative(a, c);
  }

  lemma MulUnits(a: Complex)
    ensures Mul(a, ONE) == a && Mul(ONE, a) == a
    ensures Mul(a, ZERO) == ZERO && Mul(ZERO, a) == ZERO
  {}

  lemma MulReal(a: Complex, r: real)
    ensures Mul(a, FromReal(r)) == Scale(r, a)
  {}

  /** (a b)(c d) == (a c)(b d), by associativity and commutativity alone. */
  lemma MulInterchange(a: Complex, b: Complex, c: Complex, d: Complex)
    ensures Mul(Mul(a, b), Mul(c, d)) == Mul(Mul(a, c), Mul(b, d))
  {
    hide *;
    MulAssociative(a, b, Mul(c, d));
    MulAssociative(b, c, d);
    MulCommutative(b, c);
    MulAssociative(c, b, d);
    MulAssociative(a, c, Mul(b, d));
  }

  lemma ConjMul(a: Complex, b: Complex)
    ensures Conj(Mul(a, b)) == Mul(Conj(a), Conj(b))
  {}

  /** The complex numbers have no zero divisors: multiply a product that is zero by the conjugate. */
  lemma NoZeroDivisors(a: Complex, b: Complex)
    requires Mul(a, b) == ZERO
    ensures a == ZERO || b == ZERO
  {
    var norm := a.re * a.re + a.im * a.im;
    assert norm * b.re == 0.0 && norm * b.im == 0.0 by {
      MulAssociative(Conj(a), a, b);
      assert Mul(Conj(a), a) == Complex(norm, 0.0);
    }
    if a.re != 0.0 {
      assert a.re * a.re > 0.0 && a.im * a.im >= 0.0;
    } else if a.im != 0.0 {
      assert a.im * a.im > 0.0;
    }
  }
}
