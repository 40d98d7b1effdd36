/** AOCL's test for the lengths its real transforms support: no prime above 7 divides them. */
module SmoothLength {

  predicate Divides(d: nat, n: nat)
    requires d >= 1
  {
    n % d == 0
  }

  function Quotient(n: nat, d: nat): nat
    requires d >= 1
  {
    n / d
  }

  predicate IsPrime(p: nat) {
    p >= 2 && forall d :: 2 <= d < p ==> !Divides(d, p)
  }

  /** No prime above 7 divides `n`. */
  ghost predicate SevenSmooth(n: nat) {
    forall q :: IsPrime(q) && q > 7 ==> !Divides(q, n)
  }

  function Power(b: nat, e: nat): (r: nat)
    ensures b >= 1 ==> r >= 1
  {
    if e == 0 then 1 else b * Power(b, e - 1)
  }

  // ----- divisibility -----

  lemma MulAtLeast(d: int, e: int)
    requires d >= 0
    ensures e >= 1 ==> d * e >= d
    ensures e <= -1 ==> d * e <= -d
  {
    if e >= 1 {
      assert d * e == d + d * (e - 1);
    } else if e <= -1 {
      assert d * e == -d - d * (-e - 1);
    }
  }

  lemma SmallMultiple(d: nat, e: int, r: int)
    requires 0 <= r < d && r == d * e
    ensures e == 0
  {
    MulAtLeast(d, e);
  }

  /** A multiple of `d` is divided by `d`, and the quotient is the other factor. */
  lemma Multiple(n: nat, d: nat, q: nat)
    requires d >= 1 && n == d * q
    ensures Divides(d, n) && Quotient(n, d) == q
  {
    var k, r := n / d, n % d;
    assert n == d * k + r;
    assert d * (q - k) == d * q - d * k;
    SmallMultiple(d, q - k, r);
  }

  lemma Factored(n: nat, d: nat)
    requires d >= 1 && Divides(d, n)
    ensures n == d * Quotient(n, d)
    ensures d >= 2 && n >= 1 ==> 1 <= Quotient(n, d) < n
  {
    var q := n / d;
    assert n == d * q;
    if d >= 2 && n >= 1 {
      assert q == 0 ==> d * q == 0;
      assert d * q == q + q * (d - 1);
      MulAtLeast(q, d - 1);
    }
  }

  lemma NoneBelow(d: nat, n: nat)
    requires 1 <= n < d
    ensures !Divides(d, n)
  {
    assert n % d == n;
  }

  lemma DividesMultiple(q: nat, a: nat, b: nat)
    requires q >= 1 && Divides(q, a)
    ensures Divides(q, a * b) && Divides(q, b * a)
  {
    Factored(a, q);
    var k := Quotient(a, q);
    hide Divides, Quotient;
    assert a * b == q * (k * b) by {
      assert (q * k) * b == q * (k * b);
    }
    assert b * a == a * b;
    Multiple(a * b, q, k * b);
  }

  lemma DifferenceOfMultiples(p: int, j: int, k: int)
    requires p >= 1 && p * k <= p * j
    ensures j >= k && p * j - p * k == p * (j - k)
  {
    MulAtLeast(p, j - k);
    assert p * (j - k) == p * j - p * k;
  }

  lemma DividesDifference(p: nat, x: nat, y: nat)
    requires p >= 1 && y <= x && Divides(p, x) && Divides(p, y)
    ensures Divides(p, x - y)
  {
    Factored(x, p);
    Factored(y, p);
    var j, k := Quotient(x, p), Quotient(y, p);
    hide Divides, Quotient;
    DifferenceOfMultiples(p, j, k);
    Multiple(x - y, p, j - k);
  }

  /** Remainder and divisor: `n` is a multiple of `d` and a remainder below `d`. */
  lemma Remainder(n: nat, d: nat) returns (k: nat, r: nat)
    requires d >= 1
    ensures n == d * k + r && r < d
    ensures r == 0 <==> Divides(d, n)
  {
    k, r := n / d, n % d;
  }

  /** A factor may be replaced by its remainder: the two differ by a multiple of `p`. */
  lemma ReduceFactor(p: nat, a: nat, b: nat, k: nat, r: nat)
    requires p >= 1 && a == p * k + r && Divides(p, a * b)
    ensures Divides(p, r * b)
  {
    hide Divides;
    assert (p * k + r) * b == p * (k * b) + r * b;
    Multiple(p * (k * b), p, k * b);
    DividesDifference(p, a * b, p * (k * b));
  }

  /** It may be replaced by the remainder of `p`: `p` divides `p * b` and every multiple of `a * b`. */
  lemma ReducePrime(p: nat, a: nat, b: nat, k: nat, r: nat)
    requires p >= 1 && p == a * k + r && Divides(p, a * b)
    ensures Divides(p, r * b)
  {
    hide Divides;
    assert (a * k + r) * b == k * (a * b) + r * b;
    Multiple(p * b, p, b);
    DividesMultiple(p, a * b, k);
    DividesDifference(p, p * b, k * (a * b));
  }

  /** Euclid's lemma. */
  lemma {:induction false} PrimeDividesFactor(p: nat, a: nat, b: nat)
    requires IsPrime(p) && Divides(p, a * b)
    ensures Divides(p, a) || Divides(p, b)
    decreases a
  {
    hide Divides, IsPrime;
    assert p >= 2 by {
      PrimeFacts(p, p);
    }
    if Divides(p, a) {
    } else if a == 0 {
      Multiple(0, p, 0);
    } else if a == 1 {
      assert a * b == b;
    } else if a >= p {
      var k, r := Remainder(a, p);
      ReduceFactor(p, a, b, k, r);
      PrimeDividesFactor(p, r, b);
      NoneBelow(p, r);
    } else {
      var k, r := Remainder(p, a);
      PrimeFacts(p, a);
      ReducePrime(p, a, b, k, r);
      PrimeDividesFactor(p, r, b);
      NoneBelow(p, r);
    }
  }

  lemma PrimeFacts(p: nat, a: nat)
    requires IsPrime(p)
    ensures p >= 2
    ensures 2 <= a < p ==> !Divides(a, p)
  {}

  /** Every number from 2 on has a prime divisor: its least divisor from 2 on. */
  lemma {:induction false} LeastDivisor(n: nat, d: nat) returns (q: nat)
    requires 2 <= d <= n && forall c :: 2 <= c < d ==> !Divides(c, n)
    ensures IsPrime(q) && Divides(q, n)
    decreases n - d
  {
    Multiple(n, n, 1);
    hide Divides;
    if Divides(d, n) {
      q := d;
      forall c | 2 <= c < d
        ensures !Divides(c, d)
      {
        if Divides(c, d) {
          Factored(n, d);
          DividesMultiple(c, d, Quotient(n, d));
        }
      }
    } else {
      q := LeastDivisor(n, d + 1);
    }
  }

  // ----- dividing a prime out -----

  /** `n` with every factor `p` divided out. */
  function Strip(n: nat, p: nat): (r: nat)
    requires n >= 1 && p >= 2
    ensures 1 <= r <= n && !Divides(p, r)
    decreases n
  {
    if Divides(p, n) then
      Factored(n, p);
      Strip(Quotient(n, p), p)
    else n
  }

  /** Dividing out `p` keeps exactly the divisibility by the other primes. */
  lemma {:induction false} StripKeepsOthers(n: nat, p: nat, q: nat)
    requires n >= 1 && IsPrime(p) && IsPrime(q) && q != p
    ensures Divides(q, Strip(n, p)) <==> Divides(q, n)
    decreases n
  {
    PrimeFacts(p, q);
    PrimeFacts(q, q);
    hide Divides, Quotient, IsPrime;
    if Divides(p, n) {
      Factored(n, p);
      var m := Quotient(n, p);
      StripKeepsOthers(m, p, q);
      if Divides(q, n) {
        PrimeDividesFactor(q, p, m);
        PrimeNotMultiple(p, q);
      } else if Divides(q, m) {
        DividesMultiple(q, m, p);
      }
    }
  }

  lemma PrimeNotMultiple(p: nat, q: nat)
    requires IsPrime(p) && IsPrime(q) && p != q
    ensures !Divides(q, p)
  {
    if q > p {
      NoneBelow(q, p);
    }
  }

  function StripAll(n: nat, ps: seq<nat>): (r: nat)
    requires n >= 1 && forall i :: 0 <= i < |ps| ==> ps[i] >= 2
    ensures r >= 1
  {
    if ps == [] then n else StripAll(Strip(n, ps[0]), ps[1..])
  }

  predicate AllPrime(ps: seq<nat>)
    ensures AllPrime(ps) ==> forall i :: 0 <= i < |ps| ==> ps[i] >= 2
  {
    forall i :: 0 <= i < |ps| ==> IsPrime(ps[i])
  }

  /** After all the loops a prime divides what is left exactly when it is none of theirs and divided `n`. */
  lemma {:induction false} StripAllKeepsOthers(n: nat, ps: seq<nat>, q: nat)
    requires n >= 1 && q >= 1 && IsPrime(q) && AllPrime(ps)
    ensures Divides(q, StripAll(n, ps)) <==> q !in ps && Divides(q, n)
  {
    if ps != [] {
      var m := Strip(n, ps[0]);
      StripAllKeepsOthers(m, ps[1..], q);
      if q != ps[0] {
        StripKeepsOthers(n, ps[0], q);
      }
      hide Divides, IsPrime, Strip;
    }
  }

  lemma SmallPrimes(q: nat)
    ensures IsPrime(2) && IsPrime(3) && IsPrime(5) && IsPrime(7)
    ensures IsPrime(q) && q <= 7 ==> q == 2 || q == 3 || q == 5 || q == 7
  {
    assert Divides(2, 4) && Divides(2, 6);
    assert !Divides(2, 3);
    assert !Divides(2, 5) && !Divides(3, 5) && !Divides(4, 5);
    assert !Divides(2, 7) && !Divides(3, 7) && !Divides(4, 7) && !Divides(5, 7) && !Divides(6, 7);
  }

  /** In whatever order, and however often, the four primes are divided out, one is left of the smooth numbers alone. */
  lemma StripAllDecides(n: nat, ps: seq<nat>)
    requires n >= 1 && forall p :: p in ps <==> p == 2 || p == 3 || p == 5 || p == 7
    ensures AllPrime(ps)
    ensures StripAll(n, ps) == 1 <==> SevenSmooth(n)
  {
    SmallPrimes(0);
    assert forall i :: 0 <= i < |ps| ==> ps[i] in ps;
    var rest := StripAll(n, ps);
    hide Divides, IsPrime, StripAll;
    if rest == 1 {
      forall q: nat | IsPrime(q) && q > 7
        ensures !Divides(q, n)
      {
        StripAllKeepsOthers(n, ps, q);
        NoneBelow(q, 1);
      }
    } else {
      var q := LeastDivisor(rest, 2);
      PrimeFacts(q, q);
      StripAllKeepsOthers(n, ps, q);
      SmallPrimes(q);
    }
  }

  /** One loop of the test. */
  method DivideOut(start: nat, p: nat) returns (n: nat)
    requires start >= 1 && p >= 2
    ensures n == Strip(start, p)
  {
    n := start;
    while n % p == 0
      invariant n >= 1 && Strip(n, p) == Strip(start, p)
      decreases n
    {
      Factored(n, p);
      n := n / p;
    }
  }

  /** Four loops, one per prime. They end for every length the factory lets through. */
  method RealLengthSupported(length: nat) returns (r: bool)
    requires length >= 1
    ensures r <==> SevenSmooth(length)
  {
    var primes: seq<nat> := [2, 3, 5, 7];
    StripAllDecides(length, primes);
    hide Strip, SevenSmooth;
    var n := length;
    for i := 0 to |primes|
      invariant n >= 1 && StripAll(n, primes[i..]) == StripAll(length, primes)
    {
      assert primes[i..][1..] == primes[i + 1..];
      n := DivideOut(n, primes[i]);
    }
    r := n == 1;
  }

  // ----- the product form -----

  lemma MulRegroup(a: int, b: int, c: int)
    ensures a * (b * c) == (a * b) * c
  {}

  lemma {:induction false} StripIsFactor(n: nat, p: nat) returns (e: nat)
    requires n >= 1 && p >= 2
    ensures n == Power(p, e) * Strip(n, p)
    decreases n
  {
    hide Divides, Quotient;
    if Divides(p, n) {
      Factored(n, p);
      var k := StripIsFactor(Quotient(n, p), p);
      MulRegroup(p, Power(p, k), Strip(n, p));
      e := k + 1;
    } else {
      e := 0;
    }
  }

  lemma {:induction false} PowerDivisor(b: nat, e: nat, q: nat)
    requires IsPrime(q) && IsPrime(b) && Divides(q, Power(b, e))
    ensures q == b
  {
    PrimeFacts(q, q);
    hide Divides, IsPrime;
    if e == 0 {
      NoneBelow(q, 1);
    } else {
      PrimeDividesFactor(q, b, Power(b, e - 1));
      if Divides(q, b) {
        if q != b {
          PrimeNotMultiple(b, q);
        }
      } else {
        PowerDivisor(b, e - 1, q);
      }
    }
  }

  function Product(a: nat, b: nat, c: nat, d: nat): nat {
    Power(2, a) * (Power(3, b) * (Power(5, c) * Power(7, d)))
  }

  lemma SmoothHasExponents(n: nat) returns (a: nat, b: nat, c: nat, d: nat)
    requires n >= 1 && SevenSmooth(n)
    ensures n == Product(a, b, c, d)
  {
    StripAllDecides(n, [2, 3, 5, 7]);
    StripAllFour(n);
    hide Strip, StripAll, Power, SevenSmooth;
    var n2 := Strip(n, 2);
    var n3 := Strip(n2, 3);
    var n5 := Strip(n3, 5);
    a := StripIsFactor(n, 2);
    b := StripIsFactor(n2, 3);
    c := StripIsFactor(n3, 5);
    d := StripIsFactor(n5, 7);
    assert n5 == Power(7, d) * 1;
  }

  /** The supported lengths are exactly the numbers 2^a * 3^b * 5^c * 7^d. */
  lemma SmoothIsProduct(n: nat)
    requires n >= 1
    ensures SevenSmooth(n) <==> exists a, b, c, d :: n == Product(a, b, c, d)
  {
    if SevenSmooth(n) {
      var a, b, c, d := SmoothHasExponents(n);
    }
    hide Product, Divides, IsPrime;
    if a, b, c, d :| n == Product(a, b, c, d) {
      forall q: nat | IsPrime(q) && q > 7
        ensures !Divides(q, n)
      {
        if Divides(q, n) {
          PrimeDividesProduct(a, b, c, d, q);
        }
      }
    }
  }

  lemma StripAllFour(n: nat)
    requires n >= 1
    ensures StripAll(n, [2, 3, 5, 7]) == Strip(Strip(Strip(Strip(n, 2), 3), 5), 7)
  {
    hide Strip;
    var ps: seq<nat> := [2, 3, 5, 7];
    assert ps[1..] == [3, 5, 7] && ps[1..][1..] == [5, 7] && ps[1..][1..][1..] == [7];
    StripStep(n, ps);
    StripStep(Strip(n, 2), ps[1..]);
    StripStep(Strip(Strip(n, 2), 3), ps[1..][1..]);
    StripStep(Strip(Strip(Strip(n, 2), 3), 5), ps[1..][1..][1..]);
  }

  lemma StripStep(n: nat, ps: seq<nat>)
    requires n >= 1 && ps != [] && forall i :: 0 <= i < |ps| ==> ps[i] >= 2
    ensures StripAll(n, ps) == StripAll(Strip(n, ps[0]), ps[1..])
  {}

  lemma PrimeDividesProduct(a: nat, b: nat, c: nat, d: nat, q: nat)
    requires q >= 1 && IsPrime(q) && Divides(q, Product(a, b, c, d))
    ensures q <= 7
  {
    SmallPrimes(0);
    hide Divides, IsPrime, Power;
    PrimeDividesFactor(q, Power(2, a), Power(3, b) * (Power(5, c) * Power(7, d)));
    if Divides(q, Power(2, a)) {
      PowerDivisor(2, a, q);
    } else {
      PrimeDividesFactor(q, Power(3, b), Power(5, c) * Power(7, d));
      if Divides(q, Power(3, b)) {
        PowerDivisor(3, b, q);
      } else {
        PrimeDividesFactor(q, Power(5, c), Power(7, d));
        if Divides(q, Power(5, c)) {
          PowerDivisor(5, c, q);
        } else {
          PowerDivisor(7, d, q);
        }
      }
    }
  }
}
