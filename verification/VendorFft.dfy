/**
  The backends that get an unscaled transform from their library and add the 1/N of the contract themselves: ArmPL,
  which makes one library call for the whole batch and scales its output flat, and KFR, which transforms and scales row
  by row.
 */
module VendorFft {
  import opened Buffers
  import opened ComplexNumbers
  import opened Dft
  import opened FftContract

  // ----- the libraries, read as the reference transform -----

  function Direction(w: Complex, inverse: bool): Complex {
    if inverse then Conj(w) else w
  }

  /** FFTW's many-transform call on rows of complex numbers, unscaled in both directions. */
  method LibraryMany(w: Complex, n: nat, batch: nat, input: array<Complex>, output: array<Complex>)
    requires input != output && batch * n <= input.Length && batch * n <= output.Length
    modifies output
    ensures forall b :: 0 <= b < batch ==>
      RowsIn(output, n, batch)[b] == Transform(w, RowsIn(input, n, batch)[b])
    ensures output[..][batch * n..] == old(output[..])[batch * n..]
  {
    hide Transform, Rows;
    var rows := RowsIn(input, n, batch);
    for b := 0 to batch
      invariant input[..] == old(input[..])
      invariant forall c :: 0 <= c < b ==> RowsIn(output, n, batch)[c] == Transform(w, rows[c])
      invariant output[..][batch * n..] == old(output[..])[batch * n..]
    {
      WriteRow(output, n, batch, b, Transform(w, rows[b]));
    }
  }

  /** The real-to-complex call: the first N/2+1 bins of every row. */
  method LibraryManyR2C(w: Complex, n: nat, batch: nat, input: array<real>, output: array<Complex>)
    requires n >= 1 && batch * n <= input.Length && batch * BinCount(n) <= output.Length
    modifies output
    ensures forall b :: 0 <= b < batch ==>
      RowsIn(output, BinCount(n), batch)[b] == RealToComplex(w, RowsIn(input, n, batch)[b])
    ensures output[..][batch * BinCount(n)..] == old(output[..])[batch * BinCount(n)..]
  {
    hide RealToComplex, Rows, BinCount;
    var rows := RowsIn(input, n, batch);
    for b := 0 to batch
      invariant input[..] == old(input[..])
      invariant forall c :: 0 <= c < b ==> RowsIn(output, BinCount(n), batch)[c] == RealToComplex(w, rows[c])
      invariant output[..][batch * BinCount(n)..] == old(output[..])[batch * BinCount(n)..]
    {
      WriteRow(output, BinCount(n), batch, b, RealToComplex(w, rows[b]));
    }
  }

  /** What the complex-to-real call computes: the inverse transform of the full spectrum, without 1/N. */
  function UnscaledReal(w: Complex, bins: seq<Complex>, n: nat): (x: seq<real>)
    requires n >= 1 && |bins| == BinCount(n)
    ensures |x| == n
  {
    RealParts(Transform(Conj(w), Expand(bins, n)))
  }

  /** The call is free to use its input as scratch: the plan does not ask for it to be preserved. */
  method LibraryManyC2R(w: Complex, n: nat, batch: nat, input: array<Complex>, output: array<real>)
    requires n >= 1 && batch * BinCount(n) <= input.Length && batch * n <= output.Length
    modifies input, output
    ensures forall b :: 0 <= b < batch ==>
      RowsIn(output, n, batch)[b] == UnscaledReal(w, old(RowsIn(input, BinCount(n), batch)[b]), n)
    ensures output[..][batch * n..] == old(output[..])[batch * n..]
  {
    hide UnscaledReal, Rows, BinCount;
    var rows := RowsIn(input, BinCount(n), batch);
    for b := 0 to batch
      invariant forall c :: 0 <= c < b ==> RowsIn(output, n, batch)[c] == UnscaledReal(w, rows[c], n)
      invariant output[..][batch * n..] == old(output[..])[batch * n..]
    {
      WriteRow(output, n, batch, b, UnscaledReal(w, rows[b], n));
    }
    if input.Length > 0 {
      input[0] := ZERO;
    }
  }

  // ----- scaling -----

  function ScaleReals(r: real, x: seq<real>): (y: seq<real>)
    ensures |y| == |x|
  {
    seq(|x|, i requires 0 <= i < |x| => r * x[i])
  }

  /** Scaling a flat buffer scales every row. */
  lemma FlatScaling(r: real, s: seq<Complex>, t: seq<Complex>, n: nat, batch: nat, b: nat)
    requires batch * n <= |s| == |t| && b < batch
    requires forall p :: 0 <= p < batch * n ==> t[p] == Scale(r, s[p])
    ensures Rows(t, n, batch)[b] == ScaleAll(r, Rows(s, n, batch)[b])
  {
    hide Scale, Rows;
    forall i | 0 <= i < n
      ensures Rows(t, n, batch)[b][i] == Scale(r, Rows(s, n, batch)[b][i])
    {
      RowElement(s, n, batch, b, i);
      RowElement(t, n, batch, b, i);
    }
  }

  lemma FlatRealScaling(r: real, s: seq<real>, t: seq<real>, n: nat, batch: nat, b: nat)
    requires batch * n <= |s| == |t| && b < batch
    requires forall p :: 0 <= p < batch * n ==> t[p] == r * s[p]
    ensures Rows(t, n, batch)[b] == ScaleReals(r, Rows(s, n, batch)[b])
  {
    hide Rows;
    forall i | 0 <= i < n
      ensures Rows(t, n, batch)[b][i] == ScaleReals(r, Rows(s, n, batch)[b])[i]
    {
      RowElement(s, n, batch, b, i);
      RowElement(t, n, batch, b, i);
    }
  }

  /** The scaled real parts are the real parts of the scaled spectrum. */
  lemma ScaledReal(w: Complex, bins: seq<Complex>, n: nat)
    requires n >= 1 && |bins| == BinCount(n)
    ensures ScaleReals(1.0 / n as real, UnscaledReal(w, bins, n)) == ComplexToReal(w, bins, n)
  {
    hide Transform, Expand;
    var full := Transform(Conj(w), Expand(bins, n));
    var r := 1.0 / n as real;
    forall i | 0 <= i < n
      ensures ScaleReals(r, RealParts(full))[i] == RealParts(ScaleAll(r, full))[i]
    {}
  }

  // ----- ArmPL -----

  class ArmplPlan {
    const n: nat
    const batch: nat
    const inverse: bool
    const w: Complex

    ghost predicate Valid() {
      n >= 1 && IsTwiddle(w, n)
    }

    constructor (n: nat, batch: nat, inverse: bool, w: Complex)
      requires IsTwiddle(w, n)
      ensures Valid() && this.n == n && this.batch == batch && this.inverse == inverse && this.w == w
    {
      this.n, this.batch, this.inverse, this.w := n, batch, inverse, w;
    }

    /** 1/N, exactly once, on each of the n * batch elements, and on nothing after them. */
    method NormalizeComplex(output: array<Complex>)
      requires n >= 1 && batch * n <= output.Length
      modifies output
      ensures forall b :: 0 <= b < batch ==>
        RowsIn(output, n, batch)[b] == ScaleAll(1.0 / n as real, old(RowsIn(output, n, batch)[b]))
      ensures output[..][batch * n..] == old(output[..])[batch * n..]
    {
      hide Scale, ScaleAll, Rows;
      var inv := 1.0 / n as real;
      var count := n * batch;
      for i := 0 to count
        invariant forall p :: 0 <= p < output.Length ==>
          output[p] == if p < i then Scale(inv, old(output[p])) else old(output[p])
      {
        output[i] := Scale(inv, output[i]);
      }
      forall b | 0 <= b < batch
        ensures RowsIn(output, n, batch)[b] == ScaleAll(inv, old(RowsIn(output, n, batch)[b]))
      {
        FlatScaling(inv, old(output[..]), output[..], n, batch, b);
      }
    }

    method NormalizeReal(output: array<real>)
      requires n >= 1 && batch * n <= output.Length
      modifies output
      ensures forall b :: 0 <= b < batch ==>
        RowsIn(output, n, batch)[b] == ScaleReals(1.0 / n as real, old(RowsIn(output, n, batch)[b]))
      ensures output[..][batch * n..] == old(output[..])[batch * n..]
    {
      hide ScaleReals, Rows;
      var inv := 1.0 / n as real;
      var count := n * batch;
      for i := 0 to count
        invariant forall p :: 0 <= p < output.Length ==>
          output[p] == if p < i then inv * old(output[p]) else old(output[p])
      {
        output[i] := inv * output[i];
      }
      forall b | 0 <= b < batch
        ensures RowsIn(output, n, batch)[b] == ScaleReals(inv, old(RowsIn(output, n, batch)[b]))
      {
        FlatRealScaling(inv, old(output[..]), output[..], n, batch, b);
      }
    }

    method ExecuteComplex(input: array<Complex>, output: array<Complex>)
      requires Valid() && input != output && batch * n <= input.Length && batch * n <= output.Length
      modifies output
      ensures forall b :: 0 <= b < batch ==>
        RowsIn(output, n, batch)[b] == ComplexTransform(w, inverse, RowsIn(input, n, batch)[b])
      ensures !inverse ==> forall b :: 0 <= b < batch ==>
        RowsIn(output, n, batch)[b] == Transform(w, RowsIn(input, n, batch)[b])
      ensures inverse ==> forall b :: 0 <= b < batch ==>
        Transform(w, RowsIn(output, n, batch)[b]) == RowsIn(input, n, batch)[b]
      ensures output[..][batch * n..] == old(output[..])[batch * n..]
    {
      hide IsTwiddle, Transform, ScaleAll, Rows;
      LibraryMany(Direction(w, inverse), n, batch, input, output);
      assert input[..] == old(input[..]);
      if inverse {
        NormalizeComplex(output);
        assert input[..] == old(input[..]);
      }
      DirectionsOfRows(w, inverse, n, RowsIn(input, n, batch), RowsIn(output, n, batch));
    }

    method ExecuteRealToComplex(input: array<real>, output: array<Complex>)
      requires Valid() && !inverse && batch * n <= input.Length && batch * BinCount(n) <= output.Length
      modifies output
      ensures forall b :: 0 <= b < batch ==>
        RowsIn(output, BinCount(n), batch)[b] == RealToComplex(w, RowsIn(input, n, batch)[b])
      ensures output[..][batch * BinCount(n)..] == old(output[..])[batch * BinCount(n)..]
    {
      hide IsTwiddle, RealToComplex, Rows;
      LibraryManyR2C(w, n, batch, input, output);
    }

    /** The samples of the bins as they were on entry; the library may leave anything in the input buffer. */
    method ExecuteComplexToReal(input: array<Complex>, output: array<real>)
      requires Valid() && inverse && batch * BinCount(n) <= input.Length && batch * n <= output.Length
      modifies input, output
      ensures forall b :: 0 <= b < batch ==>
        RowsIn(output, n, batch)[b] == ComplexToReal(w, old(RowsIn(input, BinCount(n), batch)[b]), n)
      ensures output[..][batch * n..] == old(output[..])[batch * n..]
    {
      hide IsTwiddle, ComplexToReal, UnscaledReal, ScaleReals, Rows;
      ghost var bins := RowsIn(input, BinCount(n), batch);
      LibraryManyC2R(w, n, batch, input, output);
      NormalizeReal(output);
      forall b | 0 <= b < batch
        ensures RowsIn(output, n, batch)[b] == ComplexToReal(w, bins[b], n)
      {
        ScaledReal(w, bins[b], n);
      }
    }
  }

  // ----- KFR -----

  /** KFR's plan: one row, unscaled, in place or not. */
  method LibraryRow(w: Complex, n: nat, batch: nat, b: nat, input: array<Complex>, output: array<Complex>)
    requires b < batch && batch * n <= input.Length && batch * n <= output.Length
    modifies output
    ensures RowsIn(output, n, batch)
         == old(RowsIn(output, n, batch))[b := Transform(w, old(RowsIn(input, n, batch)[b]))]
    ensures output[..][batch * n..] == old(output[..])[batch * n..]
  {
    hide Transform, Rows;
    WriteRow(output, n, batch, b, Transform(w, RowsIn(input, n, batch)[b]));
  }

  class KfrPlan {
    const n: nat
    const batch: nat
    const inverse: bool
    const w: Complex

    ghost predicate Valid() {
      n >= 1 && IsTwiddle(w, n)
    }

    constructor (n: nat, batch: nat, inverse: bool, w: Complex)
      requires IsTwiddle(w, n)
      ensures Valid() && this.n == n && this.batch == batch && this.inverse == inverse && this.w == w
    {
      this.n, this.batch, this.inverse, this.w := n, batch, inverse, w;
    }

    /** Scale one row in place. */
    method ScaleRow(output: array<Complex>, b: nat)
      requires n >= 1 && b < batch && batch * n <= output.Length
      modifies output
      ensures RowsIn(output, n, batch)
           == old(RowsIn(output, n, batch))[b := ScaleAll(1.0 / n as real, old(RowsIn(output, n, batch)[b]))]
      ensures output[..][batch * n..] == old(output[..])[batch * n..]
    {
      hide Scale, Rows, Splice;
      var inv := 1.0 / n as real;
      RowAt(output[..], n, batch, b);
      var off := b * n;
      ghost var row := output[..][off..off + n];
      for i := 0 to n
        invariant forall p :: 0 <= p < output.Length ==>
          output[p] == if off <= p < off + i then Scale(inv, row[p - off]) else old(output[p])
      {
        assert output[off + i] == row[i];
        output[off + i] := Scale(inv, output[off + i]);
      }
      IsSplice(old(output[..]), off, ScaleAll(inv, row), output[..]);
      SpliceRow(old(output[..]), n, batch, b, ScaleAll(inv, row));
    }

    /**
      Row by row, with the same result as the flat scaling of `ArmplPlan.ExecuteComplex`. Input and output may be the
      same buffer: a row is read before it is written, and the rows after it are not touched.
     */
    method Execute(input: array<Complex>, output: array<Complex>)
      requires Valid() && batch * n <= input.Length && batch * n <= output.Length
      modifies output
      ensures forall b :: 0 <= b < batch ==>
        RowsIn(output, n, batch)[b] == ComplexTransform(w, inverse, old(RowsIn(input, n, batch)[b]))
      ensures !inverse ==> forall b :: 0 <= b < batch ==>
        RowsIn(output, n, batch)[b] == Transform(w, old(RowsIn(input, n, batch)[b]))
      ensures inverse ==> forall b :: 0 <= b < batch ==>
        Transform(w, RowsIn(output, n, batch)[b]) == old(RowsIn(input, n, batch)[b])
      ensures output[..][batch * n..] == old(output[..])[batch * n..]
    {
      hide IsTwiddle, Transform, ScaleAll, Rows;
      for b := 0 to batch
        invariant forall c :: b <= c < batch ==> RowsIn(input, n, batch)[c] == old(RowsIn(input, n, batch)[c])
        invariant forall c :: 0 <= c < b ==>
          RowsIn(output, n, batch)[c] == ComplexTransform(w, inverse, old(RowsIn(input, n, batch)[c]))
        invariant output[..][batch * n..] == old(output[..])[batch * n..]
      {
        ghost var input0 := input[..];
        LibraryRow(Direction(w, inverse), n, batch, b, input, output);
        assert input != output ==> input[..] == input0;
        if inverse {
          ScaleRow(output, b);
          assert input != output ==> input[..] == input0;
        }
      }
      DirectionsOfRows(w, inverse, n, old(RowsIn(input, n, batch)), RowsIn(output, n, batch));
    }
  }

  // ----- the round trips, with the library calls in between -----

  /** A forward and an inverse plan of ArmPL undo each other on every row. */
  method ArmplRoundTrip(forward: ArmplPlan, inverse: ArmplPlan, input: array<Complex>, freq: array<Complex>,
                        back: array<Complex>)
    requires forward.Valid() && inverse.Valid() && !forward.inverse && inverse.inverse
    requires forward.n == inverse.n && forward.batch == inverse.batch && forward.w == inverse.w
    requires input != freq && freq != back
    requires forward.batch * forward.n <= input.Length && forward.batch * forward.n <= freq.Length
    requires forward.batch * forward.n <= back.Length
    modifies freq, back
    ensures RowsIn(back, inverse.n, inverse.batch) == old(RowsIn(input, forward.n, forward.batch))
  {
    hide Forward, Inverse, Rows;
    ghost var rows := RowsIn(input, forward.n, forward.batch);
    forward.ExecuteComplex(input, freq);
    assert RowsIn(input, forward.n, forward.batch) == rows;
    inverse.ExecuteComplex(freq, back);
    forall b | 0 <= b < forward.batch
      ensures RowsIn(back, inverse.n, inverse.batch)[b] == rows[b]
    {
      InverseOfForward(forward.w, rows[b]);
    }
  }

  /** The same for KFR, whatever buffers coincide. */
  method KfrRoundTrip(forward: KfrPlan, inverse: KfrPlan, input: array<Complex>, freq: array<Complex>,
                      back: array<Complex>)
    requires forward.Valid() && inverse.Valid() && !forward.inverse && inverse.inverse
    requires forward.n == inverse.n && forward.batch == inverse.batch && forward.w == inverse.w
    requires forward.batch * forward.n <= input.Length && forward.batch * forward.n <= freq.Length
    requires forward.batch * forward.n <= back.Length
    modifies freq, back
    ensures RowsIn(back, inverse.n, inverse.batch) == old(RowsIn(input, forward.n, forward.batch))
  {
    hide Forward, Inverse, Rows;
    ghost var rows := RowsIn(input, forward.n, forward.batch);
    forward.Execute(input, freq);
    inverse.Execute(freq, back);
    forall b | 0 <= b < forward.batch
      ensures RowsIn(back, inverse.n, inverse.batch)[b] == rows[b]
    {
      InverseOfForward(forward.w, rows[b]);
    }
  }

  /** And the backends may be mixed: what KFR transformed, ArmPL transforms back. */
  method ComplexRoundTrip(forward: KfrPlan, inverse: ArmplPlan, input: array<Complex>, freq: array<Complex>,
                          back: array<Complex>)
    requires forward.Valid() && inverse.Valid() && !forward.inverse && inverse.inverse
    requires forward.n == inverse.n && forward.batch == inverse.batch && forward.w == inverse.w
    requires freq != back
    requires forward.batch * forward.n <= input.Length && forward.batch * forward.n <= freq.Length
    requires forward.batch * forward.n <= back.Length
    modifies freq, back
    ensures RowsIn(back, inverse.n, inverse.batch) == old(RowsIn(input, forward.n, forward.batch))
  {
    hide Forward, Inverse, Rows;
    ghost var rows := RowsIn(input, forward.n, forward.batch);
    forward.Execute(input, freq);
    inverse.ExecuteComplex(freq, back);
    forall b | 0 <= b < forward.batch
      ensures RowsIn(back, inverse.n, inverse.batch)[b] == rows[b]
    {
      InverseOfForward(forward.w, rows[b]);
    }
  }

  /** Real samples survive the way to N/2+1 bins and back, for even and odd lengths. */
  method RealRoundTripOfRows(forward: ArmplPlan, inverse: ArmplPlan, input: array<real>, spec: array<Complex>,
                             back: array<real>)
    requires forward.Valid() && inverse.Valid() && !forward.inverse && inverse.inverse
    requires forward.n == inverse.n && forward.batch == inverse.batch && forward.w == inverse.w
    requires input != back
    requires forward.batch * forward.n <= input.Length && forward.batch * BinCount(forward.n) <= spec.Length
    requires forward.batch * forward.n <= back.Length
    modifies spec, back
    ensures RowsIn(back, inverse.n, inverse.batch) == RowsIn(input, forward.n, forward.batch)
  {
    hide RealToComplex, ComplexToReal, Rows, BinCount;
    forward.ExecuteRealToComplex(input, spec);
    ghost var rows := RowsIn(input, forward.n, forward.batch);
    inverse.ExecuteComplexToReal(spec, back);
    assert RowsIn(input, forward.n, forward.batch) == rows;
    forall b | 0 <= b < forward.batch
      ensures RowsIn(back, inverse.n, inverse.batch)[b] == rows[b]
    {
      RealRoundTrip(forward.w, rows[b]);
    }
  }
}
