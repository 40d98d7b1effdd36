/**
  The CMSIS-DSP FFT backend: complex rows go through one interleaved scratch buffer, real rows through the library's
  packed spectrum {DC.re, Nyquist.re, X1.re, X1.im, ...}.
 */
module CmsisFft {
  import opened Buffers
  import opened ComplexNumbers
  import opened Dft
  import opened FftContract

  // ----- layouts -----

  /** Interleaved floats read as complex numbers. */
  function Deinterleave(s: seq<real>): (x: seq<Complex>)
    ensures |x| == |s| / 2
  {
    seq(|s| / 2, i requires 0 <= i < |s| / 2 => Complex(s[2 * i], s[2 * i + 1]))
  }

  function Interleave(x: seq<Complex>): (s: seq<real>)
    ensures |s| == 2 * |x|
  {
    seq(2 * |x|, i requires 0 <= i < 2 * |x| => if i % 2 == 0 then x[i / 2].re else x[i / 2].im)
  }

  lemma DeinterleaveInterleave(x: seq<Complex>)
    ensures Deinterleave(Interleave(x)) == x
  {}

  /** The library's packed form of N/2+1 bins: the imaginary parts of DC and Nyquist have no place in it. */
  function Packed(bins: seq<Complex>, n: nat): (p: seq<real>)
    requires n >= 2 && n % 2 == 0 && |bins| == BinCount(n)
    ensures |p| == n
  {
    seq(n, i requires 0 <= i < n =>
      if i == 0 then bins[0].re
      else if i == 1 then bins[n / 2].re
      else if i % 2 == 0 then bins[i / 2].re
      else bins[i / 2].im)
  }

  function Unpacked(p: seq<real>): (bins: seq<Complex>)
    requires |p| >= 2 && |p| % 2 == 0
    ensures |bins| == BinCount(|p|)
  {
    seq(BinCount(|p|), k requires 0 <= k < BinCount(|p|) =>
      if k == 0 then FromReal(p[0])
      else if 2 * k == |p| then FromReal(p[1])
      else Complex(p[2 * k], p[2 * k + 1]))
  }

  /** The floats of public bin `k`, read off the packed form. */
  lemma ExpandedAt(p: seq<real>, k: nat)
    requires |p| >= 2 && |p| % 2 == 0 && 2 * k <= |p|
    ensures var s := Interleave(Unpacked(p));
            && s[2 * k] == (if k == 0 then p[0] else if 2 * k == |p| then p[1] else p[2 * k])
            && s[2 * k + 1] == (if k == 0 || 2 * k == |p| then 0.0 else p[2 * k + 1])
  {
    assert (2 * k) / 2 == (2 * k + 1) / 2 == k && (2 * k) % 2 == 0 && (2 * k + 1) % 2 == 1;
  }

  /** The packed form, read off the floats of a row of public bins. */
  lemma PackedAt(row: seq<real>, n: nat, k: nat)
    requires n >= 2 && n % 2 == 0 && |row| == 2 * BinCount(n) && k < n / 2
    ensures var p := Packed(Deinterleave(row), n);
            && p[2 * k] == row[2 * k]
            && p[2 * k + 1] == if k == 0 then row[n] else row[2 * k + 1]
  {
    assert (2 * k) / 2 == (2 * k + 1) / 2 == k && (2 * k) % 2 == 0 && (2 * k + 1) % 2 == 1;
  }

  // ----- rows of interleaved buffers -----

  function ComplexRows(s: seq<real>, len: nat, batch: nat): (rows: seq<seq<Complex>>)
    requires batch * len <= |s|
    ensures |rows| == batch
    ensures forall b :: 0 <= b < batch ==> |rows[b]| == len / 2
  {
    var rows := Rows(s, len, batch);
    seq(|rows|, b requires 0 <= b < |rows| => Deinterleave(rows[b]))
  }

  lemma ComplexRowAt(s: seq<real>, len: nat, batch: nat, b: nat)
    requires batch * len <= |s| && b < batch
    ensures 0 <= b * len && b * len + len <= batch * len
    ensures ComplexRows(s, len, batch)[b] == Deinterleave(s[b * len..b * len + len])
  {
    RowAt(s, len, batch, b);
    hide Rows;
  }

  lemma SpliceComplexRow(s: seq<real>, len: nat, batch: nat, b: nat, x: seq<real>)
    requires batch * len <= |s| && b < batch && |x| == len
    ensures 0 <= b * len && b * len + len <= batch * len
    ensures ComplexRows(Splice(s, b * len, x), len, batch) == ComplexRows(s, len, batch)[b := Deinterleave(x)]
    ensures Splice(s, b * len, x)[batch * len..] == s[batch * len..]
  {
    SpliceRow(s, len, batch, b, x);
    hide Rows, Splice;
  }

  /** The packed form loses what the contract ignores and nothing else. */
  lemma UnpackedPacked(bins: seq<Complex>, n: nat)
    requires n >= 2 && n % 2 == 0 && |bins| == BinCount(n)
    ensures Unpacked(Packed(bins, n)) == Sanitize(bins, n)
  {}

  lemma PackedUnpacked(p: seq<real>)
    requires |p| >= 2 && |p| % 2 == 0
    ensures Packed(Unpacked(p), |p|) == p
  {
    forall i | 0 <= i < |p|
      ensures Packed(Unpacked(p), |p|)[i] == p[i]
    {
      if i >= 2 {
        assert i == 2 * (i / 2) + i % 2;
      }
    }
  }

  /** The bins of real input survive the packed form. */
  lemma PackedSpectrum(w: Complex, x: seq<real>)
    requires IsTwiddle(w, |x|) && |x| >= 2 && |x| % 2 == 0
    ensures Unpacked(Packed(RealToComplex(w, x), |x|)) == RealToComplex(w, x)
  {
    var n := |x|;
    UnpackedPacked(RealToComplex(w, x), n);
    HermitianSymmetry(w, x, 0);
    HermitianSymmetry(w, x, n / 2);
    hide IsTwiddle, Transform, Packed, Unpacked;
  }

  /** Packing before the inverse transform ignores what the contract ignores. */
  lemma PackedInput(w: Complex, bins: seq<Complex>, n: nat)
    requires IsTwiddle(w, n) && n >= 2 && n % 2 == 0 && |bins| == BinCount(n)
    ensures ComplexToReal(w, Unpacked(Packed(bins, n)), n) == ComplexToReal(w, bins, n)
  {
    UnpackedPacked(bins, n);
    assert Sanitize(Sanitize(bins, n), n) == Sanitize(bins, n);
    IgnoredParts(w, Sanitize(bins, n), bins, n);
    hide ComplexToReal, IsTwiddle, Packed, Unpacked;
  }

  // ----- the library, read as the reference transform -----

  /** The complex library call, in place; its inverse is already scaled by 1/N. */
  method LibraryCfft(w: Complex, a: array<real>, inverse: bool)
    requires a.Length % 2 == 0
    modifies a
    ensures Deinterleave(a[..]) == ComplexTransform(w, inverse, Deinterleave(old(a[..])))
  {
    hide ComplexTransform;
    var s := Interleave(ComplexTransform(w, inverse, Deinterleave(a[..])));
    DeinterleaveInterleave(ComplexTransform(w, inverse, Deinterleave(a[..])));
    forall i | 0 <= i < a.Length {
      a[i] := s[i];
    }
    assert a[..] == s;
  }

  /** The real library call: the forward direction leaves the packed spectrum in `b`. It may spoil `a`. */
  method LibraryRfftForward(w: Complex, a: array<real>, b: array<real>)
    requires a != b && a.Length == b.Length >= 2 && a.Length % 2 == 0
    modifies a, b
    ensures b[..] == Packed(RealToComplex(w, old(a[..])), a.Length)
  {
    hide RealToComplex, Packed;
    var p := Packed(RealToComplex(w, a[..]), a.Length);
    forall i | 0 <= i < b.Length {
      b[i] := p[i];
    }
    a[0] := 0.0;
  }

  /** The inverse direction reads the packed spectrum and leaves the samples, scaled by 1/N, in `b`. */
  method LibraryRfftInverse(w: Complex, a: array<real>, b: array<real>)
    requires a != b && a.Length == b.Length >= 2 && a.Length % 2 == 0
    modifies a, b
    ensures b[..] == ComplexToReal(w, Unpacked(old(a[..])), a.Length)
  {
    hide ComplexToReal, Unpacked;
    var x := ComplexToReal(w, Unpacked(a[..]), a.Length);
    forall i | 0 <= i < b.Length {
      b[i] := x[i];
    }
    a[0] := 0.0;
  }

  /** A complex plan: `a` holds one interleaved row. */
  class ComplexPlan {
    const n: nat
    const batch: nat
    const inverse: bool
    const w: Complex
    const a: array<real>

    ghost predicate Valid() {
      n >= 1 && IsTwiddle(w, n) && a.Length == 2 * n
    }

    constructor (n: nat, batch: nat, inverse: bool, w: Complex)
      requires IsTwiddle(w, n)
      ensures Valid() && fresh(a) && this.n == n && this.batch == batch && this.inverse == inverse && this.w == w
    {
      this.n, this.batch, this.inverse, this.w := n, batch, inverse, w;
      a := new real[2 * n](_ => 0.0);
    }

    /** The rows of a caller's buffer, as complex numbers. */
    ghost function RowsOf(buffer: array<real>): (rows: seq<seq<Complex>>)
      requires batch * (2 * n) <= buffer.Length
      reads buffer
      ensures |rows| == batch
      ensures forall b :: 0 <= b < batch ==> |rows[b]| == n
    {
      ComplexRows(buffer[..], 2 * n, batch)
    }

    /** One pass of the batch loop. */
    method ExecuteRow(input: array<real>, output: array<real>, b: nat)
      requires Valid() && b < batch && a != input && a != output
      requires batch * (2 * n) <= input.Length && batch * (2 * n) <= output.Length
      modifies a, output
      ensures RowsOf(output)
           == old(RowsOf(output))[b := ComplexTransform(w, inverse, old(RowsOf(input)[b]))]
      ensures !inverse ==> RowsOf(output)[b] == Transform(w, old(RowsOf(input)[b]))
      ensures inverse ==> Transform(w, RowsOf(output)[b]) == old(RowsOf(input)[b])
      ensures output[batch * (2 * n)..] == old(output[batch * (2 * n)..])
    {
      hide ComplexTransform, Transform, ComplexRows, Splice, Deinterleave, IsTwiddle;
      DirectionsOfComplexTransform(w, inverse, RowsOf(input)[b]);
      ComplexRowAt(input[..], 2 * n, batch, b);
      ComplexRowAt(output[..], 2 * n, batch, b);
      var off := b * (2 * n);
      CopyIn(input, off, a);
      ghost var output0 := output[..];
      LibraryCfft(w, a, inverse);
      SpliceComplexRow(output0, 2 * n, batch, b, a[..]);
      CopyOut(a, output, off);
    }

    /** Input and output may be the same buffer: every row goes through the plan's own scratch. */
    method Execute(input: array<real>, output: array<real>)
      requires Valid() && a != input && a != output
      requires batch * (2 * n) <= input.Length && batch * (2 * n) <= output.Length
      modifies a, output
      ensures forall b :: 0 <= b < batch ==>
        RowsOf(output)[b] == ComplexTransform(w, inverse, old(RowsOf(input)[b]))
      ensures !inverse ==> forall b :: 0 <= b < batch ==> RowsOf(output)[b] == Transform(w, old(RowsOf(input)[b]))
      ensures inverse ==> forall b :: 0 <= b < batch ==> Transform(w, RowsOf(output)[b]) == old(RowsOf(input)[b])
      ensures output[batch * (2 * n)..] == old(output[batch * (2 * n)..])
    {
      hide ComplexTransform, Transform, ComplexRows, IsTwiddle;
      for b := 0 to batch
        invariant forall c :: 0 <= c < b ==>
          RowsOf(output)[c] == ComplexTransform(w, inverse, old(RowsOf(input)[c]))
        invariant forall c :: b <= c < batch ==> RowsOf(input)[c] == old(RowsOf(input)[c])
        invariant output[batch * (2 * n)..] == old(output[batch * (2 * n)..])
      {
        ghost var rows := RowsOf(input);
        ExecuteRow(input, output, b);
        assert input != output ==> RowsOf(input) == rows;
      }
      DirectionsOfRows(w, inverse, n, old(RowsOf(input)), RowsOf(output));
    }
  }

  /** A real plan, for either type: `a` and `b` are the library's buffers. */
  class RealPlan {
    const n: nat
    const batch: nat
    const bins: nat
    const w: Complex
    const a: array<real>
    const b: array<real>

    /** The library's initializer refuses every length that is not a power of two from 32 on; an even one will do. */
    ghost predicate Valid() {
      && n >= 2 && n % 2 == 0 && IsTwiddle(w, n) && bins == BinCount(n)
      && a != b && a.Length == b.Length == n
    }

    constructor (n: nat, batch: nat, w: Complex)
      requires n >= 2 && n % 2 == 0 && IsTwiddle(w, n)
      ensures Valid() && fresh(a) && fresh(b) && this.n == n && this.batch == batch && this.w == w
    {
      this.n, this.batch, this.bins, this.w := n, batch, n / 2 + 1, w;
      a := new real[n](_ => 0.0);
      b := new real[n](_ => 0.0);
    }

    ghost function BinRows(buffer: array<real>): (rows: seq<seq<Complex>>)
      requires batch * (2 * bins) <= buffer.Length
      reads buffer
      ensures |rows| == batch
      ensures forall r :: 0 <= r < batch ==> |rows[r]| == bins
    {
      ComplexRows(buffer[..], 2 * bins, batch)
    }

    /** Packed spectrum to public bins. */
    method ExpandPacked(output: array<real>, off: nat)
      requires Valid() && output != b && off + 2 * bins <= output.Length
      modifies output
      ensures output[..] == Splice(old(output[..]), off, Interleave(Unpacked(b[..])))
    {
      hide IsTwiddle, Splice, Interleave, Unpacked;
      var half := n / 2;
      ghost var packed := b[..];
      ghost var s := Interleave(Unpacked(packed));
      ExpandedAt(packed, 0);
      ExpandedAt(packed, half);
      output[off] := b[0];
      output[off + 1] := 0.0;
      output[off + 2 * half] := b[1];
      output[off + 2 * half + 1] := 0.0;
      for k := 1 to half
        invariant forall p :: 0 <= p < output.Length ==>
          output[p] == if off <= p < off + 2 * k || off + 2 * half <= p < off + 2 * half + 2 then s[p - off]
                       else old(output[p])
      {
        ExpandedAt(packed, k);
        output[off + 2 * k] := b[2 * k];
        output[off + 2 * k + 1] := b[2 * k + 1];
      }
      IsSplice(old(output[..]), off, s, output[..]);
    }

    /** Public bins to packed spectrum; the imaginary parts of DC and Nyquist are not read. */
    method PackBins(input: array<real>, off: nat)
      requires Valid() && input != a && off + 2 * bins <= input.Length
      modifies a
      ensures a[..] == Packed(Deinterleave(input[..][off..off + 2 * bins]), n)
    {
      hide IsTwiddle, Packed, Deinterleave;
      var half := n / 2;
      ghost var row := input[..][off..off + 2 * bins];
      ghost var p := Packed(Deinterleave(row), n);
      PackedAt(row, n, 0);
      a[0] := input[off];
      a[1] := input[off + 2 * half];
      for k := 1 to half
        invariant forall i :: 0 <= i < 2 * k ==> a[i] == p[i]
      {
        PackedAt(row, n, k);
        a[2 * k] := input[off + 2 * k];
        a[2 * k + 1] := input[off + 2 * k + 1];
      }
      assert row == input[..][off..off + 2 * bins];
    }

    /** One row, real to complex. */
    method ForwardRow(input: array<real>, output: array<real>, r: nat)
      requires Valid() && r < batch && input != output && a != input && a != output && b != input && b != output
      requires batch * n <= input.Length && batch * (2 * bins) <= output.Length
      modifies a, b, output
      ensures BinRows(output) == old(BinRows(output))[r := RealToComplex(w, RowsIn(input, n, batch)[r])]
      ensures output[batch * (2 * bins)..] == old(output[batch * (2 * bins)..])
    {
      hide RealToComplex, Rows, ComplexRows, Splice, Deinterleave, Interleave, IsTwiddle, Packed, Unpacked;
      RowAt(input[..], n, batch, r);
      ComplexRowAt(output[..], 2 * bins, batch, r);
      var from, to := r * n, r * (2 * bins);
      ghost var x, output0 := input[..][from..from + n], output[..];
      CopyIn(input, from, a);
      LibraryRfftForward(w, a, b);
      PackedSpectrum(w, x);
      DeinterleaveInterleave(RealToComplex(w, x));
      SpliceComplexRow(output0, 2 * bins, batch, r, Interleave(RealToComplex(w, x)));
      ExpandPacked(output, to);
    }

    /** Real to complex: every row gets the first N/2+1 bins of the reference transform of its samples. */
    method ExecuteForward(input: array<real>, output: array<real>)
      requires Valid() && input != output && a != input && a != output && b != input && b != output
      requires batch * n <= input.Length && batch * (2 * bins) <= output.Length
      modifies a, b, output
      ensures forall r :: 0 <= r < batch ==> BinRows(output)[r] == RealToComplex(w, RowsIn(input, n, batch)[r])
      ensures output[batch * (2 * bins)..] == old(output[batch * (2 * bins)..])
    {
      hide RealToComplex, BinRows, RowsIn, IsTwiddle;
      ghost var rows := RowsIn(input, n, batch);
      for r := 0 to batch
        invariant RowsIn(input, n, batch) == rows
        invariant forall c :: 0 <= c < r ==> BinRows(output)[c] == RealToComplex(w, rows[c])
        invariant output[batch * (2 * bins)..] == old(output[batch * (2 * bins)..])
      {
        ForwardRow(input, output, r);
      }
    }

    /** One row, complex to real. */
    method InverseRow(input: array<real>, output: array<real>, r: nat)
      requires Valid() && r < batch && input != output && a != input && a != output && b != input && b != output
      requires batch * (2 * bins) <= input.Length && batch * n <= output.Length
      modifies a, b, output
      ensures RowsIn(output, n, batch) == old(RowsIn(output, n, batch))[r := ComplexToReal(w, BinRows(input)[r], n)]
      ensures output[batch * n..] == old(output[batch * n..])
    {
      hide ComplexToReal, Rows, ComplexRows, Splice, Deinterleave, Interleave, IsTwiddle, Packed, Unpacked;
      ComplexRowAt(input[..], 2 * bins, batch, r);
      RowAt(output[..], n, batch, r);
      var from, to := r * (2 * bins), r * n;
      ghost var row, output0 := input[..][from..from + 2 * bins], output[..];
      PackBins(input, from);
      PackedInput(w, Deinterleave(row), n);
      LibraryRfftInverse(w, a, b);
      SpliceRow(output0, n, batch, r, b[..]);
      CopyOut(b, output, to);
    }

    /** Complex to real: every row gets the real samples of its bins, scaled by 1/N. */
    method ExecuteInverse(input: array<real>, output: array<real>)
      requires Valid() && input != output && a != input && a != output && b != input && b != output
      requires batch * (2 * bins) <= input.Length && batch * n <= output.Length
      modifies a, b, output
      ensures forall r :: 0 <= r < batch ==> RowsIn(output, n, batch)[r] == ComplexToReal(w, BinRows(input)[r], n)
      ensures output[batch * n..] == old(output[batch * n..])
    {
      hide ComplexToReal, BinRows, RowsIn, IsTwiddle;
      ghost var rows := BinRows(input);
      for r := 0 to batch
        invariant BinRows(input) == rows
        invariant forall c :: 0 <= c < r ==> RowsIn(output, n, batch)[c] == ComplexToReal(w, rows[c], n)
        invariant output[batch * n..] == old(output[batch * n..])
      {
        InverseRow(input, output, r);
      }
    }
  }

  // ----- round trips -----

  /** A forward and an inverse complex plan undo each other on every row, whatever buffers coincide. */
  method ComplexRoundTripOfRows(forward: ComplexPlan, inverse: ComplexPlan, input: array<real>, freq: array<real>,
                                back: array<real>)
    requires forward.Valid() && inverse.Valid() && !forward.inverse && inverse.inverse
    requires forward.n == inverse.n && forward.batch == inverse.batch && forward.w == inverse.w
    requires {input, freq, back} !! {forward.a, inverse.a} && forward.a != inverse.a
    requires forward.batch * (2 * forward.n) <= input.Length && forward.batch * (2 * forward.n) <= freq.Length
    requires forward.batch * (2 * forward.n) <= back.Length
    modifies forward.a, inverse.a, freq, back
    ensures inverse.RowsOf(back) == old(forward.RowsOf(input))
  {
    hide Forward, Inverse, ComplexRows, IsTwiddle;
    ghost var rows := forward.RowsOf(input);
    forward.Execute(input, freq);
    inverse.Execute(freq, back);
    forall b | 0 <= b < forward.batch
      ensures inverse.RowsOf(back)[b] == rows[b]
    {
      InverseOfForward(forward.w, rows[b]);
    }
  }

  /** Real samples survive real-to-complex followed by complex-to-real, row by row. */
  method RealRoundTripOfRows(forward: RealPlan, inverse: RealPlan, input: array<real>, spec: array<real>,
                             back: array<real>)
    requires forward.Valid() && inverse.Valid()
    requires forward.n == inverse.n && forward.batch == inverse.batch && forward.w == inverse.w
    requires input != spec && input != back && spec != back
    requires {input, spec, back} !! {forward.a, forward.b, inverse.a, inverse.b}
    requires {forward.a, forward.b} !! {inverse.a, inverse.b}
    requires forward.batch * forward.n <= input.Length && forward.batch * (2 * forward.bins) <= spec.Length
    requires forward.batch * forward.n <= back.Length
    modifies forward.a, forward.b, inverse.a, inverse.b, spec, back
    ensures RowsIn(back, inverse.n, inverse.batch) == RowsIn(input, forward.n, forward.batch)
  {
    hide RealToComplex, ComplexToReal, Rows, ComplexRows;
    forward.ExecuteForward(input, spec);
    ghost var rows := RowsIn(input, forward.n, forward.batch);
    inverse.ExecuteInverse(spec, back);
    assert RowsIn(input, forward.n, forward.batch) == rows;
    forall r | 0 <= r < forward.batch
      ensures RowsIn(back, inverse.n, inverse.batch)[r] == rows[r]
    {
      RealRoundTrip(forward.w, rows[r]);
    }
  }

  /**
    The way from public bins to samples and back: every row comes back as it was, with the imaginary parts of its DC and
    Nyquist bins cleared.
   */
  method BinsRoundTripOfRows(inverse: RealPlan, forward: RealPlan, spec: array<real>, samples: array<real>,
                             back: array<real>)
    requires forward.Valid() && inverse.Valid()
    requires forward.n == inverse.n && forward.batch == inverse.batch && forward.w == inverse.w
    requires spec != samples && spec != back && samples != back
    requires {spec, samples, back} !! {forward.a, forward.b, inverse.a, inverse.b}
    requires {forward.a, forward.b} !! {inverse.a, inverse.b}
    requires forward.batch * (2 * forward.bins) <= spec.Length && forward.batch * forward.n <= samples.Length
    requires forward.batch * (2 * forward.bins) <= back.Length
    modifies forward.a, forward.b, inverse.a, inverse.b, samples, back
    ensures forall r :: 0 <= r < forward.batch ==>
      forward.BinRows(back)[r] == Sanitize(inverse.BinRows(spec)[r], forward.n)
  {
    hide RealToComplex, ComplexToReal, Sanitize, RowsIn, ComplexRows;
    ghost var rows := inverse.BinRows(spec);
    inverse.ExecuteInverse(spec, samples);
    forward.ExecuteForward(samples, back);
    assert inverse.BinRows(spec) == rows;
    forall r | 0 <= r < forward.batch
      ensures forward.BinRows(back)[r] == Sanitize(rows[r], forward.n)
    {
      BinsRoundTrip(forward.w, rows[r], forward.n);
    }
  }
}
