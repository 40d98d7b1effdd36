/**
  The meaning of the FIR plans: the one-shot reference filter over the whole stream, and the form with a delay line
  that every streaming backend computes block by block.
 */
module FirSpec {

  /**
    What the code asks of a sample type `S` and a tap type `T`: the zero sample and `acc + x * tap`. Real plans,
    complex plans with real taps and complex plans are three instances (see FirArithmetic).
   */
  datatype Arith<!S(!new), !T(!new)> = Arith(zero: S, mac: (S, S, T) -> S)
  {
    /** Adding the zero sample times a tap changes nothing. */
    ghost predicate Lawful() {
      forall acc, tap :: mac(acc, zero, tap) == acc
    }
  }

  // ----- the one-shot reference -----

  /** The accumulator of output `i` after the first `k` taps; samples before the stream are left out of the sum. */
  function RefAcc<S(!new), T(!new)>(ar: Arith<S, T>, x: seq<S>, taps: seq<T>, i: nat, k: nat): S
    requires i < |x| && k <= |taps|
  {
    if k == 0 then ar.zero
    else if i >= k - 1 then ar.mac(RefAcc(ar, x, taps, i, k - 1), x[i - (k - 1)], taps[k - 1])
    else RefAcc(ar, x, taps, i, k - 1)
  }

  function RefFir<S(!new), T(!new)>(ar: Arith<S, T>, x: seq<S>, taps: seq<T>): (y: seq<S>)
    ensures |y| == |x|
  {
    seq(|x|, i requires 0 <= i < |x| => RefAcc(ar, x, taps, i, |taps|))
  }

  /** The reference filter of the tests, loop for loop. */
  method ReferenceFir<S(!new), T(!new)>(ar: Arith<S, T>, x: seq<S>, taps: seq<T>) returns (out: array<S>)
    ensures fresh(out)
    ensures out[..] == RefFir(ar, x, taps)
  {
    out := new S[|x|](_ => ar.zero);
    for i := 0 to |x|
      invariant forall j :: 0 <= j < i ==> out[j] == RefAcc(ar, x, taps, j, |taps|)
    {
      var acc := ar.zero;
      for k := 0 to |taps|
        invariant acc == RefAcc(ar, x, taps, i, k)
      {
        if i >= k {
          acc := ar.mac(acc, x[i - k], taps[k]);
        }
      }
      out[i] := acc;
    }
  }

  /** The reference is causal: what follows in the stream does not change what came out. */
  lemma {:induction false} RefAccIsCausal<S(!new), T(!new)>(ar: Arith<S, T>, x: seq<S>, more: seq<S>, taps: seq<T>,
                                                            i: nat, k: nat)
    requires i < |x| && k <= |taps|
    ensures RefAcc(ar, x + more, taps, i, k) == RefAcc(ar, x, taps, i, k)
  {
    if k > 0 {
      RefAccIsCausal(ar, x, more, taps, i, k - 1);
    }
  }

  lemma RefFirIsCausal<S(!new), T(!new)>(ar: Arith<S, T>, x: seq<S>, more: seq<S>, taps: seq<T>)
    ensures RefFir(ar, x + more, taps)[..|x|] == RefFir(ar, x, taps)
  {
    forall i | 0 <= i < |x|
      ensures RefFir(ar, x + more, taps)[i] == RefFir(ar, x, taps)[i]
    {
      RefAccIsCausal(ar, x, more, taps, i, |taps|);
    }
  }

  /** What a plan that was fed `fed` must put out for the next block. */
  function Emitted<S(!new), T(!new)>(ar: Arith<S, T>, taps: seq<T>, fed: seq<S>, block: seq<S>): (y: seq<S>)
    ensures |y| == |block|
  {
    RefFir(ar, fed + block, taps)[|fed|..]
  }

  // ----- the delay line -----

  function Fill<S>(n: nat, v: S): (s: seq<S>)
    ensures |s| == n
  {
    seq(n, i => v)
  }

  /** The last `m` samples of a stream that zeros precede. */
  function DelayLine<S>(zero: S, m: nat, fed: seq<S>): (line: seq<S>)
    ensures |line| == m
  {
    (Fill(m, zero) + fed)[|fed|..]
  }

  lemma DelayLineOfNothing<S>(zero: S, m: nat)
    ensures DelayLine(zero, m, []) == Fill(m, zero)
  {}

  /** The last `|line|` samples of the old line followed by the block. */
  function NextLine<S>(line: seq<S>, block: seq<S>): (next: seq<S>)
    ensures |next| == |line|
  {
    (line + block)[|block|..]
  }

  lemma NextLineIsTail<S>(line: seq<S>, block: seq<S>)
    ensures NextLine(line, block) == (line + block)[|line + block| - |line|..]
  {}

  lemma NextLineIsDelayLine<S>(zero: S, m: nat, fed: seq<S>, block: seq<S>)
    ensures NextLine(DelayLine(zero, m, fed), block) == DelayLine(zero, m, fed + block)
  {
    var padded := Fill(m, zero) + fed;
    assert Fill(m, zero) + (fed + block) == padded + block;
    assert padded[|fed|..] + block == (padded + block)[|fed|..];
  }

  /** The accumulator of the window that ends at position `p` of `w`, newest sample first. */
  function WindowAcc<S(!new), T(!new)>(ar: Arith<S, T>, w: seq<S>, taps: seq<T>, p: nat, k: nat): S
    requires k <= |taps| && k - 1 <= p < |w|
  {
    if k == 0 then ar.zero else ar.mac(WindowAcc(ar, w, taps, p, k - 1), w[p - (k - 1)], taps[k - 1])
  }

  /** The block a filter with the given delay line puts out. */
  function BlockOut<S(!new), T(!new)>(ar: Arith<S, T>, taps: seq<T>, line: seq<S>, block: seq<S>): (y: seq<S>)
    requires |line| + 1 == |taps|
    ensures |y| == |block|
  {
    seq(|block|, i requires 0 <= i < |block| => WindowAcc(ar, line + block, taps, |line| + i, |taps|))
  }

  lemma BlockOutAt<S(!new), T(!new)>(ar: Arith<S, T>, taps: seq<T>, line: seq<S>, block: seq<S>, i: nat)
    requires |line| + 1 == |taps| && i < |block|
    ensures BlockOut(ar, taps, line, block)[i] == WindowAcc(ar, line + block, taps, |line| + i, |taps|)
  {}

  /** A window over delay line and block sees the stream, and zeros where the stream has not begun. */
  lemma WindowAt<S>(zero: S, m: nat, fed: seq<S>, block: seq<S>, i: nat, k: nat)
    requires i < |block| && k <= m
    ensures (DelayLine(zero, m, fed) + block)[m + i - k]
         == if |fed| + i >= k then (fed + block)[|fed| + i - k] else zero
  {
    var padded := Fill(m, zero) + fed;
    assert DelayLine(zero, m, fed) + block == (padded + block)[|fed|..];
    assert padded + block == Fill(m, zero) + (fed + block);
  }

  lemma {:induction false} WindowIsReference<S(!new), T(!new)>(ar: Arith<S, T>, taps: seq<T>, fed: seq<S>,
                                                               block: seq<S>, i: nat, k: nat)
    requires ar.Lawful() && 1 <= |taps| && i < |block| && k <= |taps|
    ensures var line := DelayLine(ar.zero, |taps| - 1, fed);
            WindowAcc(ar, line + block, taps, |line| + i, k) == RefAcc(ar, fed + block, taps, |fed| + i, k)
  {
    if k > 0 {
      WindowIsReference(ar, taps, fed, block, i, k - 1);
      WindowAt(ar.zero, |taps| - 1, fed, block, i, k - 1);
    }
  }

  /** One block through the delay line is the matching stretch of the one-shot reference. */
  lemma BlockOutIsReference<S(!new), T(!new)>(ar: Arith<S, T>, taps: seq<T>, fed: seq<S>, block: seq<S>)
    requires ar.Lawful() && 1 <= |taps|
    ensures BlockOut(ar, taps, DelayLine(ar.zero, |taps| - 1, fed), block) == Emitted(ar, taps, fed, block)
  {
    var line := DelayLine(ar.zero, |taps| - 1, fed);
    forall i | 0 <= i < |block|
      ensures BlockOut(ar, taps, line, block)[i] == Emitted(ar, taps, fed, block)[i]
    {
      WindowIsReference(ar, taps, fed, block, i, |taps|);
    }
  }

  // ----- runs -----

  function Flatten<S>(blocks: seq<seq<S>>): seq<S> {
    if blocks == [] then [] else blocks[0] + Flatten(blocks[1..])
  }

  /** The concatenated output of a filter that is handed one block after the other. */
  function StreamOut<S(!new), T(!new)>(ar: Arith<S, T>, taps: seq<T>, line: seq<S>, blocks: seq<seq<S>>): seq<S>
    requires |line| + 1 == |taps|
    decreases |blocks|
  {
    if blocks == [] then []
    else BlockOut(ar, taps, line, blocks[0]) + StreamOut(ar, taps, NextLine(line, blocks[0]), blocks[1..])
  }

  /** The output of a fresh filter. */
  function FreshOut<S(!new), T(!new)>(ar: Arith<S, T>, taps: seq<T>, blocks: seq<seq<S>>): seq<S>
    requires 1 <= |taps|
  {
    StreamOut(ar, taps, Fill(|taps| - 1, ar.zero), blocks)
  }

  lemma {:induction false} StreamingContinues<S(!new), T(!new)>(ar: Arith<S, T>, taps: seq<T>, fed: seq<S>,
                                                                blocks: seq<seq<S>>)
    requires ar.Lawful() && 1 <= |taps|
    ensures StreamOut(ar, taps, DelayLine(ar.zero, |taps| - 1, fed), blocks)
         == RefFir(ar, fed + Flatten(blocks), taps)[|fed|..]
    decreases |blocks|
  {
    hide RefFir, BlockOut, NextLine, DelayLine;
    if blocks == [] {
      assert fed + Flatten(blocks) == fed;
    } else {
      var b, rest := blocks[0], blocks[1..];
      BlockOutIsReference(ar, taps, fed, b);
      NextLineIsDelayLine(ar.zero, |taps| - 1, fed, b);
      StreamingContinues(ar, taps, fed + b, rest);
      assert fed + Flatten(blocks) == (fed + b) + Flatten(rest);
      RefFirIsCausal(ar, fed + b, Flatten(rest), taps);
      Rejoin(RefFir(ar, (fed + b) + Flatten(rest), taps), |fed|, |fed + b|);
    }
  }

  lemma Rejoin<S>(y: seq<S>, m: nat, n: nat)
    requires m <= n <= |y|
    ensures y[..n][m..] + y[n..] == y[m..]
  {}

  /**
    Streaming equals one shot: however a stream is cut into blocks, longer or shorter than the delay line, a fresh
    filter puts out what the reference puts out for the whole stream.
   */
  lemma StreamingEqualsOneShot<S(!new), T(!new)>(ar: Arith<S, T>, taps: seq<T>, blocks: seq<seq<S>>)
    requires ar.Lawful() && 1 <= |taps|
    ensures FreshOut(ar, taps, blocks) == RefFir(ar, Flatten(blocks), taps)
  {
    DelayLineOfNothing(ar.zero, |taps| - 1);
    StreamingContinues(ar, taps, [], blocks);
    assert [] + Flatten(blocks) == Flatten(blocks);
  }

  /** A filter that was fed a prefix of a stream has put out a prefix of the stream's reference, and conversely. */
  lemma PrefixOfStream<S(!new), T(!new)>(ar: Arith<S, T>, taps: seq<T>, blocks: seq<seq<S>>, x: seq<S>)
    requires ar.Lawful() && 1 <= |taps|
    ensures |FreshOut(ar, taps, blocks)| == |Flatten(blocks)|
    ensures Flatten(blocks) <= x ==> FreshOut(ar, taps, blocks) <= RefFir(ar, x, taps)
    ensures x <= Flatten(blocks) ==> RefFir(ar, x, taps) <= FreshOut(ar, taps, blocks)
  {
    StreamingEqualsOneShot(ar, taps, blocks);
    var fed := Flatten(blocks);
    hide FreshOut, RefFir;
    if fed <= x {
      assert x == fed + x[|fed|..];
      RefFirIsCausal(ar, fed, x[|fed|..], taps);
    }
    if x <= fed {
      assert fed == x + fed[|x|..];
      RefFirIsCausal(ar, x, fed[|x|..], taps);
    }
  }

  /** Plans of different block sizes agree on every output both have produced. */
  lemma BlockSizeIndependence<S(!new), T(!new)>(ar: Arith<S, T>, taps: seq<T>, a: seq<seq<S>>, b: seq<seq<S>>)
    requires ar.Lawful() && 1 <= |taps|
    requires Flatten(a) <= Flatten(b)
    ensures FreshOut(ar, taps, a) <= FreshOut(ar, taps, b)
  {
    StreamingEqualsOneShot(ar, taps, b);
    PrefixOfStream(ar, taps, a, Flatten(b));
  }

  // ----- delay -----

  lemma {:induction false} RefAccDelayed<S(!new), T(!new)>(ar: Arith<S, T>, x: seq<S>, taps: seq<T>, d: nat, i: nat,
                                                           k: nat)
    requires ar.Lawful() && i < d + |x| && k <= |taps|
    ensures RefAcc(ar, Fill(d, ar.zero) + x, taps, i, k) == if i < d then ar.zero else RefAcc(ar, x, taps, i - d, k)
  {
    if k > 0 {
      RefAccDelayed(ar, x, taps, d, i, k - 1);
    }
  }

  lemma RefFirDelayed<S(!new), T(!new)>(ar: Arith<S, T>, x: seq<S>, taps: seq<T>, d: nat)
    requires ar.Lawful()
    ensures RefFir(ar, Fill(d, ar.zero) + x, taps) == Fill(d, ar.zero) + RefFir(ar, x, taps)
  {
    forall i | 0 <= i < d + |x|
      ensures RefFir(ar, Fill(d, ar.zero) + x, taps)[i] == (Fill(d, ar.zero) + RefFir(ar, x, taps))[i]
    {
      RefAccDelayed(ar, x, taps, d, i, |taps|);
    }
  }

  /**
    A stream that starts `d` zeros later comes out `d` samples later. The two runs need not end at the same sample: as
    far as the one with fewer samples goes, the outputs are the delayed ones.
   */
  lemma DelayedStream<S(!new), T(!new)>(ar: Arith<S, T>, taps: seq<T>, d: nat, a: seq<seq<S>>, b: seq<seq<S>>)
    requires ar.Lawful() && 1 <= |taps|
    ensures Flatten(b) <= Fill(d, ar.zero) + Flatten(a) ==>
              FreshOut(ar, taps, b) <= Fill(d, ar.zero) + FreshOut(ar, taps, a)
    ensures Fill(d, ar.zero) + Flatten(a) <= Flatten(b) ==>
              Fill(d, ar.zero) + FreshOut(ar, taps, a) <= FreshOut(ar, taps, b)
  {
    StreamingEqualsOneShot(ar, taps, a);
    RefFirDelayed(ar, Flatten(a), taps, d);
    PrefixOfStream(ar, taps, b, Fill(d, ar.zero) + Flatten(a));
  }

  // ----- impulse response -----

  lemma {:induction false} RefAccOfImpulse<S(!new), T(!new)>(ar: Arith<S, T>, x: seq<S>, taps: seq<T>, i: nat, k: nat)
    requires ar.Lawful() && i < |x| && k <= |taps| && forall j :: 1 <= j < |x| ==> x[j] == ar.zero
    ensures RefAcc(ar, x, taps, i, k) == if i < k then ar.mac(ar.zero, x[0], taps[i]) else ar.zero
  {
    if k > 0 {
      RefAccOfImpulse(ar, x, taps, i, k - 1);
    }
  }

  /** A single sample followed by zeros comes out as its products with the taps, one after the other, then as zeros. */
  lemma ImpulseResponse<S(!new), T(!new)>(ar: Arith<S, T>, taps: seq<T>, blocks: seq<seq<S>>, i: nat)
    requires ar.Lawful() && 1 <= |taps| && i < |Flatten(blocks)|
    requires forall j :: 1 <= j < |Flatten(blocks)| ==> Flatten(blocks)[j] == ar.zero
    ensures |FreshOut(ar, taps, blocks)| == |Flatten(blocks)|
    ensures FreshOut(ar, taps, blocks)[i]
         == if i < |taps| then ar.mac(ar.zero, Flatten(blocks)[0], taps[i]) else ar.zero
  {
    StreamingEqualsOneShot(ar, taps, blocks);
    RefAccOfImpulse(ar, Flatten(blocks), taps, i, |taps|);
    hide FreshOut;
  }

  // ----- blocks of one size -----

  /** The samples of `len` that whole blocks of `n` take up. */
  function Whole(n: nat, len: nat): (w: nat)
    requires n >= 1
    ensures w <= len < w + n
  {
    if len < n then 0 else n + Whole(n, len - n)
  }

  /** A stream as a plan of block size `n` is fed it: in blocks of `n`, what does not fill a block still to come. */
  function Cut<S>(n: nat, x: seq<S>): (blocks: seq<seq<S>>)
    requires n >= 1
    ensures forall i :: 0 <= i < |blocks| ==> |blocks[i]| == n
    decreases |x|
  {
    if |x| < n then [] else [x[..n]] + Cut(n, x[n..])
  }

  lemma {:induction false} CutFeedsTheStream<S>(n: nat, x: seq<S>)
    requires n >= 1
    ensures Flatten(Cut(n, x)) == x[..Whole(n, |x|)]
    decreases |x|
  {
    if |x| >= n {
      var blocks := Cut(n, x);
      assert blocks[0] == x[..n] && blocks[1..] == Cut(n, x[n..]);
      CutFeedsTheStream(n, x[n..]);
    }
  }

  /**
    The delay law for plans of fixed block sizes: `d` zeros before the stream delay the output by `d`, whether or not
    `d` is a multiple of a block size, and each plan has put out all but the last, unfilled block of its stream.
   */
  lemma DelayedBlocks<S(!new), T(!new)>(ar: Arith<S, T>, taps: seq<T>, d: nat, x: seq<S>, n: nat, m: nat)
    requires ar.Lawful() && 1 <= |taps| && n >= 1 && m >= 1
    ensures var a := FreshOut(ar, taps, Cut(n, x));
            var b := FreshOut(ar, taps, Cut(m, Fill(d, ar.zero) + x));
            && |a| <= |x| < |a| + n && |b| <= d + |x| < |b| + m
            && (forall i :: 0 <= i < |b| && i < d ==> b[i] == ar.zero)
            && (forall i :: 0 <= i < |a| && d + i < |b| ==> b[d + i] == a[i])
  {
    var y := Fill(d, ar.zero) + x;
    CutFeedsTheStream(n, x);
    CutFeedsTheStream(m, y);
    PrefixOfStream(ar, taps, Cut(n, x), x);
    PrefixOfStream(ar, taps, Cut(m, y), y);
    RefFirDelayed(ar, x, taps, d);
    var a, b, out := FreshOut(ar, taps, Cut(n, x)), FreshOut(ar, taps, Cut(m, y)), RefFir(ar, x, taps);
    hide FreshOut, RefFir, Cut;
    assert a == out[..|a|];
    assert b == (Fill(d, ar.zero) + out)[..|b|];
  }
}
