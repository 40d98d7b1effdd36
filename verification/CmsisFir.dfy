/**
  The CMSIS-DSP backend, real filters only: the taps are kept in reversed order and every channel slides a window over
  its own slice of one state buffer, `tapCount + blockSize - 1` samples long.
 */
module CmsisFir {
  import opened Buffers
  import opened FirArithmetic
  import opened FirMachine
  import opened FirPlanConfig
  import opened FirSpec

  const UINT16_MAX := 65535
  const UINT32_MAX := 4294967295

  /** The sum that the library forms over a window that starts at `p`, oldest sample first. */
  function SlidingSum(w: seq<real>, coeffs: seq<real>, p: nat, j: nat): real
    requires j <= |coeffs| && p + |coeffs| <= |w|
  {
    if j == 0 then 0.0 else SlidingSum(w, coeffs, p, j - 1) + Times(w[p + j - 1], coeffs[j - 1])
  }

  predicate Reversed(coeffs: seq<real>, taps: seq<real>) {
    |coeffs| == |taps| && forall i :: 0 <= i < |taps| ==> coeffs[i] == taps[|taps| - 1 - i]
  }

  /** What a window lacks after its first `j` oldest samples is the sum over its newest samples. */
  lemma {:induction false} SlidingSumCompletes(w: seq<real>, coeffs: seq<real>, taps: seq<real>, p: nat, j: nat)
    requires Reversed(coeffs, taps) && j <= |taps| && 1 <= |taps| && p + |taps| <= |w|
    ensures SlidingSum(w, coeffs, p, j) + WindowAcc(RealArith(), w, taps, p + |taps| - 1, |taps| - j)
         == WindowAcc(RealArith(), w, taps, p + |taps| - 1, |taps|)
  {
    hide Times;
    if j > 0 {
      SlidingSumCompletes(w, coeffs, taps, p, j - 1);
      var k := |taps| - j;
      assert coeffs[j - 1] == taps[k];
      assert w[p + j - 1] == w[p + |taps| - 1 - k];
    }
  }

  /** The reversed taps slid over the window give what the forward taps give over it, newest sample first. */
  lemma ReversedTapsAgree(w: seq<real>, coeffs: seq<real>, taps: seq<real>, p: nat)
    requires Reversed(coeffs, taps) && 1 <= |taps| && p + |taps| <= |w|
    ensures SlidingSum(w, coeffs, p, |taps|) == WindowAcc(RealArith(), w, taps, p + |taps| - 1, |taps|)
  {
    SlidingSumCompletes(w, coeffs, taps, p, |taps|);
  }

  /** The first `m` samples of every row. */
  function Fronts(s: seq<real>, len: nat, batch: nat, m: nat): (fronts: Streams<real>)
    requires batch * len <= |s| && m <= len
    ensures |fronts| == batch
    ensures forall b :: 0 <= b < batch ==> |fronts[b]| == m
  {
    var rows := Rows(s, len, batch);
    seq(|rows|, b requires 0 <= b < |rows| && |rows[b]| == len => rows[b][..m])
  }

  lemma FrontAt(s: seq<real>, len: nat, batch: nat, m: nat, b: nat)
    requires batch * len <= |s| && m <= len && b < batch
    ensures 0 <= b * len && b * len + len <= batch * len
    ensures Fronts(s, len, batch, m)[b] == s[b * len..b * len + m]
  {
    RowAt(s, len, batch, b);
    FrontOfSlice(s, b * len, len, m);
    hide Rows;
  }

  /** Changing one slice in any way changes the front of that slice alone. */
  lemma FrontRewritten(s: seq<real>, t: seq<real>, len: nat, batch: nat, m: nat, b: nat)
    requires batch * len <= |s| == |t| && m <= len && b < batch
    requires forall p :: 0 <= p < |s| && !(b * len <= p < b * len + len) ==> t[p] == s[p]
    ensures 0 <= b * len && b * len + len <= batch * len
    ensures Fronts(t, len, batch, m) == Fronts(s, len, batch, m)[b := t[b * len..b * len + m]]
  {
    FrontAt(t, len, batch, m, b);
    RowRewritten(s, t, len, batch, b);
    hide Rows;
  }

  /** A zeroed state buffer is that of a plan that was fed nothing. */
  lemma ZeroFronts(s: seq<real>, len: nat, batch: nat, m: nat)
    requires batch * len <= |s| && m <= len
    requires forall p :: 0 <= p < |s| ==> s[p] == 0.0
    ensures Fronts(s, len, batch, m) == Lines(0.0, m, FirMachine.Fresh(batch))
  {
    RowsOfConstant(s, 0.0, len, batch);
    DelayLineOfNothing(0.0, m);
    hide Rows;
    forall b | 0 <= b < batch
      ensures Fronts(s, len, batch, m)[b] == Fill(m, 0.0)
    {
      var row := Rows(s, len, batch)[b];
      assert forall i :: 0 <= i < m ==> row[i] == 0.0;
    }
  }

  /** One library instance: its slice of the shared state buffer starts at `start`. */
  datatype Instance = Instance(numTaps: nat, start: nat)

  /** First step of the library's filter: the block goes behind the delay line. */
  method AppendBlock(state: array<real>, start: nat, m: nat, input: array<real>, off: nat, n: nat)
    requires state != input && start + m + n <= state.Length && off + n <= input.Length
    modifies state
    ensures state[start..start + m + n] == old(state[start..start + m]) + input[off..off + n]
    ensures forall p :: 0 <= p < state.Length && !(start <= p < start + m + n) ==> state[p] == old(state[p])
  {
    forall p | start + m <= p < start + m + n {
      state[p] := input[off + (p - start - m)];
    }
    assert state[start..start + m] == old(state[start..start + m]);
    assert state[start + m..start + m + n] == input[off..off + n];
  }

  /** Second step: the reversed taps slide over the slice, one output sample per position. */
  method Slide(state: array<real>, start: nat, coeffs: array<real>, output: array<real>, off: nat, n: nat,
               ghost taps: seq<real>, ghost line: seq<real>, ghost block: seq<real>)
    requires |line| + 1 == |taps| && |block| == n && Reversed(coeffs[..], taps)
    requires output != state && output != coeffs
    requires start + |line| + n <= state.Length && state[start..start + |line| + n] == line + block
    requires off + n <= output.Length
    modifies output
    ensures output[..] == Splice(old(output[..]), off, BlockOut(RealArith(), taps, line, block))
  {
    hide Times, RealArith, BlockOut, Splice;
    ghost var w, out := line + block, BlockOut(RealArith(), taps, line, block);
    for i := 0 to n
      invariant forall p :: 0 <= p < output.Length ==>
        output[p] == if off <= p < off + i then out[p - off] else old(output[p])
    {
      var acc := 0.0;
      for j := 0 to coeffs.Length
        invariant acc == SlidingSum(w, coeffs[..], i, j)
      {
        assert state[start + i + j] == state[start..start + |line| + n][i + j];
        acc := acc + Times(state[start + i + j], coeffs[j]);
      }
      ReversedTapsAgree(w, coeffs[..], taps, i);
      BlockOutAt(RealArith(), taps, line, block, i);
      output[off + i] := acc;
    }
    IsSplice(old(output[..]), off, out, output[..]);
  }

  /** Third step: the newest `m` samples move to the front; with a short block the two stretches overlap. */
  method KeepNewest(state: array<real>, start: nat, m: nat, n: nat)
    requires start + m + n <= state.Length && 1 <= n
    modifies state
    ensures state[start..start + m] == old(state[start + n..start + n + m])
    ensures forall p :: 0 <= p < state.Length && !(start <= p < start + m + n) ==> state[p] == old(state[p])
  {
    for j := 0 to m
      invariant forall p :: 0 <= p < state.Length ==>
        state[p] == if start <= p < start + j then old(state[..])[p + n] else old(state[p])
    {
      state[start + j] := state[start + n + j];
    }
  }

  /**
    The library's filter on one instance, as its state layout and its tap order describe it: copy the block behind the
    delay line, slide the reversed taps over the slice, move the newest samples to the front.
   */
  method LibraryFilter(inst: Instance, coeffs: array<real>, state: array<real>, input: array<real>,
                       output: array<real>, off: nat, n: nat, ghost taps: seq<real>)
    requires 1 <= inst.numTaps == |taps| && 1 <= n && Reversed(coeffs[..], taps)
    requires state != input && state != output && state != coeffs && output != input && output != coeffs
    requires inst.start + inst.numTaps + n - 1 <= state.Length
    requires off + n <= input.Length && off + n <= output.Length
    modifies state, output
    ensures output[..] == Splice(old(output[..]), off,
                                 BlockOut(RealArith(), taps,
                                          old(state[inst.start..inst.start + inst.numTaps - 1]), input[off..off + n]))
    ensures state[inst.start..inst.start + inst.numTaps - 1]
         == NextLine(old(state[inst.start..inst.start + inst.numTaps - 1]), input[off..off + n])
    ensures forall p :: 0 <= p < state.Length && !(inst.start <= p < inst.start + inst.numTaps + n - 1) ==>
      state[p] == old(state[p])
  {
    hide Times, RealArith, BlockOut, NextLine, Splice;
    var start, m := inst.start, inst.numTaps - 1;
    ghost var line, block := state[start..start + m], input[off..off + n];
    AppendBlock(state, start, m, input, off, n);
    ghost var w := state[start..start + m + n];
    assert coeffs[..] == old(coeffs[..]);
    Slide(state, start, coeffs, output, off, n, taps, line, block);
    assert w[n..] == state[start + n..start + n + m];
    KeepNewest(state, start, m, n);
    NextLineIsTail(line, block);
    assert input[off..off + n] == block;
  }

  class Plan {
    const taps: seq<real>
    const blockSize: nat
    const batch: nat
    const coeffs: array<real>
    const state: array<real>
    var inst: seq<Instance>
    // per channel, everything fed since the last clear
    ghost var fed: Streams<real>
    // the whole life of the plan: its calls, and what the successful ones put out
    ghost var calls: seq<Call<real>>
    ghost var outs: seq<Streams<real>>

    function StateLen(): nat
      requires 1 <= |taps|
    {
      |taps| + blockSize - 1
    }

    /** The front of each state slice is the delay line; the rest may hold anything. */
    ghost predicate Valid()
      reads this, coeffs, state
    {
      && 1 <= |taps| && 1 <= blockSize && 1 <= batch && |fed| == batch
      && IsRun(RealArith(), taps, batch, fed, calls, outs)
      && coeffs != state && Reversed(coeffs[..], taps) && state.Length == batch * StateLen()
      && |inst| == batch && (forall b :: 0 <= b < batch ==> inst[b] == Instance(|taps|, b * StateLen()))
      && Delays() == Lines(0.0, |taps| - 1, fed)
    }

    ghost function Delays(): (lines: Streams<real>)
      requires 1 <= |taps| && batch * StateLen() <= state.Length
      reads state
      ensures |lines| == batch
      ensures forall b :: 0 <= b < batch ==> |lines[b]| == |taps| - 1
    {
      Fronts(state[..], StateLen(), batch, |taps| - 1)
    }

    constructor (taps: seq<real>, blockSize: nat, batch: nat)
      requires 1 <= |taps| && 1 <= blockSize && 1 <= batch
      ensures Valid() && fresh(coeffs) && fresh(state)
      ensures this.taps == taps && this.blockSize == blockSize && this.batch == batch
      ensures fed == FirMachine.Fresh(batch) && calls == [] && outs == []
    {
      this.taps, this.blockSize, this.batch := taps, blockSize, batch;
      var len, size := |taps| + blockSize - 1, batch * (|taps| + blockSize - 1);
      coeffs := new real[|taps|](_ => 0.0);
      state := new real[size](_ => 0.0);
      inst := [];
      fed, calls, outs := FirMachine.Fresh(batch), [], [];
      new;
      hide Fronts, Lines;
      for i := 0 to |taps|
        invariant forall j :: 0 <= j < i ==> coeffs[j] == taps[|taps| - 1 - j]
        invariant forall p :: 0 <= p < state.Length ==> state[p] == 0.0
        invariant inst == [] && fed == FirMachine.Fresh(batch) && calls == [] && outs == []
      {
        coeffs[i] := taps[|taps| - 1 - i];
      }
      ghost var kept := coeffs[..];
      for b := 0 to batch
        invariant |inst| == b && forall c :: 0 <= c < b ==> inst[c] == Instance(|taps|, c * len)
        invariant coeffs[..] == kept && forall p :: 0 <= p < state.Length ==> state[p] == 0.0
        invariant fed == FirMachine.Fresh(batch) && calls == [] && outs == []
      {
        inst := inst + [Instance(|taps|, b * len)];
      }
      ZeroFronts(state[..], StateLen(), batch, |taps| - 1);
    }

    /** The instances keep their slices; zeroing the buffer resets every delay line. */
    method Clear() returns (status: Status)
      requires Valid()
      modifies this`fed, this`calls, state
      ensures Valid() && status == Ok
      ensures fed == FirMachine.Fresh(batch) && calls == old(calls) + [Call.Clear]
      ensures forall p :: 0 <= p < state.Length ==> state[p] == 0.0
    {
      hide Fronts, Lines, IsRun;
      forall p | 0 <= p < state.Length {
        state[p] := 0.0;
      }
      ZeroFronts(state[..], StateLen(), batch, |taps| - 1);
      RunGoesOn(RealArith(), taps, batch, fed, calls, outs, Fresh(batch));
      fed, calls := FirMachine.Fresh(batch), calls + [Call.Clear];
      assert coeffs[..] == old(coeffs[..]);
      status := Ok;
    }

    /** One pass of the batch loop: run the instance of channel `b`. */
    method FilterChannel(input: array<real>, output: array<real>, b: nat)
      requires 1 <= |taps| && 1 <= blockSize && b < batch == |inst| && inst[b] == Instance(|taps|, b * StateLen())
      requires coeffs != state && Reversed(coeffs[..], taps) && state.Length == batch * StateLen()
      requires state != input && state != output && output != input && output != coeffs
      requires batch * blockSize <= input.Length && batch * blockSize <= output.Length
      modifies output, state
      ensures RowsIn(output, blockSize, batch) == old(RowsIn(output, blockSize, batch))[b :=
                BlockOut(RealArith(), taps, old(Delays())[b], RowsIn(input, blockSize, batch)[b])]
      ensures Delays() == old(Delays())[b := NextLine(old(Delays())[b], RowsIn(input, blockSize, batch)[b])]
      ensures output[batch * blockSize..] == old(output[batch * blockSize..])
    {
      hide RealArith, BlockOut, NextLine, Rows, Splice, StateLen, Fronts;
      var n, m, len := blockSize, |taps| - 1, StateLen();
      assert len == m + n by {
        StateLenIs();
      }
      RowAt(input[..], n, batch, b);
      FrontAt(state[..], len, batch, m, b);
      var off, start := b * n, inst[b].start;
      ghost var state0, input0 := state[..], input[..];
      ghost var line, block := state[start..start + m], input[off..off + n];
      assert state0[start..start + m] == line && input0[off..off + n] == block;
      SpliceRow(output[..], n, batch, b, BlockOut(RealArith(), taps, line, block));
      LibraryFilter(inst[b], coeffs, state, input, output, off, n, taps);
      FrontRewritten(state0, state[..], len, batch, m, b);
      assert state[..][start..start + m] == state[start..start + m];
      assert input[off..off + n] == block;
    }

    lemma StateLenIs()
      requires 1 <= |taps|
      ensures StateLen() == |taps| + blockSize - 1
    {}

    method Execute(input: array<real>, output: array<real>) returns (status: Status)
      requires Valid()
      requires input != output && state != input && state != output && output != coeffs
      requires batch * blockSize <= input.Length && batch * blockSize <= output.Length
      modifies output, state, `fed, `calls, `outs
      ensures Valid() && status == Ok
      ensures fed == Advance(old(fed), RowsIn(input, blockSize, batch))
      ensures RowsIn(output, blockSize, batch) == Replies(RealArith(), taps, old(fed), RowsIn(input, blockSize, batch))
      ensures calls == old(calls) + [Call.Execute(RowsIn(input, blockSize, batch))]
      ensures outs == old(outs) + [RowsIn(output, blockSize, batch)]
      ensures output[batch * blockSize..] == old(output[batch * blockSize..])
    {
      hide RealArith, BlockOut, NextLine, Rows, Lines, Replies, Advance, IsRun, RowsIn, StateLen, Reversed, Fronts;
      ghost var m := |taps| - 1;
      ghost var blocks, lines := RowsIn(input, blockSize, batch), Lines(0.0, m, fed);
      ghost var rest := output[batch * blockSize..];
      RunGoesOn(RealArith(), taps, batch, fed, calls, outs, blocks);
      AllLawful();
      RealZero();
      for b := 0 to batch
        invariant fed == old(fed) && calls == old(calls) && outs == old(outs)
        invariant RowsIn(input, blockSize, batch) == blocks
        invariant Reversed(coeffs[..], taps)
        invariant forall c :: 0 <= c < b ==>
          RowsIn(output, blockSize, batch)[c] == BlockOut(RealArith(), taps, lines[c], blocks[c])
        invariant forall c :: 0 <= c < batch ==>
          Delays()[c] == if c < b then NextLine(lines[c], blocks[c]) else lines[c]
        invariant output[batch * blockSize..] == rest
      {
        FilterChannel(input, output, b);
      }
      StepRefines(RealArith(), taps, fed, blocks, RowsIn(output, blockSize, batch), Delays());
      outs := outs + [RowsIn(output, blockSize, batch)];
      fed, calls := Advance(fed, blocks), calls + [Call.Execute(blocks)];
      status := Ok;
    }
  }

  /** The factory: malformed requests first, then the filter types and sizes the library does not have. */
  method MakeBackendPlan(cfg: Config<real>, isReal: bool) returns (status: Status, plan: Plan?)
    ensures status == Ok <==>
      && cfg.taps.Some? && 1 <= |cfg.taps.value| <= 65535 && 1 <= cfg.blockSize <= 4294967295 && cfg.batch >= 1
      && isReal
    ensures status == InvalidArgument <==>
      cfg.taps.None? || |cfg.taps.value| == 0 || cfg.blockSize == 0 || cfg.batch == 0
    ensures status == UnsupportedConfig <==>
      && cfg.taps.Some? && |cfg.taps.value| >= 1 && cfg.blockSize >= 1 && cfg.batch >= 1
      && (!isReal || |cfg.taps.value| > 65535 || cfg.blockSize > 4294967295)
    ensures plan == null <==> status != Ok
    ensures plan != null ==>
      && fresh(plan) && fresh(plan.coeffs) && fresh(plan.state)
      && plan.Valid() && plan.fed == FirMachine.Fresh(cfg.batch) && plan.calls == [] && plan.outs == []
      && plan.taps == cfg.taps.value && plan.blockSize == cfg.blockSize && plan.batch == cfg.batch
  {
    if InvalidCommon(cfg) {
      return InvalidArgument, null;
    }
    if !isReal || |cfg.taps.value| > UINT16_MAX || cfg.blockSize > UINT32_MAX {
      return UnsupportedConfig, null;
    }
    status := Ok;
    plan := new Plan(cfg.taps.value, cfg.blockSize, cfg.batch);
  }

  lemma RealZero()
    ensures RealArith().zero == 0.0
  {}
}
