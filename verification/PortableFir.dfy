/** The portable backend: a direct double loop over the block and a saved history. */
module PortableFir {
  import opened Buffers
  import opened FirPlanConfig
  import opened FirSpec
  import opened FirMachine

  class Plan<S(!new), T(!new)> {
    const ar: Arith<S, T>
    const taps: seq<T>
    const blockSize: nat
    const batch: nat
    const history: array<S>
    var combined: seq<S>
    // per channel, everything fed since the last clear
    ghost var fed: Streams<S>
    // the whole life of the plan: its calls, and what the successful ones put out
    ghost var calls: seq<Call<S>>
    ghost var outs: seq<Streams<S>>

    ghost predicate Valid()
      reads this, history
    {
      && ar.Lawful() && 1 <= |taps| && 1 <= blockSize && 1 <= batch && |fed| == batch
      && IsRun(ar, taps, batch, fed, calls, outs)
      && history.Length == batch * HistoryLen()
      && RowsIn(history, |taps| - 1, batch) == Lines(ar.zero, HistoryLen(), fed)
    }

    function HistoryLen(): nat {
      if |taps| > 0 then |taps| - 1 else 0
    }

    constructor (ar: Arith<S, T>, taps: seq<T>, blockSize: nat, batch: nat)
      requires ar.Lawful() && 1 <= |taps| && 1 <= blockSize && 1 <= batch
      ensures Valid() && fresh(history)
      ensures this.ar == ar && this.taps == taps && this.blockSize == blockSize && this.batch == batch
      ensures fed == FirMachine.Fresh(batch) && calls == [] && outs == []
    {
      this.ar, this.taps, this.blockSize, this.batch := ar, taps, blockSize, batch;
      var size := batch * (|taps| - 1);
      history := new S[size](_ => ar.zero);
      combined := [];
      fed, calls, outs := FirMachine.Fresh(batch), [], [];
      new;
      hide Rows, Lines;
      ZeroLines(ar.zero, HistoryLen(), batch, history[..]);
    }

    method Clear() returns (status: Status)
      requires Valid()
      modifies this`fed, this`calls, history
      ensures Valid() && status == Ok
      ensures fed == FirMachine.Fresh(batch) && calls == old(calls) + [Call.Clear]
    {
      hide Rows, Lines, IsRun;
      forall p | 0 <= p < history.Length {
        history[p] := ar.zero;
      }
      RunGoesOn(ar, taps, batch, fed, calls, outs, Fresh(batch));
      fed, calls := FirMachine.Fresh(batch), calls + [Call.Clear];
      ZeroLines(ar.zero, HistoryLen(), batch, history[..]);
      status := Ok;
    }

    /** The double loop over one block: `bin` and `bout` start at `off`, the channel's history at `hist`. */
    method Filter(input: array<S>, output: array<S>, off: nat, hist: nat)
      requires 1 <= |taps|
      requires input != output && history != output
      requires off + blockSize <= input.Length && off + blockSize <= output.Length
      requires hist + HistoryLen() <= history.Length
      modifies output
      ensures output[..] == Splice(old(output[..]), off,
                                   BlockOut(ar, taps, history[hist..hist + HistoryLen()],
                                            input[off..off + blockSize]))
    {
      var histLen := HistoryLen();
      ghost var line, block := history[hist..hist + histLen], input[off..off + blockSize];
      ghost var out := BlockOut(ar, taps, line, block);
      for i := 0 to blockSize
        invariant forall p :: 0 <= p < output.Length ==>
          output[p] == if off <= p < off + i then out[p - off] else old(output[p])
      {
        var acc := ar.zero;
        for k := 0 to |taps|
          invariant acc == WindowAcc(ar, line + block, taps, histLen + i, k)
        {
          var x := if i >= k then input[off + i - k] else history[hist + histLen + i - k];
          assert x == (line + block)[histLen + i - k];
          acc := ar.mac(acc, x, taps[k]);
        }
        output[off + i] := acc;
      }
      IsSplice(old(output[..]), off, out, output[..]);
    }

    /** The new history: the last samples of the old one followed by the block. */
    method SaveHistory(input: array<S>, off: nat, hist: nat)
      requires input != history
      requires off + blockSize <= input.Length && hist + HistoryLen() <= history.Length
      modifies history, `combined
      ensures history[..] == Splice(old(history[..]), hist,
                                    NextLine(old(history[hist..hist + HistoryLen()]), input[off..off + blockSize]))
    {
      hide NextLine, Splice;
      var histLen := HistoryLen();
      ghost var line, block := history[hist..hist + histLen], input[off..off + blockSize];
      ghost var next := NextLine(line, block);
      if histLen != 0 {
        combined := [];
        combined := combined + history[hist..hist + histLen];
        combined := combined + input[off..off + blockSize];
        NextLineIsTail(line, block);
        var tail := combined[|combined| - histLen..];
        assert tail == next;
        forall p | hist <= p < hist + histLen {
          history[p] := tail[p - hist];
        }
      }
      assert input[off..off + blockSize] == block;
      IsSplice(old(history[..]), hist, next, history[..]);
    }

    /** One pass of the batch loop. */
    method ExecuteChannel(input: array<S>, output: array<S>, b: nat)
      requires 1 <= |taps| && history.Length == batch * HistoryLen() && b < batch
      requires input != output && history != input && history != output
      requires batch * blockSize <= input.Length && batch * blockSize <= output.Length
      modifies output, history, `combined
      ensures RowsIn(output, blockSize, batch) == old(RowsIn(output, blockSize, batch))[b :=
                BlockOut(ar, taps, old(RowsIn(history, |taps| - 1, batch))[b], RowsIn(input, blockSize, batch)[b])]
      ensures RowsIn(history, |taps| - 1, batch) == old(RowsIn(history, |taps| - 1, batch))[b :=
                NextLine(old(RowsIn(history, |taps| - 1, batch))[b], RowsIn(input, blockSize, batch)[b])]
      ensures output[batch * blockSize..] == old(output[batch * blockSize..])
    {
      hide BlockOut, NextLine, Rows, Splice;
      var n, m := blockSize, HistoryLen();
      RowAt(input[..], n, batch, b);
      RowAt(history[..], m, batch, b);
      var off, hist := b * n, b * m;
      ghost var line, block := history[..][hist..hist + m], input[..][off..off + n];
      assert line == history[hist..hist + m] && block == input[off..off + n];
      SpliceRow(output[..], n, batch, b, BlockOut(ar, taps, line, block));
      SpliceRow(history[..], m, batch, b, NextLine(line, block));
      Filter(input, output, off, hist);
      SaveHistory(input, off, hist);
    }

    /**
      One block per channel. The double loop reads the block again after writing to the output, so the two buffers
      must be distinct.
     */
    method Execute(input: array<S>, output: array<S>) returns (status: Status)
      requires Valid()
      requires input != output && history != input && history != output
      requires batch * blockSize <= input.Length && batch * blockSize <= output.Length
      modifies output, history, `combined, `fed, `calls, `outs
      ensures Valid() && status == Ok
      ensures fed == Advance(old(fed), RowsIn(input, blockSize, batch))
      ensures RowsIn(output, blockSize, batch) == Replies(ar, taps, old(fed), RowsIn(input, blockSize, batch))
      ensures calls == old(calls) + [Call.Execute(RowsIn(input, blockSize, batch))]
      ensures outs == old(outs) + [RowsIn(output, blockSize, batch)]
      ensures output[batch * blockSize..] == old(output[batch * blockSize..])
    {
      hide BlockOut, NextLine, Rows, Splice, Lines, Replies, Advance, IsRun, RowsIn;
      ghost var blocks, lines := RowsIn(input, blockSize, batch), Lines(ar.zero, HistoryLen(), fed);
      ghost var rest := output[batch * blockSize..];
      for b := 0 to batch
        invariant fed == old(fed) && calls == old(calls) && outs == old(outs)
        invariant RowsIn(input, blockSize, batch) == blocks
        invariant forall c :: 0 <= c < b ==>
          RowsIn(output, blockSize, batch)[c] == BlockOut(ar, taps, lines[c], blocks[c])
        invariant forall c :: 0 <= c < batch ==>
          RowsIn(history, |taps| - 1, batch)[c] == if c < b then NextLine(lines[c], blocks[c]) else lines[c]
        invariant output[batch * blockSize..] == rest
      {
        ExecuteChannel(input, output, b);
      }
      StepRefines(ar, taps, fed, blocks, RowsIn(output, blockSize, batch), RowsIn(history, |taps| - 1, batch));
      RunGoesOn(ar, taps, batch, fed, calls, outs, blocks);
      outs := outs + [RowsIn(output, blockSize, batch)];
      fed, calls := Advance(fed, blocks), calls + [Call.Execute(blocks)];
      status := Ok;
    }
  }

  /** The factory: a null or empty tap list, an empty block and an empty batch are refused. */
  method MakeBackendPlan<S(!new), T(!new)>(ar: Arith<S, T>, cfg: Config<T>)
    returns (status: Status, plan: Plan?<S, T>)
    requires ar.Lawful()
    ensures status == Ok <==> cfg.taps.Some? && |cfg.taps.value| >= 1 && cfg.blockSize >= 1 && cfg.batch >= 1
    ensures status == InvalidArgument <==>
      cfg.taps.None? || |cfg.taps.value| == 0 || cfg.blockSize == 0 || cfg.batch == 0
    ensures plan == null <==> status != Ok
    ensures plan != null ==>
      && fresh(plan) && fresh(plan.history)
      && plan.Valid() && plan.fed == FirMachine.Fresh(cfg.batch) && plan.calls == [] && plan.outs == []
      && plan.ar == ar && plan.taps == cfg.taps.value && plan.blockSize == cfg.blockSize && plan.batch == cfg.batch
  {
    if InvalidCommon(cfg) {
      return InvalidArgument, null;
    }
    status := Ok;
    plan := new Plan<S, T>(ar, cfg.taps.value, cfg.blockSize, cfg.batch);
  }
}
