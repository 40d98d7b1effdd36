/**
  The IPP backend: the library reads one delay buffer and writes another, and the plan swaps the two only after the
  last channel has succeeded.
 */
module IppFir {
  import opened Buffers
  import opened FirPlanConfig
  import opened FirSpec
  import opened FirMachine

  datatype IppStatus = NoErr | NullPtrErr | FirLenErr | SizeErr | AlgTypeErr | OtherStatus(code: int)

  /** Only success is `Ok`; length, algorithm and pointer errors keep their meaning, every other code is a failure. */
  function MapStatus(s: IppStatus): (r: Status)
    ensures r == Ok <==> s == NoErr
    ensures r == InvalidArgument <==> s == FirLenErr || s == SizeErr
    ensures r == UnsupportedConfig <==> s == AlgTypeErr
    ensures r == NullPointer <==> s == NullPtrErr
    ensures r == BackendError <==> s.OtherStatus?
  {
    match s
    case NoErr => Ok
    case NullPtrErr => NullPointer
    case FirLenErr => InvalidArgument
    case SizeErr => InvalidArgument
    case AlgTypeErr => UnsupportedConfig
    case OtherStatus(_) => BackendError
  }

  /** The number of channels that succeed before the first failure. */
  function Succeeded(outcomes: seq<IppStatus>): (n: nat)
    ensures n <= |outcomes|
    ensures forall c :: 0 <= c < n ==> outcomes[c] == NoErr
    ensures n < |outcomes| ==> outcomes[n] != NoErr
  {
    if outcomes == [] || outcomes[0] != NoErr then 0 else 1 + Succeeded(outcomes[1..])
  }

  /** Channels before `n` hold their replies, channels after it what they held before; channel `n` is left open. */
  ghost predicate RepliedUpTo<S>(now: Streams<S>, replies: Streams<S>, before: Streams<S>, n: nat)
    requires |now| == |replies| == |before|
  {
    && (forall c :: 0 <= c < n && c < |now| ==> now[c] == replies[c])
    && (forall c :: n < c < |now| ==> now[c] == before[c])
  }

  lemma ReplyAt<S>(now: Streams<S>, replies: Streams<S>, before: Streams<S>, n: nat, c: nat)
    requires |now| == |replies| == |before| && c < |now| && RepliedUpTo(now, replies, before, n)
    ensures c < n ==> now[c] == replies[c]
    ensures n < c ==> now[c] == before[c]
  {}

  /**
    The library's filter, read from its documentation in the backend: on success it writes the whole output slice and
    the whole new delay slice; on failure it may leave anything in those two slices. It never writes `delaySrc`. The
    status it returns is the environment's, passed in as `outcome`. The body is one library that meets the contract.
   */
  method LibraryFilter<S(!new), T(!new)>(ar: Arith<S, T>, taps: seq<T>, input: array<S>, output: array<S>, off: nat,
                                         n: nat, delaySrc: array<S>, delayDst: array<S>, delay: nat, m: nat,
                                         outcome: IppStatus) returns (status: IppStatus)
    requires m + 1 == |taps|
    requires input != output && input != delayDst && output != delaySrc && output != delayDst && delaySrc != delayDst
    requires off + n <= input.Length && off + n <= output.Length
    requires delay + m <= delaySrc.Length && delay + m <= delayDst.Length
    modifies output, delayDst
    ensures status == outcome
    ensures status == NoErr ==>
      && output[..] == Splice(old(output[..]), off,
                              BlockOut(ar, taps, delaySrc[delay..delay + m], input[off..off + n]))
      && delayDst[..] == Splice(old(delayDst[..]), delay, NextLine(delaySrc[delay..delay + m], input[off..off + n]))
    ensures forall p :: 0 <= p < output.Length && !(off <= p < off + n) ==> output[p] == old(output[p])
    ensures forall p :: 0 <= p < delayDst.Length && !(delay <= p < delay + m) ==> delayDst[p] == old(delayDst[p])
  {
    status := outcome;
    ghost var line, block := delaySrc[delay..delay + m], input[off..off + n];
    var out := if status == NoErr then BlockOut(ar, taps, delaySrc[delay..delay + m], input[off..off + n])
               else Fill(n, ar.zero);
    var next := if status == NoErr then NextLine(delaySrc[delay..delay + m], input[off..off + n])
                else Fill(m, ar.zero);
    hide BlockOut, NextLine, Splice;
    forall p | off <= p < off + n {
      output[p] := out[p - off];
    }
    forall p | delay <= p < delay + m {
      delayDst[p] := next[p - delay];
    }
    assert delaySrc[delay..delay + m] == line && input[off..off + n] == block;
    IsSplice(old(output[..]), off, out, output[..]);
    IsSplice(old(delayDst[..]), delay, next, delayDst[..]);
  }

  class Plan<S(!new), T(!new)> {
    const ar: Arith<S, T>
    const taps: seq<T>
    const blockSize: nat
    const batch: nat
    var delayA: array<S>
    var delayB: array<S>
    // per channel, everything fed since the last clear
    ghost var fed: Streams<S>
    // the whole life of the plan: its calls, and what the successful ones put out
    ghost var calls: seq<Call<S>>
    ghost var outs: seq<Streams<S>>

    /** Only the first buffer carries the delay lines; the second may hold anything. */
    ghost predicate Valid()
      reads this, delayA, delayB
    {
      && ar.Lawful() && 1 <= |taps| && 1 <= blockSize && 1 <= batch && |fed| == batch
      && IsRun(ar, taps, batch, fed, calls, outs)
      && delayA != delayB && delayA.Length == delayB.Length == batch * (|taps| - 1)
      && RowsIn(delayA, |taps| - 1, batch) == Lines(ar.zero, |taps| - 1, fed)
    }

    constructor (ar: Arith<S, T>, taps: seq<T>, blockSize: nat, batch: nat)
      requires ar.Lawful() && 1 <= |taps| && 1 <= blockSize && 1 <= batch
      ensures Valid() && fresh(delayA) && fresh(delayB)
      ensures this.ar == ar && this.taps == taps && this.blockSize == blockSize && this.batch == batch
      ensures fed == FirMachine.Fresh(batch) && calls == [] && outs == []
    {
      this.ar, this.taps, this.blockSize, this.batch := ar, taps, blockSize, batch;
      var size := batch * (|taps| - 1);
      delayA := new S[size](_ => ar.zero);
      delayB := new S[size](_ => ar.zero);
      fed, calls, outs := FirMachine.Fresh(batch), [], [];
      new;
      hide Rows, Lines;
      ZeroLines(ar.zero, |taps| - 1, batch, delayA[..]);
    }

    /** Clearing both buffers clears the current one, whichever that is. */
    method Clear() returns (status: Status)
      requires Valid()
      modifies this`fed, this`calls, delayA, delayB
      ensures Valid() && status == Ok
      ensures fed == FirMachine.Fresh(batch) && calls == old(calls) + [Call.Clear]
      ensures forall p :: 0 <= p < delayA.Length ==> delayA[p] == delayB[p] == ar.zero
    {
      hide Rows, Lines, IsRun;
      forall p | 0 <= p < delayA.Length {
        delayA[p] := ar.zero;
      }
      forall p | 0 <= p < delayB.Length {
        delayB[p] := ar.zero;
      }
      RunGoesOn(ar, taps, batch, fed, calls, outs, Fresh(batch));
      fed, calls := FirMachine.Fresh(batch), calls + [Call.Clear];
      ZeroLines(ar.zero, |taps| - 1, batch, delayA[..]);
      status := Ok;
    }

    /** One pass of the batch loop: the library call for channel `b`, whose delay line and block are given. */
    method FilterChannel(input: array<S>, output: array<S>, b: nat, outcome: IppStatus, ghost line: seq<S>,
                         ghost block: seq<S>) returns (mapped: Status)
      requires |line| + 1 == |taps| && |block| == blockSize && b < batch
      requires delayA != delayB && delayA.Length == delayB.Length == batch * (|taps| - 1)
      requires input != output && input != delayB && output != delayA && output != delayB
      requires batch * blockSize <= input.Length && batch * blockSize <= output.Length
      requires line == RowsIn(delayA, |taps| - 1, batch)[b] && block == RowsIn(input, blockSize, batch)[b]
      modifies output, delayB
      ensures mapped == MapStatus(outcome)
      ensures mapped == Ok ==>
        && RowsIn(output, blockSize, batch)
           == old(RowsIn(output, blockSize, batch))[b := BlockOut(ar, taps, line, block)]
        && RowsIn(delayB, |taps| - 1, batch) == old(RowsIn(delayB, |taps| - 1, batch))[b := NextLine(line, block)]
      ensures forall c :: 0 <= c < batch && c != b ==>
        RowsIn(output, blockSize, batch)[c] == old(RowsIn(output, blockSize, batch)[c])
      ensures output[batch * blockSize..] == old(output[batch * blockSize..])
    {
      hide BlockOut, NextLine, Rows, Splice;
      var n, m := blockSize, |taps| - 1;
      RowAt(input[..], n, batch, b);
      RowAt(delayA[..], m, batch, b);
      var off, delay := b * n, b * m;
      assert delay + m <= delayA.Length;
      assert line == delayA[delay..delay + m] && block == input[off..off + n];
      ghost var output0 := output[..];
      SpliceRow(delayB[..], m, batch, b, NextLine(line, block));
      var st := LibraryFilter(ar, taps, input, output, off, n, delayA, delayB, delay, m, outcome);
      RowRewritten(output0, output[..], n, batch, b);
      if st == NoErr {
        SpliceRow(output0, n, batch, b, BlockOut(ar, taps, line, block));
      }
      mapped := MapStatus(st);
    }

    /** The batch loop, up to the first channel whose call fails. */
    method FilterAll(input: array<S>, output: array<S>, outcomes: seq<IppStatus>, ghost lines: Streams<S>,
                     ghost blocks: Streams<S>) returns (status: Status)
      requires 1 <= |taps| && |outcomes| == batch
      requires delayA != delayB && delayA.Length == delayB.Length == batch * (|taps| - 1)
      requires input != output && input != delayB && output != delayA && output != delayB
      requires batch * blockSize <= input.Length && batch * blockSize <= output.Length
      requires lines == RowsIn(delayA, |taps| - 1, batch) && blocks == RowsIn(input, blockSize, batch)
      modifies output, delayB
      ensures status == Ok <==> Succeeded(outcomes) == batch
      ensures Succeeded(outcomes) < batch ==> status == MapStatus(outcomes[Succeeded(outcomes)])
      ensures forall c :: 0 <= c < Succeeded(outcomes) ==>
        RowsIn(output, blockSize, batch)[c] == BlockOut(ar, taps, lines[c], blocks[c])
      ensures forall c :: Succeeded(outcomes) < c < batch ==>
        RowsIn(output, blockSize, batch)[c] == old(RowsIn(output, blockSize, batch)[c])
      ensures status == Ok ==> forall c :: 0 <= c < batch ==>
        RowsIn(delayB, |taps| - 1, batch)[c] == NextLine(lines[c], blocks[c])
      ensures output[batch * blockSize..] == old(output[batch * blockSize..])
    {
      hide BlockOut, NextLine, RowsIn, Succeeded, MapStatus;
      ghost var rows0, rest0 := RowsIn(output, blockSize, batch), output[batch * blockSize..];
      for b := 0 to batch
        invariant b <= Succeeded(outcomes)
        invariant lines == RowsIn(delayA, |taps| - 1, batch) && blocks == RowsIn(input, blockSize, batch)
        invariant forall c :: 0 <= c < b ==>
          RowsIn(output, blockSize, batch)[c] == BlockOut(ar, taps, lines[c], blocks[c])
        invariant forall c :: b <= c < batch ==> RowsIn(output, blockSize, batch)[c] == rows0[c]
        invariant forall c :: 0 <= c < b ==>
          RowsIn(delayB, |taps| - 1, batch)[c] == NextLine(lines[c], blocks[c])
        invariant output[batch * blockSize..] == rest0
      {
        status := FilterChannel(input, output, b, outcomes[b], lines[b], blocks[b]);
        if status != Ok {
          return;
        }
      }
      status := Ok;
    }

    /**
      One block per channel; `outcomes` is what the library returns for each. A call that fails at any channel leaves
      every delay line as it was, those of the channels already filtered included.
     */
    method Execute(input: array<S>, output: array<S>, outcomes: seq<IppStatus>) returns (status: Status)
      requires Valid() && |outcomes| == batch
      requires input != output && input != delayA && input != delayB && output != delayA && output != delayB
      requires batch * blockSize <= input.Length && batch * blockSize <= output.Length
      modifies `delayA, `delayB, `fed, `calls, `outs, output, delayB
      ensures Valid()
      ensures status == Ok <==> Succeeded(outcomes) == batch
      ensures Succeeded(outcomes) < batch ==> status == MapStatus(outcomes[Succeeded(outcomes)])
      ensures status == Ok ==>
        && fed == Advance(old(fed), RowsIn(input, blockSize, batch))
        && calls == old(calls) + [Call.Execute(RowsIn(input, blockSize, batch))]
        && outs == old(outs) + [RowsIn(output, blockSize, batch)]
        && delayA == old(delayB) && delayB == old(delayA)
      ensures status != Ok ==>
        && fed == old(fed) && calls == old(calls) + [Call.Failed(RowsIn(input, blockSize, batch))] && outs == old(outs)
        && delayA == old(delayA) && delayB == old(delayB) && delayA[..] == old(delayA[..])
      ensures RepliedUpTo(
                RowsIn(output, blockSize, batch), Replies(ar, taps, old(fed), RowsIn(input, blockSize, batch)),
                old(RowsIn(output, blockSize, batch)), Succeeded(outcomes))
      ensures output[batch * blockSize..] == old(output[batch * blockSize..])
    {
      hide Lines, Replies, Advance, IsRun, RowsIn, Succeeded, MapStatus, BlockOut, NextLine;
      ghost var blocks := RowsIn(input, blockSize, batch);
      RepliesOf(fed, blocks);
      RunGoesOn(ar, taps, batch, fed, calls, outs, blocks);
      status := FilterAll(input, output, outcomes, RowsIn(delayA, |taps| - 1, batch), blocks);
      if status != Ok {
        calls := calls + [Call.Failed(blocks)];
        return;
      }
      StepRefines(ar, taps, fed, blocks, RowsIn(output, blockSize, batch), RowsIn(delayB, |taps| - 1, batch));
      delayA, delayB := delayB, delayA;
      outs := outs + [RowsIn(output, blockSize, batch)];
      fed, calls := Advance(fed, blocks), calls + [Call.Execute(blocks)];
    }

    lemma RepliesOf(streams: Streams<S>, blocks: Streams<S>)
      requires ar.Lawful() && 1 <= |taps| && |streams| == |blocks|
      ensures forall c :: 0 <= c < |streams| ==>
        BlockOut(ar, taps, Lines(ar.zero, |taps| - 1, streams)[c], blocks[c])
        == Replies(ar, taps, streams, blocks)[c]
    {
      forall c | 0 <= c < |streams|
        ensures BlockOut(ar, taps, Lines(ar.zero, |taps| - 1, streams)[c], blocks[c])
             == Replies(ar, taps, streams, blocks)[c]
      {
        BlockOutIsReference(ar, taps, streams[c], blocks[c]);
        hide BlockOut, DelayLine, Emitted;
      }
    }
  }
}
