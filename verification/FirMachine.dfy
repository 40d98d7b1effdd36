/**
  A FIR plan as a state machine. Its whole abstract state is, per channel, the stream it was fed since the last clear;
  a call that succeeds puts out the matching stretch of the one-shot reference, and a call that fails does nothing.
  The three streaming backends refine this machine.
 */
module FirMachine {
  import opened Buffers
  import opened FirSpec

  type Streams<S> = seq<seq<S>>

  /** One call on a plan; `blocks` holds one block per channel. */
  datatype Call<S> =
    | Execute(blocks: Streams<S>)
    | Failed(blocks: Streams<S>)
    | Clear

  function Fresh<S>(batch: nat): (fed: Streams<S>)
    ensures |fed| == batch
  {
    seq(batch, c => [])
  }

  function Advance<S>(fed: Streams<S>, blocks: Streams<S>): (next: Streams<S>)
    requires |fed| == |blocks|
    ensures |next| == |fed|
  {
    seq(|fed|, c requires 0 <= c < |fed| => fed[c] + blocks[c])
  }

  /** What a successful call must leave in the output buffer, channel by channel. */
  function Replies<S(!new), T(!new)>(ar: Arith<S, T>, taps: seq<T>, fed: Streams<S>, blocks: Streams<S>)
    : (out: Streams<S>)
    requires |fed| == |blocks|
    ensures |out| == |fed|
  {
    seq(|fed|, c requires 0 <= c < |fed| => Emitted(ar, taps, fed[c], blocks[c]))
  }

  /** The delay lines that go with the streams. */
  function Lines<S>(zero: S, m: nat, fed: Streams<S>): (lines: Streams<S>)
    ensures |lines| == |fed|
    ensures forall c :: 0 <= c < |fed| ==> |lines[c]| == m
  {
    seq(|fed|, c requires 0 <= c < |fed| => DelayLine(zero, m, fed[c]))
  }

  /** One block through every delay line is one step of the machine. */
  lemma StepRefines<S(!new), T(!new)>(ar: Arith<S, T>, taps: seq<T>, fed: Streams<S>, blocks: Streams<S>,
                                      outs: Streams<S>, lines: Streams<S>)
    requires ar.Lawful() && 1 <= |taps| && |fed| == |blocks| == |outs| == |lines|
    requires forall c :: 0 <= c < |fed| ==>
      outs[c] == BlockOut(ar, taps, Lines(ar.zero, |taps| - 1, fed)[c], blocks[c])
    requires forall c :: 0 <= c < |fed| ==> lines[c] == NextLine(Lines(ar.zero, |taps| - 1, fed)[c], blocks[c])
    ensures outs == Replies(ar, taps, fed, blocks)
    ensures lines == Lines(ar.zero, |taps| - 1, Advance(fed, blocks))
  {
    forall c | 0 <= c < |fed|
      ensures outs[c] == Replies(ar, taps, fed, blocks)[c]
      ensures lines[c] == Lines(ar.zero, |taps| - 1, Advance(fed, blocks))[c]
    {
      BlockOutIsReference(ar, taps, fed[c], blocks[c]);
      NextLineIsDelayLine(ar.zero, |taps| - 1, fed[c], blocks[c]);
      hide BlockOut, NextLine, DelayLine, Emitted;
    }
  }

  /** A buffer of zeros holds the delay lines of a plan that was fed nothing. */
  lemma ZeroLines<S>(zero: S, m: nat, batch: nat, buffer: seq<S>)
    requires batch * m <= |buffer|
    requires forall p :: 0 <= p < |buffer| ==> buffer[p] == zero
    ensures Rows(buffer, m, batch) == Lines(zero, m, Fresh(batch))
  {
    RowsOfConstant(buffer, zero, m, batch);
    DelayLineOfNothing(zero, m);
    forall c | 0 <= c < batch
      ensures Rows(buffer, m, batch)[c] == Fill(m, zero)
    {
      hide Row;
    }
  }

  predicate Fits<S>(batch: nat, calls: seq<Call<S>>) {
    forall i :: 0 <= i < |calls| ==> calls[i].Clear? || |calls[i].blocks| == batch
  }

  function FedAfter<S>(fed: Streams<S>, call: Call<S>): (next: Streams<S>)
    requires Fits(|fed|, [call])
    ensures |next| == |fed|
  {
    assert [call][0] == call;
    match call
    case Execute(blocks) => Advance(fed, blocks)
    case Failed(_) => fed
    case Clear => Fresh(|fed|)
  }

  /** The outputs of the successful calls of a run, in order. */
  function Outputs<S(!new), T(!new)>(ar: Arith<S, T>, taps: seq<T>, fed: Streams<S>, calls: seq<Call<S>>)
    : (outs: seq<Streams<S>>)
    requires Fits(|fed|, calls)
    ensures forall i :: 0 <= i < |outs| ==> |outs[i]| == |fed|
    decreases |calls|
  {
    if calls == [] then []
    else
      var later := Outputs(ar, taps, FedAfter(fed, calls[0]), calls[1..]);
      if calls[0].Execute? then [Replies(ar, taps, fed, calls[0].blocks)] + later else later
  }

  function FedAfterAll<S>(fed: Streams<S>, calls: seq<Call<S>>): (next: Streams<S>)
    requires Fits(|fed|, calls)
    ensures |next| == |fed|
    decreases |calls|
  {
    if calls == [] then fed else FedAfterAll(FedAfter(fed, calls[0]), calls[1..])
  }

  /** `calls` is the whole life of a plan, `outs` what its successful calls put out, `fed` where it stands now. */
  ghost predicate IsRun<S(!new), T(!new)>(ar: Arith<S, T>, taps: seq<T>, batch: nat, fed: Streams<S>,
                                          calls: seq<Call<S>>, outs: seq<Streams<S>>)
  {
    && Fits(batch, calls)
    && fed == FedAfterAll(Fresh(batch), calls)
    && outs == Outputs(ar, taps, Fresh(batch), calls)
  }

  lemma {:induction false} FedAfterConcat<S>(fed: Streams<S>, a: seq<Call<S>>, b: seq<Call<S>>)
    requires Fits(|fed|, a) && Fits(|fed|, b)
    ensures Fits(|fed|, a + b)
    ensures FedAfterAll(fed, a + b) == FedAfterAll(FedAfterAll(fed, a), b)
    decreases |a|
  {
    if a == [] {
      assert a + b == b;
    } else {
      FedAfterConcat(FedAfter(fed, a[0]), a[1..], b);
      assert (a + b)[0] == a[0] && (a + b)[1..] == a[1..] + b;
    }
  }

  /** A run goes on by one call. */
  lemma RunStep<S(!new), T(!new)>(ar: Arith<S, T>, taps: seq<T>, batch: nat, fed: Streams<S>, calls: seq<Call<S>>,
                                  outs: seq<Streams<S>>, call: Call<S>)
    requires IsRun(ar, taps, batch, fed, calls, outs) && Fits(batch, [call])
    ensures |fed| == batch
    ensures call.Execute? ==> |call.blocks| == batch
    ensures IsRun(ar, taps, batch, FedAfter(fed, call), calls + [call],
                  if call.Execute? then outs + [Replies(ar, taps, fed, call.blocks)] else outs)
  {
    var start: Streams<S> := Fresh(batch);
    assert [call][0] == call && [call][1..] == [];
    FedAfterConcat(start, calls, [call]);
    OutputsOfConcat(ar, taps, start, calls, [call]);
    assert Outputs(ar, taps, FedAfter(fed, call), []) == [];
  }

  /** The three ways a run goes on. */
  lemma RunGoesOn<S(!new), T(!new)>(ar: Arith<S, T>, taps: seq<T>, batch: nat, fed: Streams<S>, calls: seq<Call<S>>,
                                    outs: seq<Streams<S>>, blocks: Streams<S>)
    requires IsRun(ar, taps, batch, fed, calls, outs) && |blocks| == batch
    ensures |fed| == batch
    ensures IsRun(ar, taps, batch, Advance(fed, blocks), calls + [Execute(blocks)],
                  outs + [Replies(ar, taps, fed, blocks)])
    ensures IsRun(ar, taps, batch, fed, calls + [Failed(blocks)], outs)
    ensures IsRun(ar, taps, batch, Fresh(batch), calls + [Clear], outs)
  {
    RunStep(ar, taps, batch, fed, calls, outs, Execute(blocks));
    RunStep(ar, taps, batch, fed, calls, outs, Failed(blocks));
    RunStep(ar, taps, batch, fed, calls, outs, Clear);
    hide IsRun, Fits, Replies, Advance, Fresh;
  }

  /**
    Any two plans of any two backends that were successfully called with the same blocks, and cleared at the same
    points, have put out the same, whatever failed in between.
   */
  lemma SameCallsSameOutputs<S(!new), T(!new)>(ar: Arith<S, T>, taps: seq<T>, batch: nat,
                                               fed1: Streams<S>, calls1: seq<Call<S>>, outs1: seq<Streams<S>>,
                                               fed2: Streams<S>, calls2: seq<Call<S>>, outs2: seq<Streams<S>>)
    requires IsRun(ar, taps, batch, fed1, calls1, outs1) && IsRun(ar, taps, batch, fed2, calls2, outs2)
    requires Successful(calls1) == Successful(calls2)
    ensures outs1 == outs2 && fed1 == fed2
  {
    FailedCallsLeaveNoTrace(ar, taps, Fresh(batch), calls1);
    FailedCallsLeaveNoTrace(ar, taps, Fresh(batch), calls2);
  }

  // ----- failed calls -----

  function Successful<S>(calls: seq<Call<S>>): (kept: seq<Call<S>>)
    ensures forall batch: nat :: Fits(batch, calls) ==> Fits(batch, kept)
    ensures forall i :: 0 <= i < |kept| ==> !kept[i].Failed?
  {
    if calls == [] then []
    else if calls[0].Failed? then Successful(calls[1..])
    else
      var kept := [calls[0]] + Successful(calls[1..]);
      assert forall batch: nat :: Fits(batch, calls) ==> Fits(batch, calls[1..]);
      kept
  }

  /** Of one call the failure is dropped, every other call kept; of several, the order is kept. */
  lemma {:induction false} SuccessfulKeepsOrder<S>(a: seq<Call<S>>, call: Call<S>, b: seq<Call<S>>)
    ensures call.Failed? ==> Successful(a + [call] + b) == Successful(a) + Successful(b)
    ensures !call.Failed? ==> Successful(a + [call] + b) == Successful(a) + [call] + Successful(b)
  {
    if a == [] {
      assert ([] + [call] + b)[1..] == b;
    } else {
      SuccessfulKeepsOrder(a[1..], call, b);
      assert (a + [call] + b)[1..] == a[1..] + [call] + b;
    }
  }

  /** Failed calls leave no trace: without them the run puts out the same and ends in the same state. */
  lemma {:induction false} FailedCallsLeaveNoTrace<S(!new), T(!new)>(ar: Arith<S, T>, taps: seq<T>, fed: Streams<S>,
                                                                     calls: seq<Call<S>>)
    requires Fits(|fed|, calls)
    ensures Outputs(ar, taps, fed, calls) == Outputs(ar, taps, fed, Successful(calls))
    ensures FedAfterAll(fed, calls) == FedAfterAll(fed, Successful(calls))
    decreases |calls|
  {
    if calls != [] {
      FailedCallsLeaveNoTrace(ar, taps, FedAfter(fed, calls[0]), calls[1..]);
      if !calls[0].Failed? {
        var kept := Successful(calls);
        assert kept[0] == calls[0] && kept[1..] == Successful(calls[1..]);
      }
    }
  }

  // ----- clear -----

  lemma {:induction false} OutputsOfConcat<S(!new), T(!new)>(ar: Arith<S, T>, taps: seq<T>, fed: Streams<S>,
                                                             a: seq<Call<S>>, b: seq<Call<S>>)
    requires Fits(|fed|, a) && Fits(|fed|, b)
    ensures Outputs(ar, taps, fed, a + b)
         == Outputs(ar, taps, fed, a) + Outputs(ar, taps, FedAfterAll(fed, a), b)
    decreases |a|
  {
    hide Replies;
    if a == [] {
      assert a + b == b;
    } else {
      OutputsOfConcat(ar, taps, FedAfter(fed, a[0]), a[1..], b);
      assert (a + b)[0] == a[0] && (a + b)[1..] == a[1..] + b;
    }
  }

  /** A cleared plan goes on as a new plan would, whatever it did before. */
  lemma ClearEqualsFresh<S(!new), T(!new)>(ar: Arith<S, T>, taps: seq<T>, fed: Streams<S>, before: seq<Call<S>>,
                                           after: seq<Call<S>>)
    requires Fits(|fed|, before) && Fits(|fed|, after)
    ensures Outputs(ar, taps, fed, before + [Clear] + after)
         == Outputs(ar, taps, fed, before) + Outputs(ar, taps, Fresh(|fed|), after)
  {
    var rest := [Clear] + after;
    assert before + [Clear] + after == before + rest;
    OutputsOfConcat(ar, taps, fed, before, rest);
    assert rest[0] == Clear && rest[1..] == after;
  }

  // ----- channels -----

  function ChannelCall<S>(batch: nat, c: nat, call: Call<S>): (one: Call<S>)
    requires Fits(batch, [call]) && c < batch
    ensures Fits(1, [one])
  {
    assert [call][0] == call;
    match call
    case Execute(blocks) => Execute([blocks[c]])
    case Failed(blocks) => Failed([blocks[c]])
    case Clear => Clear
  }

  function ChannelCalls<S>(batch: nat, c: nat, calls: seq<Call<S>>): (ones: seq<Call<S>>)
    requires Fits(batch, calls) && c < batch
    ensures Fits(1, ones) && |ones| == |calls|
  {
    if calls == [] then []
    else
      var ones := [ChannelCall(batch, c, calls[0])] + ChannelCalls(batch, c, calls[1..]);
      assert [ChannelCall(batch, c, calls[0])][0] == ones[0];
      ones
  }

  function Channel<S>(c: nat, outs: seq<Streams<S>>): (ones: seq<Streams<S>>)
    requires forall i :: 0 <= i < |outs| ==> c < |outs[i]|
    ensures |ones| == |outs|
  {
    seq(|outs|, i requires 0 <= i < |outs| => [outs[i][c]])
  }

  /** A channel of a batched plan behaves, over every run, as a plan of its own. */
  lemma {:induction false} ChannelsAreIndependent<S(!new), T(!new)>(ar: Arith<S, T>, taps: seq<T>, fed: Streams<S>,
                                                                    calls: seq<Call<S>>, c: nat)
    requires Fits(|fed|, calls) && c < |fed|
    ensures Channel(c, Outputs(ar, taps, fed, calls))
         == Outputs(ar, taps, [fed[c]], ChannelCalls(|fed|, c, calls))
    decreases |calls|
  {
    hide Emitted;
    if calls != [] {
      var next := FedAfter(fed, calls[0]);
      ChannelsAreIndependent(ar, taps, next, calls[1..], c);
      var ones := ChannelCalls(|fed|, c, calls);
      assert ones[0] == ChannelCall(|fed|, c, calls[0]);
      assert ones[1..] == ChannelCalls(|fed|, c, calls[1..]);
      assert FedAfter([fed[c]], ones[0]) == [next[c]];
      if calls[0].Execute? {
        var b := calls[0].blocks;
        assert Replies(ar, taps, [fed[c]], [b[c]]) == [Replies(ar, taps, fed, b)[c]];
      }
    }
  }

  // ----- a whole run is the reference -----

  /** The blocks that the successful calls of a run hand to channel `c`. */
  function FedBlocks<S>(batch: nat, c: nat, calls: seq<Call<S>>): seq<seq<S>>
    requires Fits(batch, calls) && c < batch
  {
    if calls == [] then []
    else if calls[0].Execute? then [calls[0].blocks[c]] + FedBlocks(batch, c, calls[1..])
    else FedBlocks(batch, c, calls[1..])
  }

  function ChannelStream<S>(c: nat, outs: seq<Streams<S>>): seq<S>
    requires forall i :: 0 <= i < |outs| ==> c < |outs[i]|
  {
    if outs == [] then [] else outs[0][c] + ChannelStream(c, outs[1..])
  }

  /**
    Between two clears, whatever fails in between, the concatenated outputs of a channel are those of a filter that
    carries its delay line from block to block.
   */
  lemma {:induction false} RunIsStream<S(!new), T(!new)>(ar: Arith<S, T>, taps: seq<T>, fed: Streams<S>,
                                                         calls: seq<Call<S>>, c: nat)
    requires ar.Lawful() && 1 <= |taps|
    requires Fits(|fed|, calls) && c < |fed|
    requires forall i :: 0 <= i < |calls| ==> !calls[i].Clear?
    ensures ChannelStream(c, Outputs(ar, taps, fed, calls))
         == StreamOut(ar, taps, DelayLine(ar.zero, |taps| - 1, fed[c]), FedBlocks(|fed|, c, calls))
    decreases |calls|
  {
    if calls != [] {
      RunIsStream(ar, taps, FedAfter(fed, calls[0]), calls[1..], c);
      if calls[0].Execute? {
        var block := calls[0].blocks[c];
        BlockOutIsReference(ar, taps, fed[c], block);
        NextLineIsDelayLine(ar.zero, |taps| - 1, fed[c], block);
        var outs := Outputs(ar, taps, fed, calls);
        assert outs[1..] == Outputs(ar, taps, FedAfter(fed, calls[0]), calls[1..]);
        var blocks := FedBlocks(|fed|, c, calls);
        assert blocks[1..] == FedBlocks(|fed|, c, calls[1..]);
      }
    }
  }

  /** Hence from a fresh plan they are the reference of the concatenated inputs. */
  lemma RunIsReference<S(!new), T(!new)>(ar: Arith<S, T>, taps: seq<T>, batch: nat, calls: seq<Call<S>>, c: nat)
    requires ar.Lawful() && 1 <= |taps|
    requires Fits(batch, calls) && c < batch
    requires forall i :: 0 <= i < |calls| ==> !calls[i].Clear?
    ensures ChannelStream(c, Outputs(ar, taps, Fresh(batch), calls))
         == RefFir(ar, Flatten(FedBlocks(batch, c, calls)), taps)
  {
    var fed: Streams<S> := Fresh(batch);
    RunIsStream(ar, taps, fed, calls, c);
    DelayLineOfNothing(ar.zero, |taps| - 1);
    StreamingEqualsOneShot(ar, taps, FedBlocks(batch, c, calls));
  }
}
