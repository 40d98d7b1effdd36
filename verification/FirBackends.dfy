/** What the abstract machine says about the plans of the three backends, in whatever state their calls left them. */
module FirBackends {
  import CmsisFir
  import IppFir
  import PortableFir
  import opened FirArithmetic
  import opened FirMachine
  import opened FirSpec

  /**
    Three-way agreement: real plans of the three backends with the same taps and batch, successfully called with the
    same blocks and cleared at the same points, have put out the same.
   */
  lemma BackendsAgree(p: PortableFir.Plan<real, real>, i: IppFir.Plan<real, real>, c: CmsisFir.Plan)
    requires p.Valid() && i.Valid() && c.Valid()
    requires p.ar == i.ar == RealArith() && p.taps == i.taps == c.taps && p.batch == i.batch == c.batch
    requires Successful(p.calls) == Successful(i.calls) == Successful(c.calls)
    ensures p.outs == i.outs == c.outs
  {
    SameCallsSameOutputs(RealArith(), p.taps, p.batch, p.fed, p.calls, p.outs, i.fed, i.calls, i.outs);
    SameCallsSameOutputs(RealArith(), p.taps, p.batch, p.fed, p.calls, p.outs, c.fed, c.calls, c.outs);
  }

  /** The generic backends agree on complex plans as well. */
  lemma PortableAndIppAgree<S(!new), T(!new)>(p: PortableFir.Plan<S, T>, i: IppFir.Plan<S, T>)
    requires p.Valid() && i.Valid()
    requires p.ar == i.ar && p.taps == i.taps && p.batch == i.batch
    requires Successful(p.calls) == Successful(i.calls)
    ensures p.outs == i.outs
  {
    SameCallsSameOutputs(p.ar, p.taps, p.batch, p.fed, p.calls, p.outs, i.fed, i.calls, i.outs);
  }

  predicate NeverCleared<S>(calls: seq<Call<S>>) {
    forall k :: 0 <= k < |calls| ==> !calls[k].Clear?
  }

  /** A portable plan that was never cleared has put out the reference of all it was fed, on every channel. */
  lemma PortablePlanIsReference<S(!new), T(!new)>(p: PortableFir.Plan<S, T>, c: nat)
    requires p.Valid() && NeverCleared(p.calls) && c < p.batch
    ensures ChannelStream(c, p.outs) == RefFir(p.ar, Flatten(FedBlocks(p.batch, c, p.calls)), p.taps)
  {
    RunIsReference(p.ar, p.taps, p.batch, p.calls, c);
  }

  /** So has an IPP plan, of what it was fed by the calls that succeeded. */
  lemma IppPlanIsReference<S(!new), T(!new)>(i: IppFir.Plan<S, T>, c: nat)
    requires i.Valid() && NeverCleared(i.calls) && c < i.batch
    ensures ChannelStream(c, i.outs) == RefFir(i.ar, Flatten(FedBlocks(i.batch, c, i.calls)), i.taps)
  {
    RunIsReference(i.ar, i.taps, i.batch, i.calls, c);
  }

  /** And a CMSIS plan. */
  lemma CmsisPlanIsReference(p: CmsisFir.Plan, c: nat)
    requires p.Valid() && NeverCleared(p.calls) && c < p.batch
    ensures ChannelStream(c, p.outs) == RefFir(RealArith(), Flatten(FedBlocks(p.batch, c, p.calls)), p.taps)
  {
    AllLawful();
    RunIsReference(RealArith(), p.taps, p.batch, p.calls, c);
  }
}
