/**
  Who owns what the FFT factories obtain: plans own a backend state through a movable pointer with its destroy
  function, and factories that fail at any step clean up after themselves. Every resource has a number; the ledger
  counts how often each was freed and how often it is owned.
 */
module PlanOwnership {
  import opened Wrappers

  datatype Status = Ok | NullPointer | InvalidArgument | UnsupportedLength | UnsupportedConfig | BackendError

  /**
    The states of the backends, templates by their precision. A handle or a buffer that could not be obtained is `None`.
   */
  datatype State =
    | ArmplState(f64: bool, block: nat, plan: Option<nat>, inBuf: Option<nat>, outBuf: Option<nat>)
    | AoclState(block: nat, handle: Option<nat>)
    | MklState(block: nat, handle: Option<nat>)
    | PocketState(f64: bool, block: nat)
    | CmsisState(block: nat)

  /** The destroy functions. Each casts the opaque pointer it is given to its own backend's state. */
  datatype DestroyFn =
    | ArmplDestroy(f64: bool)
    | AoclDestroy
    | MklDestroy
    | PocketDestroy(f64: bool)
    | CmsisDestroy

  /** The one destroy function whose cast is right for a state. */
  function DestroyerOf(s: State): DestroyFn {
    match s
    case ArmplState(f64, _, _, _, _) => ArmplDestroy(f64)
    case AoclState(_, _) => AoclDestroy
    case MklState(_, _) => MklDestroy
    case PocketState(f64, _) => PocketDestroy(f64)
    case CmsisState(_) => CmsisDestroy
  }

  /**
    The owning pointer of a plan: the state, and beside it the destroy function. Moving from it takes the state away and
    leaves the function.
   */
  datatype Slot = Slot(state: Option<State>, destroy: DestroyFn)

  /** A state is kept next to the function it was created with. */
  predicate WellKept(slot: Slot) {
    slot.state.Some? ==> slot.destroy == DestroyerOf(slot.state.value)
  }

  function Occurs(h: Option<nat>, id: nat): nat {
    if h == Some(id) then 1 else 0
  }

  /** How often `id` is among what a slot owns. */
  function Owned(slot: Slot, id: nat): nat {
    match slot.state
    case None => 0
    case Some(s) => Resources(s, id)
  }

  function Resources(s: State, id: nat): nat {
    match s
    case ArmplState(_, block, plan, inBuf, outBuf) =>
      Occurs(Some(block), id) + Occurs(plan, id) + Occurs(inBuf, id) + Occurs(outBuf, id)
    case AoclState(block, handle) => Occurs(Some(block), id) + Occurs(handle, id)
    case MklState(block, handle) => Occurs(Some(block), id) + Occurs(handle, id)
    case PocketState(_, block) => Occurs(Some(block), id)
    case CmsisState(block) => Occurs(Some(block), id)
  }

  function OwnedIn(slots: seq<Slot>, id: nat): nat {
    if slots == [] then 0 else Owned(slots[0], id) + OwnedIn(slots[1..], id)
  }

  function Freed(log: seq<nat>, id: nat): nat {
    if log == [] then 0 else Freed(log[..|log| - 1], id) + Occurs(Some(log[|log| - 1]), id)
  }

  lemma FreedAppend(log: seq<nat>, x: nat, id: nat)
    ensures Freed(log + [x], id) == Freed(log, id) + Occurs(Some(x), id)
  {
    assert (log + [x])[..|log|] == log;
  }

  lemma {:induction false} FreedIsMember(log: seq<nat>, id: nat)
    ensures id in log <==> Freed(log, id) >= 1
  {
    if log != [] {
      FreedIsMember(log[..|log| - 1], id);
    }
  }

  lemma {:induction false} OwnedUpdate(slots: seq<Slot>, i: nat, x: Slot, id: nat)
    requires i < |slots|
    ensures OwnedIn(slots[i := x], id) + Owned(slots[i], id) == OwnedIn(slots, id) + Owned(x, id)
  {
    hide Owned;
    if i == 0 {
      assert slots[i := x][1..] == slots[1..];
    } else {
      OwnedUpdate(slots[1..], i - 1, x, id);
      assert slots[i := x][1..] == slots[1..][i - 1 := x];
    }
  }

  lemma {:induction false} OwnedAppend(slots: seq<Slot>, x: Slot, id: nat)
    ensures OwnedIn(slots + [x], id) == OwnedIn(slots, id) + Owned(x, id)
  {
    hide Owned;
    if slots == [] {
      assert (slots + [x])[1..] == [];
    } else {
      OwnedAppend(slots[1..], x, id);
      assert (slots + [x])[1..] == slots[1..] + [x];
    }
  }

  lemma {:induction false} NothingOwned(slots: seq<Slot>, id: nat)
    requires forall i :: 0 <= i < |slots| ==> slots[i].state == None
    ensures OwnedIn(slots, id) == 0
  {
    if slots != [] {
      NothingOwned(slots[1..], id);
    }
  }

  /** Two slots own together at most what all own. */
  lemma {:induction false} OwnersHold(slots: seq<Slot>, i: nat, j: nat, id: nat)
    requires i < |slots| && j < |slots|
    ensures Owned(slots[i], id) <= OwnedIn(slots, id)
    ensures i != j ==> Owned(slots[i], id) + Owned(slots[j], id) <= OwnedIn(slots, id)
  {
    hide Owned;
    if i > 0 && j > 0 {
      OwnersHold(slots[1..], i - 1, j - 1, id);
    } else if i > 0 {
      OwnersHold(slots[1..], i - 1, i - 1, id);
    } else if j > 0 {
      OwnersHold(slots[1..], j - 1, j - 1, id);
    }
  }

  lemma {:induction false} SomeOwner(slots: seq<Slot>, id: nat) returns (i: nat)
    requires OwnedIn(slots, id) >= 1
    ensures i < |slots| && Owned(slots[i], id) >= 1
  {
    hide Owned;
    if Owned(slots[0], id) >= 1 {
      i := 0;
    } else {
      i := SomeOwner(slots[1..], id);
      i := i + 1;
    }
  }

  /** What was freed and what the plans own, taken together, is every resource obtained, once. */
  ghost predicate Balanced(freed: seq<nat>, slots: seq<Slot>, next: nat) {
    forall id: nat :: Freed(freed, id) + OwnedIn(slots, id) == if id < next then 1 else 0
  }

  /** Balanced books: nothing is freed twice, nothing is freed that a plan still owns, nothing has two owners. */
  lemma NoDoubleFree(freed: seq<nat>, slots: seq<Slot>, next: nat, id: nat)
    requires Balanced(freed, slots, next)
    ensures Freed(freed, id) <= 1
    ensures forall i :: 0 <= i < |slots| && Owned(slots[i], id) >= 1 ==> id !in freed
    ensures forall i, j :: 0 <= i < j < |slots| && Owned(slots[i], id) >= 1 ==> Owned(slots[j], id) == 0
  {
    hide Owned;
    FreedIsMember(freed, id);
    forall i, j | 0 <= i < |slots| && 0 <= j < |slots|
      ensures Owned(slots[i], id) <= OwnedIn(slots, id)
      ensures i != j ==> Owned(slots[i], id) + Owned(slots[j], id) <= OwnedIn(slots, id)
    {
      OwnersHold(slots, i, j, id);
    }
  }

  /** And nothing leaks: a resource that was obtained and not freed has an owner. */
  lemma NoLeak(freed: seq<nat>, slots: seq<Slot>, next: nat, id: nat)
    requires Balanced(freed, slots, next) && id < next && id !in freed
    ensures exists i :: 0 <= i < |slots| && Owned(slots[i], id) >= 1
  {
    FreedIsMember(freed, id);
    var i := SomeOwner(slots, id);
  }

  /** Every state that was destroyed was destroyed by the function it was created with. */
  ghost predicate RightlyDestroyed(log: seq<(State, DestroyFn)>) {
    forall i :: 0 <= i < |log| ==> log[i].1 == DestroyerOf(log[i].0)
  }

  function OwnedBy(record: Option<Slot>, id: nat): nat {
    if record.None? then 0 else Owned(record.value, id)
  }

  /** What a factory may do: everything it obtained is in the state it hands over, or freed again. */
  ghost predicate Accounted(freed0: seq<nat>, next0: nat, freed: seq<nat>, next: nat, record: Option<Slot>) {
    && next0 <= next
    && (forall id: nat ::
          Freed(freed, id) + OwnedBy(record, id) == Freed(freed0, id) + if next0 <= id < next then 1 else 0)
    && (record.Some? ==> WellKept(record.value))
  }

  /** A state that holds exactly what was obtained may be freed as a whole or handed over as a whole. */
  lemma AllFreedOrHeld(freed0: seq<nat>, next0: nat, freed: seq<nat>, next: nat, s: State)
    requires next0 <= next && forall id: nat :: Resources(s, id) == if next0 <= id < next then 1 else 0
    ensures (forall id: nat :: Freed(freed, id) == Freed(freed0, id) + Resources(s, id)) ==>
              Accounted(freed0, next0, freed, next, None)
    ensures Accounted(freed0, next0, freed0, next, Some(Slot(Some(s), DestroyerOf(s))))
  {
    hide Freed, Resources;
  }

  /** The plans of a program, one slot per plan variable; a slot that was moved from or dropped holds no state. */
  class Program {
    var slots: seq<Slot>
    var freed: seq<nat>
    var next: nat
    // every call of a destroy function: on which state, and which function
    ghost var destroyed: seq<(State, DestroyFn)>

    ghost predicate Valid()
      reads this
    {
      && Balanced(freed, slots, next)
      && (forall i :: 0 <= i < |slots| ==> WellKept(slots[i]))
      && RightlyDestroyed(destroyed)
    }

    constructor ()
      ensures Valid() && slots == [] && freed == [] && next == 0 && destroyed == []
    {
      slots, freed, next, destroyed := [], [], 0, [];
    }

    /** A resource that the environment grants, or not. */
    method Obtain(granted: bool) returns (h: Option<nat>)
      modifies this`next
      ensures h == if granted then Some(old(next)) else None
      ensures next == old(next) + if granted then 1 else 0
    {
      if granted {
        h := Some(next);
        next := next + 1;
      } else {
        h := None;
      }
    }

    method FreeHandle(h: Option<nat>)
      modifies this`freed
      ensures forall id: nat :: Freed(freed, id) == Freed(old(freed), id) + Occurs(h, id)
    {
      if h.Some? {
        forall id: nat
          ensures Freed(freed + [h.value], id) == Freed(freed, id) + Occurs(h, id)
        {
          FreedAppend(freed, h.value, id);
        }
        freed := freed + [h.value];
      }
    }

    /**
      A destroy function, called on a state. The call is defined only if the state is of the type the function casts it
      to; then it frees all that the state holds.
     */
    method Destroy(fn: DestroyFn, s: State)
      requires fn == DestroyerOf(s)
      modifies this`freed, this`destroyed
      ensures destroyed == old(destroyed) + [(s, fn)]
      ensures forall id: nat :: Freed(freed, id) == Freed(old(freed), id) + Resources(s, id)
    {
      match fn {
        case ArmplDestroy(_) =>
          FreeHandle(s.plan);
          FreeHandle(s.inBuf);
          FreeHandle(s.outBuf);
        case AoclDestroy =>
          FreeHandle(s.handle);
        case MklDestroy =>
          FreeHandle(s.handle);
        case PocketDestroy(_) =>
        case CmsisDestroy =>
      }
      FreeHandle(Some(s.block));
      destroyed := destroyed + [(s, fn)];
    }

    /** Both buffers are asked for before either is looked at; then the plan. */
    method MakeArmpl(f64: bool, inGranted: bool, outGranted: bool, planGranted: bool)
      returns (status: Status, record: Option<Slot>)
      requires RightlyDestroyed(destroyed)
      modifies this`freed, this`next, this`destroyed
      ensures status == if inGranted && outGranted && planGranted then Ok else BackendError
      ensures status == Ok ==>
        && record == Some(Slot(
             Some(ArmplState(f64, old(next), Some(old(next) + 3), Some(old(next) + 1), Some(old(next) + 2))),
             ArmplDestroy(f64)))
        && next == old(next) + 4 && freed == old(freed) && destroyed == old(destroyed)
      ensures status != Ok ==>
        && record == None && next == old(next) + 1 + (if inGranted then 1 else 0) + (if outGranted then 1 else 0)
        && destroyed == old(destroyed) + [(
             ArmplState(f64, old(next), None, if inGranted then Some(old(next) + 1) else None,
                        if !outGranted then None else Some(old(next) + if inGranted then 2 else 1)),
             ArmplDestroy(f64))]
      ensures RightlyDestroyed(destroyed) && Accounted(old(freed), old(next), freed, next, record)
    {
      hide Freed, Accounted;
      var block := Obtain(true);
      var inBuf := Obtain(inGranted);
      var outBuf := Obtain(outGranted);
      if inBuf.None? || outBuf.None? {
        Destroy(ArmplDestroy(f64), ArmplState(f64, block.value, None, inBuf, outBuf));
        AllFreedOrHeld(old(freed), old(next), freed, next, ArmplState(f64, block.value, None, inBuf, outBuf));
        return BackendError, None;
      }
      var plan := Obtain(planGranted);
      if plan.None? {
        Destroy(ArmplDestroy(f64), ArmplState(f64, block.value, None, inBuf, outBuf));
        AllFreedOrHeld(old(freed), old(next), freed, next, ArmplState(f64, block.value, None, inBuf, outBuf));
        return BackendError, None;
      }
      AllFreedOrHeld(old(freed), old(next), freed, next, ArmplState(f64, block.value, plan, inBuf, outBuf));
      return Ok, Some(Slot(Some(ArmplState(f64, block.value, plan, inBuf, outBuf)), ArmplDestroy(f64)));
    }

    /** The factory hands the state over even when setup failed; the caller looks at the handle. */
    method MakeAocl(setupGranted: bool) returns (status: Status, record: Option<Slot>)
      requires RightlyDestroyed(destroyed)
      modifies this`freed, this`next, this`destroyed
      ensures status == if setupGranted then Ok else BackendError
      ensures status == Ok ==>
        && record == Some(Slot(Some(AoclState(old(next), Some(old(next) + 1))), AoclDestroy))
        && next == old(next) + 2 && freed == old(freed) && destroyed == old(destroyed)
      ensures status != Ok ==>
        && record == None && next == old(next) + 1
        && destroyed == old(destroyed) + [(AoclState(old(next), None), AoclDestroy)]
      ensures RightlyDestroyed(destroyed) && Accounted(old(freed), old(next), freed, next, record)
    {
      hide Freed;
      var block := Obtain(true);
      var handle := Obtain(setupGranted);
      var s := AoclState(block.value, handle);
      if s.handle.None? {
        Destroy(AoclDestroy, s);
        return BackendError, None;
      }
      return Ok, Some(Slot(Some(s), AoclDestroy));
    }

    /** The descriptor comes before the state block, and is freed by hand when a setting or the commit fails. */
    method MakeMkl(createGranted: bool, configured: bool) returns (status: Status, record: Option<Slot>)
      requires RightlyDestroyed(destroyed)
      modifies this`freed, this`next, this`destroyed
      ensures status == if createGranted && configured then Ok else BackendError
      ensures status == Ok ==>
        && record == Some(Slot(Some(MklState(old(next) + 1, Some(old(next)))), MklDestroy))
        && next == old(next) + 2 && freed == old(freed)
      ensures status != Ok ==> record == None && next == old(next) + if createGranted then 1 else 0
      ensures destroyed == old(destroyed)
      ensures RightlyDestroyed(destroyed) && Accounted(old(freed), old(next), freed, next, record)
    {
      hide Freed;
      var handle := Obtain(createGranted);
      if handle.None? {
        return BackendError, None;
      }
      if !configured {
        FreeHandle(handle);
        return BackendError, None;
      }
      var block := Obtain(true);
      return Ok, Some(Slot(Some(MklState(block.value, handle)), MklDestroy));
    }

    /** The block, then a warm-up transform that may fail. */
    method MakePocket(f64: bool, warmed: bool) returns (status: Status, record: Option<Slot>)
      requires RightlyDestroyed(destroyed)
      modifies this`freed, this`next, this`destroyed
      ensures status == if warmed then Ok else BackendError
      ensures next == old(next) + 1
      ensures status == Ok ==>
        && record == Some(Slot(Some(PocketState(f64, old(next))), PocketDestroy(f64)))
        && freed == old(freed) && destroyed == old(destroyed)
      ensures status != Ok ==>
        record == None && destroyed == old(destroyed) + [(PocketState(f64, old(next)), PocketDestroy(f64))]
      ensures RightlyDestroyed(destroyed) && Accounted(old(freed), old(next), freed, next, record)
    {
      hide Freed;
      var block := Obtain(true);
      if !warmed {
        Destroy(PocketDestroy(f64), PocketState(f64, block.value));
        return BackendError, None;
      }
      return Ok, Some(Slot(Some(PocketState(f64, block.value)), PocketDestroy(f64)));
    }

    /** The block, then an initialization that refuses unsupported lengths. */
    method MakeCmsis(initialized: bool) returns (status: Status, record: Option<Slot>)
      requires RightlyDestroyed(destroyed)
      modifies this`freed, this`next, this`destroyed
      ensures status == if initialized then Ok else UnsupportedLength
      ensures next == old(next) + 1
      ensures status == Ok ==>
        && record == Some(Slot(Some(CmsisState(old(next))), CmsisDestroy))
        && freed == old(freed) && destroyed == old(destroyed)
      ensures status != Ok ==>
        record == None && destroyed == old(destroyed) + [(CmsisState(old(next)), CmsisDestroy)]
      ensures RightlyDestroyed(destroyed) && Accounted(old(freed), old(next), freed, next, record)
    {
      hide Freed;
      var block := Obtain(true);
      if !initialized {
        Destroy(CmsisDestroy, CmsisState(block.value));
        return UnsupportedLength, None;
      }
      return Ok, Some(Slot(Some(CmsisState(block.value)), CmsisDestroy));
    }

    /**
      State and destroy function of a dispatch record go into a new owner; a failed factory leaves no plan behind.
     */
    method Adopt(status: Status, record: Option<Slot>, ghost freed0: seq<nat>, ghost next0: nat)
      requires Balanced(freed0, slots, next0) && Accounted(freed0, next0, freed, next, record)
      requires RightlyDestroyed(destroyed) && forall i :: 0 <= i < |slots| ==> WellKept(slots[i])
      requires status == Ok <==> record.Some?
      modifies this`slots
      ensures Valid()
      ensures slots == if status == Ok then old(slots) + [record.value] else old(slots)
    {
      hide Freed;
      if status == Ok {
        forall id: nat
          ensures OwnedIn(slots + [record.value], id) == OwnedIn(slots, id) + OwnedBy(record, id)
        {
          OwnedAppend(slots, record.value, id);
        }
        slots := slots + [record.value];
      }
      hide OwnedIn;
    }

    /** A new plan variable takes state and destroy function; the source is left without a state. */
    method MoveConstruct(source: nat)
      requires Valid() && source < |slots|
      modifies this`slots
      ensures Valid()
      ensures slots == old(slots)[source := old(slots)[source].(state := None)] + [old(slots)[source]]
    {
      hide Freed;
      var moved := slots[source];
      var emptied := slots[source := moved.(state := None)];
      forall id: nat
        ensures OwnedIn(emptied + [moved], id) == OwnedIn(slots, id)
      {
        OwnedUpdate(slots, source, moved.(state := None), id);
        OwnedAppend(emptied, moved, id);
      }
      hide OwnedIn;
      slots := emptied + [moved];
    }

    /**
      The source is emptied first, so that a plan assigned to itself keeps its state. The target takes the state, frees
      what it held before with the function it still has, and only then takes the source's function.
     */
    method MoveAssign(target: nat, source: nat)
      requires Valid() && source < |slots| && target < |slots|
      modifies this`slots, this`freed, this`destroyed
      ensures Valid()
      ensures target == source ==> slots == old(slots) && freed == old(freed) && destroyed == old(destroyed)
      ensures target != source ==>
        && slots == old(slots)[source := old(slots)[source].(state := None)][target := old(slots)[source]]
        && (forall id: nat :: Freed(freed, id) == Freed(old(freed), id) + Owned(old(slots)[target], id))
        && destroyed == old(destroyed) + DestroyCalls(old(slots)[target])
    {
      hide Freed, Resources;
      var released := slots[source].state;
      slots := slots[source := slots[source].(state := None)];
      ghost var emptied := slots;
      var previous := slots[target].state;
      slots := slots[target := slots[target].(state := released)];
      if previous.Some? {
        Destroy(slots[target].destroy, previous.value);
      }
      slots := slots[target := slots[target].(destroy := slots[source].destroy)];
      forall id: nat
        ensures OwnedIn(slots, id) + Owned(emptied[target], id) == OwnedIn(old(slots), id)
      {
        OwnedUpdate(old(slots), source, old(slots)[source].(state := None), id);
        assert slots == emptied[target := old(slots)[source]];
        OwnedUpdate(emptied, target, old(slots)[source], id);
      }
      hide OwnedIn;
    }

    /** A plan variable goes out of scope. */
    method Drop(i: nat)
      requires Valid() && i < |slots|
      modifies this`slots, this`freed, this`destroyed
      ensures Valid()
      ensures slots == old(slots)[i := old(slots)[i].(state := None)]
      ensures forall id: nat :: Freed(freed, id) == Freed(old(freed), id) + Owned(old(slots)[i], id)
      ensures destroyed == old(destroyed) + DestroyCalls(old(slots)[i])
    {
      hide Freed, Resources;
      var held := slots[i];
      forall id: nat
        ensures OwnedIn(slots[i := held.(state := None)], id) + Owned(held, id) == OwnedIn(slots, id)
      {
        OwnedUpdate(slots, i, held.(state := None), id);
      }
      hide OwnedIn;
      slots := slots[i := held.(state := None)];
      if held.state.Some? {
        Destroy(held.destroy, held.state.value);
      }
    }

    /**
      When every plan is gone, every resource that was ever obtained has been freed, each exactly once, and every
      state by the function it was created with.
     */
    method DropAll()
      requires Valid()
      modifies this`slots, this`freed, this`destroyed
      ensures Valid()
      ensures forall id: nat :: Freed(freed, id) == if id < next then 1 else 0
      ensures forall i :: 0 <= i < |destroyed| ==> destroyed[i].1 == DestroyerOf(destroyed[i].0)
    {
      hide Freed, Owned;
      for i := 0 to |slots|
        invariant Valid() && |slots| == |old(slots)|
        invariant forall j :: 0 <= j < i ==> slots[j].state == None
      {
        Drop(i);
      }
      forall id: nat
        ensures OwnedIn(slots, id) == 0
      {
        NothingOwned(slots, id);
      }
    }
  }

  /** The call that the end of an owner makes: none if it holds no state. */
  function DestroyCalls(slot: Slot): seq<(State, DestroyFn)> {
    if slot.state.None? then [] else [(slot.state.value, slot.destroy)]
  }

  /** Which factory to call, and what the environment grants it. */
  datatype Request =
    | Armpl(f64: bool, inGranted: bool, outGranted: bool, planGranted: bool)
    | Aocl(setupGranted: bool)
    | Mkl(createGranted: bool, configured: bool)
    | Pocket(f64: bool, warmed: bool)
    | Cmsis(initialized: bool)

  /** Create a plan; a plan that could not be created leaves the program's plans as they were. */
  method Create(program: Program, request: Request) returns (status: Status)
    requires program.Valid()
    modifies program
    ensures program.Valid()
    ensures request.Armpl? ==>
      && status == (if request.inGranted && request.outGranted && request.planGranted then Ok else BackendError)
      && (status == Ok ==> program.slots == old(program.slots) + [Slot(
            Some(ArmplState(request.f64, old(program.next), Some(old(program.next) + 3), Some(old(program.next) + 1),
                            Some(old(program.next) + 2))),
            ArmplDestroy(request.f64))])
    ensures request.Aocl? ==>
      && status == (if request.setupGranted then Ok else BackendError)
      && (status == Ok ==> program.slots == old(program.slots) + [Slot(
            Some(AoclState(old(program.next), Some(old(program.next) + 1))), AoclDestroy)])
    ensures request.Mkl? ==>
      && status == (if request.createGranted && request.configured then Ok else BackendError)
      && (status == Ok ==> program.slots == old(program.slots) + [Slot(
            Some(MklState(old(program.next) + 1, Some(old(program.next)))), MklDestroy)])
    ensures request.Pocket? ==>
      && status == (if request.warmed then Ok else BackendError)
      && (status == Ok ==> program.slots == old(program.slots) + [Slot(
            Some(PocketState(request.f64, old(program.next))), PocketDestroy(request.f64))])
    ensures request.Cmsis? ==>
      && status == (if request.initialized then Ok else UnsupportedLength)
      && (status == Ok ==> program.slots == old(program.slots) + [Slot(
            Some(CmsisState(old(program.next))), CmsisDestroy)])
    ensures status != Ok ==> program.slots == old(program.slots)
  {
    ghost var freed0, next0 := program.freed, program.next;
    var record: Option<Slot>;
    match request {
      case Armpl(f64, i, o, p) => status, record := program.MakeArmpl(f64, i, o, p);
      case Aocl(s) => status, record := program.MakeAocl(s);
      case Mkl(c, ok) => status, record := program.MakeMkl(c, ok);
      case Pocket(f64, ok) => status, record := program.MakePocket(f64, ok);
      case Cmsis(ok) => status, record := program.MakeCmsis(ok);
    }
    hide Balanced, Accounted, RightlyDestroyed;
    program.Adopt(status, record, freed0, next0);
  }
}
