/** The lifetime protocol of a foreign handle in the committed Kotlin binding
    (`destroy` and `callWithPointer`): a lock-free reference count with a destroy flag,
    under every interleaving of its atomic steps. */
module Handle {

  /** One execution of `callWithPointer` or `destroy`; a thread may have several, nested or not. */
  type Invocation = nat

  const LONG_MAX: int := 0x7fff_ffff_ffff_ffff

  datatype State = State(
    callCounter: int,
    wasDestroyed: bool,
    loaded: map<Invocation, int>,    // read `c`, not yet at the compare-and-set
    inFlight: set<Invocation>,       // the pointer is in use
    destroying: set<Invocation>,     // won the destroy flag, decrement still due
    cleaning: set<Invocation>,       // brought the counter to zero, clean still due
    cleans: nat)                     // how often these paths ran the cleaner

  /** The atomic steps of the two methods. */
  datatype Step =
    | Load(id: Invocation)           // c = callCounter.get(), and the two guards that throw
    | CompareAndSet(id: Invocation)  // callCounter.compareAndSet(c, c + 1), retried on failure
    | Release(id: Invocation)        // the `finally` decrement of a call
    | ClaimDestroy(id: Invocation)   // wasDestroyed.compareAndSet(false, true)
    | DropInitial(id: Invocation)    // the decrement of destroy
    | Clean(id: Invocation)          // cleanable.clean()

  const INITIAL: State := State(1, false, map[], {}, {}, {}, 0)

  predicate Idle(s: State, id: Invocation) {
    id !in s.loaded && id !in s.inFlight && id !in s.destroying && id !in s.cleaning
  }

  /** `decrementAndGet() == 0L` decides whether this invocation must clean. */
  function Decrement(s: State, id: Invocation): State {
    s.(callCounter := s.callCounter - 1, cleaning := if s.callCounter - 1 == 0 then s.cleaning + {id} else s.cleaning)
  }

  /** The state after a step; a step its invocation is not ready for changes nothing. */
  function Next(s: State, step: Step): State {
    match step
    case Load(id) =>
      if Idle(s, id) && s.callCounter != 0 && s.callCounter != LONG_MAX
          then s.(loaded := s.loaded[id := s.callCounter]) else s
    case CompareAndSet(id) =>
      if id !in s.loaded then s
      else if s.callCounter == s.loaded[id]
      then s.(callCounter := s.loaded[id] + 1, loaded := s.loaded - {id}, inFlight := s.inFlight + {id})
      else s.(loaded := s.loaded - {id})
    case Release(id) =>
      if id in s.inFlight then Decrement(s.(inFlight := s.inFlight - {id}), id) else s
    case ClaimDestroy(id) =>
      if Idle(s, id) && !s.wasDestroyed then s.(wasDestroyed := true, destroying := s.destroying + {id}) else s
    case DropInitial(id) =>
      if id in s.destroying then Decrement(s.(destroying := s.destroying - {id}), id) else s
    case Clean(id) =>
      if id in s.cleaning then s.(cleaning := s.cleaning - {id}, cleans := s.cleans + 1) else s
  }

  function Run(s: State, steps: seq<Step>): State
    decreases |steps|
  {
    if steps == [] then s else Run(Next(s, steps[0]), steps[1..])
  }

  /** The initial count of one is still held. */
  predicate HoldsInitial(s: State) { !s.wasDestroyed || s.destroying != {} }

  ghost predicate Inv(s: State) {
    && s.callCounter == |s.inFlight| + (if HoldsInitial(s) then 1 else 0)
    && s.callCounter <= LONG_MAX
    && (forall id :: id in s.loaded ==> 0 < s.loaded[id] < LONG_MAX && Apart(s, id))
    && s.inFlight !! s.destroying !! s.cleaning
    && |s.destroying| <= 1
    && (!s.wasDestroyed ==> s.destroying == {})
    && s.cleans + |s.cleaning| == (if s.callCounter == 0 then 1 else 0)
  }

  predicate Apart(s: State, id: Invocation) {
    id !in s.inFlight && id !in s.destroying && id !in s.cleaning
  }

  lemma SingletonGone(s: set<Invocation>, id: Invocation)
    requires |s| <= 1 && id in s
    ensures s - {id} == {} && |s| == 1
  {
    assert |s - {id}| == 0;
  }

  lemma {:induction false} CompareAndSetKeepsInv(s: State, id: Invocation)
    requires Inv(s)
    ensures Inv(Next(s, CompareAndSet(id)))
  {
    if id in s.loaded && s.callCounter == s.loaded[id] {
      assert Apart(s, id);
      assert |s.inFlight + {id}| == |s.inFlight| + 1;
    }
  }

  lemma {:induction false} ReleaseKeepsInv(s: State, id: Invocation)
    requires Inv(s)
    ensures Inv(Next(s, Release(id)))
  {
    if id in s.inFlight {
      assert |s.inFlight - {id}| == |s.inFlight| - 1;
      assert |s.cleaning| <= 1 && s.cleaning == {};
    }
  }

  lemma {:induction false} DropInitialKeepsInv(s: State, id: Invocation)
    requires Inv(s)
    ensures Inv(Next(s, DropInitial(id)))
  {
    if id in s.destroying {
      SingletonGone(s.destroying, id);
      assert s.cleaning == {};
    }
  }

  lemma {:induction false} CleanKeepsInv(s: State, id: Invocation)
    requires Inv(s)
    ensures Inv(Next(s, Clean(id)))
  {
    if id in s.cleaning {
      assert |s.cleaning - {id}| == |s.cleaning| - 1;
    }
  }

  lemma {:induction false} NextKeepsInv(s: State, step: Step)
    requires Inv(s)
    ensures Inv(Next(s, step))
  {
    match step
    case Load(id) =>
    case CompareAndSet(id) => CompareAndSetKeepsInv(s, id);
    case Release(id) => ReleaseKeepsInv(s, id);
    case ClaimDestroy(id) =>
    case DropInitial(id) => DropInitialKeepsInv(s, id);
    case Clean(id) => CleanKeepsInv(s, id);
  }

  lemma {:induction false} RunKeepsInv(s: State, steps: seq<Step>)
    requires Inv(s)
    ensures Inv(Run(s, steps))
    decreases |steps|
  {
    if steps != [] {
      NextKeepsInv(s, steps[0]);
      RunKeepsInv(Next(s, steps[0]), steps[1..]);
    }
  }

  /** In every reachable state the counter is the calls in flight plus one, until destroy's
      decrement takes the one away; it never leaves the range of a `Long`. */
  lemma {:induction false} CounterCountsCalls(steps: seq<Step>)
    ensures var s := Run(INITIAL, steps);
            && s.callCounter == |s.inFlight| + (if HoldsInitial(s) then 1 else 0)
            && 0 <= s.callCounter <= LONG_MAX
  {
    RunKeepsInv(INITIAL, steps);
  }

  /** At most one clean, never on a handle that nobody destroyed, and never with a call in flight:
      once an invocation is due to clean, no call is in flight then or ever after. */
  lemma {:induction false} CleansSafely(steps: seq<Step>, more: seq<Step>)
    ensures var s, later := Run(INITIAL, steps), Run(INITIAL, steps + more);
            && s.cleans + |s.cleaning| <= 1
            && (!s.wasDestroyed ==> s.cleans == 0 && s.cleaning == {})
            && (s.cleans > 0 || s.cleaning != {} ==>
                  s.inFlight == {} && later.inFlight == {} && later.cleans + |later.cleaning| == 1)
  {
    RunKeepsInv(INITIAL, steps);
    RunConcat(INITIAL, steps, more);
    var s := Run(INITIAL, steps);
    assert s.cleaning != {} ==> |s.cleaning| > 0;
    if s.callCounter == 0 {
      ZeroIsForever(s, more);
      RunKeepsInv(s, more);
    }
  }

  lemma {:induction false} RunConcat(s: State, steps: seq<Step>, more: seq<Step>)
    ensures Run(s, steps + more) == Run(Run(s, steps), more)
    decreases |steps|
  {
    if steps == [] {
      assert steps + more == more;
    } else {
      RunConcat(Next(s, steps[0]), steps[1..], more);
      assert (steps + more)[1..] == steps[1..] + more;
    }
  }

  /** A counter at zero stays there: a late compare-and-set still holds a non-zero `c` and fails. */
  lemma {:induction false} ZeroIsForever(s: State, more: seq<Step>)
    requires Inv(s) && s.callCounter == 0
    ensures Run(s, more).callCounter == 0
    decreases |more|
  {
    if more != [] {
      NextKeepsInv(s, more[0]);
      assert s.inFlight == {} && s.destroying == {};
      ZeroIsForever(Next(s, more[0]), more[1..]);
    }
  }

  /** Nothing is left undone. */
  predicate Quiescent(s: State) {
    s.inFlight == {} && s.destroying == {} && s.cleaning == {}
  }

  /** When everything has come to rest, the handle was cleaned exactly once if and only if it was
      destroyed: no leak, no double free. */
  lemma {:induction false} CleanedExactlyOnce(steps: seq<Step>)
    requires Quiescent(Run(INITIAL, steps))
    ensures Run(INITIAL, steps).cleans == if Run(INITIAL, steps).wasDestroyed then 1 else 0
  {
    RunKeepsInv(INITIAL, steps);
  }

  // ----- Calls do get through -----

  /** A call that meets no other step gets in flight, and afterwards leaves everything as it found it; it is refused
      exactly when the handle is already cleaned up or the counter is full. */
  lemma LoneCall(steps: seq<Step>, id: Invocation)
    requires Idle(Run(INITIAL, steps), id)
    ensures var s := Run(INITIAL, steps);
            var s' := Run(s, [Load(id), CompareAndSet(id)]);
            && (s.callCounter == 0 || s.callCounter == 9223372036854775807 ==> s' == s)
            && (0 < s.callCounter < 9223372036854775807 ==>
                  && s'.inFlight == s.inFlight + {id} && s'.callCounter == s.callCounter + 1
                  && Run(s', [Release(id)]) == s)
            && (!s.wasDestroyed ==> s.callCounter > 0)
  {
    RunKeepsInv(INITIAL, steps);
    var s := Run(INITIAL, steps);
    Undestroyed(s);
    TwoSteps(s, Load(id), CompareAndSet(id));
    hide Inv, Run, Next;
    if 0 < s.callCounter < LONG_MAX {
      CallEnters(s, id);
      OneStep(Next(Next(s, Load(id)), CompareAndSet(id)), Release(id));
    } else {
      CallRefused(s, id);
    }
  }

  lemma Undestroyed(s: State)
    requires Inv(s)
    ensures 0 <= s.callCounter <= LONG_MAX && (!s.wasDestroyed ==> s.callCounter > 0)
  {
  }

  lemma CallRefused(s: State, id: Invocation)
    requires Idle(s, id) && (s.callCounter == 0 || s.callCounter == LONG_MAX)
    ensures Next(Next(s, Load(id)), CompareAndSet(id)) == s
  {
  }

  lemma CallEnters(s: State, id: Invocation)
    requires Idle(s, id) && 0 < s.callCounter < LONG_MAX
    ensures var s' := Next(Next(s, Load(id)), CompareAndSet(id));
            s'.inFlight == s.inFlight + {id} && s'.callCounter == s.callCounter + 1 && Next(s', Release(id)) == s
  {
    var s' := Next(Next(s, Load(id)), CompareAndSet(id));
    assert s'.loaded == s.loaded;
    assert s'.inFlight - {id} == s.inFlight;
  }

  /** The first destroy that meets no other step cleans at once if no call is in flight, and otherwise leaves it to
      the last of them; a second one does nothing. */
  lemma LoneDestroy(steps: seq<Step>, id: Invocation)
    requires Idle(Run(INITIAL, steps), id)
    ensures var s := Run(INITIAL, steps);
            var s' := Run(s, [ClaimDestroy(id), DropInitial(id)]);
            && (s.wasDestroyed ==> s' == s)
            && (!s.wasDestroyed ==> s'.wasDestroyed && s'.destroying == {} && s'.callCounter == |s.inFlight|)
            && (!s.wasDestroyed && s.inFlight == {} ==> Run(s', [Clean(id)]).cleans == 1)
            && (!s.wasDestroyed && s.inFlight != {} ==> s'.cleaning == {} && s'.cleans == 0)
  {
    RunKeepsInv(INITIAL, steps);
    var s := Run(INITIAL, steps);
    TwoSteps(s, ClaimDestroy(id), DropInitial(id));
    var s' := Next(Next(s, ClaimDestroy(id)), DropInitial(id));
    OneStep(s', Clean(id));
    if !s.wasDestroyed {
      assert s.destroying + {id} - {id} == {};
      assert s.inFlight != {} ==> |s.inFlight| > 0;
    }
  }

  /** On a destroyed handle the last call to end cleans. */
  lemma LastCallCleans(steps: seq<Step>, id: Invocation)
    requires var s := Run(INITIAL, steps); s.wasDestroyed && s.destroying == {} && s.inFlight == {id}
    ensures Run(Run(INITIAL, steps), [Release(id), Clean(id)]).cleans == 1
  {
    RunKeepsInv(INITIAL, steps);
    TwoSteps(Run(INITIAL, steps), Release(id), Clean(id));
  }

  lemma OneStep(s: State, a: Step)
    ensures Run(s, [a]) == Next(s, a)
  {
    assert [a][1..] == [];
  }

  lemma TwoSteps(s: State, a: Step, b: Step)
    ensures Run(s, [a, b]) == Next(Next(s, a), b)
  {
    assert [a, b][1..] == [b];
    OneStep(Next(s, a), b);
  }

  lemma Dropping(s: State, id: Invocation)
    requires Inv(s) && id in s.destroying
    ensures id !in s.cleaning
    ensures Next(s, DropInitial(id))
            == State(s.callCounter - 1, s.wasDestroyed, s.loaded, s.inFlight, s.destroying - {id},
                     if s.callCounter - 1 == 0 then s.cleaning + {id} else s.cleaning, s.cleans)
  {
  }

  /** The object itself, one method per atomic step. Its ghost fields are where each invocation is. */
  class FFIObject {
    var callCounter: int
    var wasDestroyed: bool
    var cleans: nat
    ghost var loaded: map<Invocation, int>
    ghost var inFlight: set<Invocation>
    ghost var destroying: set<Invocation>
    ghost var cleaning: set<Invocation>

    ghost function Abs(): State
      reads this
    {
      State(callCounter, wasDestroyed, loaded, inFlight, destroying, cleaning, cleans)
    }

    constructor ()
      ensures Abs() == INITIAL && Inv(Abs())
    {
      callCounter, wasDestroyed, cleans := 1, false, 0;
      loaded, inFlight, destroying, cleaning := map[], {}, {}, {};
    }

    /** `callCounter.get()` and the guards; `None` stands for the exception. */
    method LoadCounter(id: Invocation) returns (ok: bool, c: int)
      requires Inv(Abs()) && Idle(Abs(), id)
      modifies this
      ensures Inv(Abs()) && Abs() == Next(old(Abs()), Load(id))
      ensures ok <==> id in loaded
      ensures ok ==> c == loaded[id] && c + 1 <= LONG_MAX
    {
      NextKeepsInv(Abs(), Load(id));
      c := callCounter;
      ok := c != 0 && c != LONG_MAX;
      if ok {
        loaded := loaded[id := c];
      }
    }

    /** `callCounter.compareAndSet(c, c + 1)`. */
    method CompareAndSetCounter(id: Invocation, c: int) returns (done: bool)
      requires Inv(Abs()) && id in loaded && loaded[id] == c
      modifies this
      ensures Inv(Abs()) && Abs() == Next(old(Abs()), CompareAndSet(id))
      ensures done <==> id in inFlight
    {
      NextKeepsInv(Abs(), CompareAndSet(id));
      done := callCounter == c;
      if done {
        callCounter := c + 1;
        inFlight := inFlight + {id};
      }
      loaded := loaded - {id};
    }

    /** The `finally` block's decrement; `last` says this invocation must clean. */
    method ReleaseCall(id: Invocation) returns (last: bool)
      requires Inv(Abs()) && id in inFlight
      modifies this
      ensures Inv(Abs()) && Abs() == Next(old(Abs()), Release(id))
      ensures last <==> id in cleaning
    {
      NextKeepsInv(Abs(), Release(id));
      callCounter := callCounter - 1;
      last := callCounter == 0;
      inFlight := inFlight - {id};
      if last {
        cleaning := cleaning + {id};
      }
    }

    /** `wasDestroyed.compareAndSet(false, true)`. */
    method ClaimDestroyFlag(id: Invocation) returns (won: bool)
      requires Inv(Abs()) && Idle(Abs(), id)
      modifies this
      ensures Inv(Abs()) && Abs() == Next(old(Abs()), ClaimDestroy(id))
      ensures won <==> id in destroying
    {
      NextKeepsInv(Abs(), ClaimDestroy(id));
      won := !wasDestroyed;
      if won {
        wasDestroyed := true;
        destroying := destroying + {id};
      }
    }

    method DropInitialCount(id: Invocation) returns (last: bool)
      requires Inv(Abs()) && id in destroying
      modifies this
      ensures Inv(Abs()) && Abs() == Next(old(Abs()), DropInitial(id))
      ensures last <==> id in cleaning
    {
      NextKeepsInv(Abs(), DropInitial(id));
      Dropping(Abs(), id);
      hide Inv, Next;
      callCounter := callCounter - 1;
      last := callCounter == 0;
      destroying := destroying - {id};
      if last {
        cleaning := cleaning + {id};
      }
    }

    method RunCleaner(id: Invocation)
      requires Inv(Abs()) && id in cleaning
      modifies this
      ensures Inv(Abs()) && Abs() == Next(old(Abs()), Clean(id))
      ensures inFlight == {} && cleans == 1
    {
      NextKeepsInv(Abs(), Clean(id));
      cleans := cleans + 1;
      cleaning := cleaning - {id};
    }
  }
}
