/** `artifact_set_event_handler`, the path by which the backend's own change
    callbacks set artifacts. It lowers the artifact, takes
    `artifact_set_lock` only when the lock is free (a no-op guard,
    `DummyArtifactSetLock`, otherwise), calls the setter, turns a
    `ValueError` into "no change" and releases what it took.

    A setter may itself make the backend fire further set events before it
    returns; those nested events are part of the input, as a tree. The lock
    is a flag: held or free. */
module SetEvents {
  import opened Wrappers
  import opened Artifacts
  import opened Backend

  /** A set event: the artifact as it arrives, the setter as a callable
      whose only positional argument is the artifact (a bound method), and
      the events the backend fires, in order, while that setter runs. */
  datatype SetEvent = SetEvent(artifact: Artifact, setter: Artifact -> SetResult, nested: seq<SetEvent>)

  /** The guard `with` enters: the real lock or `DummyArtifactSetLock`. */
  datatype Guard = RealLock | NoOpLock

  /** Line 430: the real lock iff it is not `locked()`. */
  function ChooseGuard(held: bool): (g: Guard)
    ensures g == RealLock <==> !held
  {
    if held then NoOpLock else RealLock
  }

  /** `__enter__`: the lock state after entering, or `None` when entering
      would wait forever. `DummyArtifactSetLock.__enter__` does nothing;
      acquiring a `threading.Lock` takes a free lock and never returns on a
      held one, since the lock is not reentrant. */
  function Enter(g: Guard, held: bool): (r: Option<bool>)
    ensures g == NoOpLock ==> r == Some(held)
    ensures g == RealLock ==> (r.None? <==> held)
    ensures g == RealLock && r.Some? ==> r.value
  {
    match g
    case NoOpLock => Some(held)
    case RealLock => if held then None else Some(true)
  }

  /** `__exit__`: the lock state after leaving, or `None` when leaving fails.
      `DummyArtifactSetLock.__exit__` does nothing; releasing a
      `threading.Lock` frees a held lock and raises `RuntimeError` on a free
      one. */
  function Exit(g: Guard, held: bool): (r: Option<bool>)
    ensures g == NoOpLock ==> r == Some(held)
    ensures g == RealLock ==> (r.None? <==> !held)
    ensures g == RealLock && r.Some? ==> !r.value
  {
    match g
    case NoOpLock => Some(held)
    case RealLock => if held then Some(false) else None
  }

  /** The guard line 430 picks can always be entered, and leaving it after a
      body that left the lock held restores the state the handler found. */
  lemma ChosenGuardBalanced(held: bool)
    ensures Enter(ChooseGuard(held), held) == Some(true)
    ensures Exit(ChooseGuard(held), true) == Some(held)
  {
  }

  /** The handler's result: the setter's boolean, the exception that left
      the handler, or the lock misbehaving (a wait that never ends, a
      release of a free lock). */
  datatype Outcome = Returned(changed: bool) | Propagated(exc: Exc) | Stuck

  /** The `try`/`except ValueError` around the setter call. */
  function Settle(s: SetResult): (o: Outcome)
    ensures s == Raised(ValueError) ==> o == Returned(false)
    ensures s.Changed? ==> o == Returned(s.changed)
    ensures s.Raised? && s.exc != ValueError ==> o == Propagated(s.exc)
  {
    match s
    case Changed(b) => Returned(b)
    case Raised(e) => if e == ValueError then Returned(false) else Propagated(e)
  }

  /** One setter call: the artifact it received and whether the lock was
      held while it ran. */
  datatype Invocation = Invocation(passed: Artifact, lockHeld: bool)

  /** What a run of events did to the lock and the setters: the lock flag
      afterwards, how often the real lock was acquired and released, and
      every setter call in order. */
  datatype Trace = Trace(lockAfter: bool, acquired: int, released: int, log: seq<Invocation>)

  /** What handling one event did: its outcome and its trace. */
  datatype Run = Run(outcome: Outcome, trace: Trace)

  /** The artifacts of an event tree in the order their setters run: the
      event first, then its nested events, each with its own. */
  function Preorder(e: SetEvent): seq<Artifact>
    decreases e, |e.nested| + 1
  {
    [e.artifact] + PreorderFrom(e, 0)
  }

  function PreorderFrom(e: SetEvent, i: nat): seq<Artifact>
    requires i <= |e.nested|
    decreases e, |e.nested| - i
  {
    if i == |e.nested| then [] else Preorder(e.nested[i]) + PreorderFrom(e, i + 1)
  }

  /** `artifact_set_event_handler(setter, artifact)` with the lock in state
      `held`. The artifact is lowered before the lock is looked at, so with
      no lifter the handler raises `AttributeError` having touched neither
      the lock nor the setter. With a lifter, whatever the lock state, the
      lock ends as it started; the real lock is acquired and released once
      when it was free and never when it was held; the setter always
      receives the lowered artifact and always runs with the lock held; a
      `ValueError` reads as "no change"; and the lock never makes the
      handler wait forever. */
  function Handle(held: bool, lifter: Option<Lifter>, e: SetEvent): (r: Run)
    ensures lifter.None? ==> r.outcome == Propagated(AttributeError) && r.trace.log == []
    ensures lifter.Some? ==> r.outcome == Settle(e.setter(lifter.value.lower(e.artifact)))
    ensures r.trace.lockAfter == held
    ensures r.trace.acquired == r.trace.released == (if held || lifter.None? then 0 else 1)
    ensures lifter.Some? ==> |r.trace.log| == |Preorder(e)|
    ensures lifter.Some? ==> forall k :: 0 <= k < |r.trace.log| ==>
      r.trace.log[k] == Invocation(lifter.value.lower(Preorder(e)[k]), true)
  {
    match lifter
    case None => Run(Propagated(AttributeError), Trace(held, 0, 0, []))
    case Some(l) => HandleWith(held, l, e)
  }

  /** The handler once the artifact has been lowered with `l`. */
  function HandleWith(held: bool, l: Lifter, e: SetEvent): (r: Run)
    ensures r.outcome == Settle(e.setter(l.lower(e.artifact)))
    ensures r.trace.lockAfter == held
    ensures r.trace.acquired == r.trace.released == (if held then 0 else 1)
    ensures |r.trace.log| == |Preorder(e)|
    ensures forall k :: 0 <= k < |r.trace.log| ==> r.trace.log[k] == Invocation(l.lower(Preorder(e)[k]), true)
    decreases e, |e.nested| + 1
  {
    var g := ChooseGuard(held);
    match Enter(g, held)
    case None => Run(Stuck, Trace(held, 0, 0, []))
    case Some(inside) =>
      var nested := HandleFrom(inside, l, e, 0);
      var call := Invocation(l.lower(e.artifact), inside);
      var outcome := Settle(e.setter(l.lower(e.artifact)));
      var acquired := if g == RealLock then 1 else 0;
      match Exit(g, nested.lockAfter)
      case None => Run(Stuck, Trace(nested.lockAfter, acquired + nested.acquired, nested.released, [call] + nested.log))
      case Some(after) =>
        Run(outcome, Trace(after, acquired + nested.acquired, acquired + nested.released, [call] + nested.log))
  }

  /** The nested events `e.nested[i..]`, each handled in turn while the
      outer setter runs. Their own outcomes go back to the backend that
      fired them, not to the outer setter, so only their trace is kept. */
  function HandleFrom(held: bool, l: Lifter, e: SetEvent, i: nat): (r: Trace)
    requires i <= |e.nested|
    ensures r.lockAfter == held
    ensures r.acquired == r.released
    ensures held ==> r.acquired == 0
    ensures |r.log| == |PreorderFrom(e, i)|
    ensures forall k :: 0 <= k < |r.log| ==> r.log[k] == Invocation(l.lower(PreorderFrom(e, i)[k]), true)
    decreases e, |e.nested| - i
  {
    if i == |e.nested| then Trace(held, 0, 0, [])
    else
      var first := HandleWith(held, l, e.nested[i]);
      var rest := HandleFrom(first.trace.lockAfter, l, e, i + 1);
      Trace(rest.lockAfter, first.trace.acquired + rest.acquired,
        first.trace.released + rest.released, first.trace.log + rest.log)
  }

  /** A backend that fires a set event of `a` from inside every setter
      call, `n` levels deep. */
  function Chain(n: nat, a: Artifact, setter: Artifact -> SetResult): SetEvent {
    if n == 0 then SetEvent(a, setter, []) else SetEvent(a, setter, [Chain(n - 1, a, setter)])
  }

  lemma {:induction false} ChainPreorder(n: nat, a: Artifact, setter: Artifact -> SetResult)
    ensures |Preorder(Chain(n, a, setter))| == n + 1
    ensures forall k :: 0 <= k <= n ==> Preorder(Chain(n, a, setter))[k] == a
  {
    var e := Chain(n, a, setter);
    if n == 0 {
      assert PreorderFrom(e, 0) == [];
    } else {
      ChainPreorder(n - 1, a, setter);
      assert PreorderFrom(e, 1) == [];
      assert PreorderFrom(e, 0) == Preorder(Chain(n - 1, a, setter));
    }
  }

  /** Taking the lock does not cut a chain of callbacks off: under the held
      lock the no-op guard is entered and the setter runs again, at every
      depth, so a backend that answers each set with another set event is
      not stopped by the handler, whatever the depth. */
  lemma NoCutOff(held: bool, l: Lifter, n: nat, a: Artifact, setter: Artifact -> SetResult)
    ensures |HandleWith(held, l, Chain(n, a, setter)).trace.log| == n + 1
    ensures forall k :: 0 <= k <= n ==>
      HandleWith(held, l, Chain(n, a, setter)).trace.log[k] == Invocation(l.lower(a), true)
  {
    ChainPreorder(n, a, setter);
  }

  /** How the handler's `setter_func` is called at line 433:
      `setter_func(lowered_artifact, **kwargs)`. A `BoundSetter` takes the
      artifact as its only positional argument, as `self._set_x` does. An
      `UnboundMethod` is the plain function of a method
      `_set_x(self, artifact, **kwargs)`, whose behaviour on this interface
      is `body`; called this way it receives the artifact as `self` and
      nothing for `artifact`, and Python raises `TypeError` before the body
      runs. */
  datatype SetterRef = BoundSetter(call: Artifact -> SetResult) | UnboundMethod(body: Artifact -> SetResult)

  function CallSetter(s: SetterRef, x: Artifact): (r: SetResult)
    ensures s.BoundSetter? ==> r == s.call(x)
    ensures s.UnboundMethod? ==> r == Raised(OtherError("TypeError"))
  {
    match s
    case BoundSetter(f) => f(x)
    case UnboundMethod(_) => Raised(OtherError("TypeError"))
  }

  /** A call of a setter decorated with `artifact_set_event`, as written:
      the decorator captured the plain function when the class body ran and
      hands it, unbound, to the handler. Whatever the setter does, a
      `TypeError` leaves the handler once the artifact is lowered; the lock
      is still restored on the way out. */
  function DecoratedCall(held: bool, lifter: Option<Lifter>, body: Artifact -> SetResult, artifact: Artifact): (r: Run)
    ensures lifter.Some? ==> r.outcome == Propagated(OtherError("TypeError"))
    ensures lifter.None? ==> r.outcome == Propagated(AttributeError)
    ensures r.trace.lockAfter == held
    ensures r.trace.acquired == r.trace.released
  {
    Handle(held, lifter, SetEvent(artifact, x => CallSetter(UnboundMethod(body), x), []))
  }

  /** The decorator as evidently intended: the handler is given the method
      bound to the interface, so the setter's own result comes back, with
      `ValueError` read as "no change". */
  function DecoratedCallBound(held: bool, lifter: Option<Lifter>, body: Artifact -> SetResult,
                              artifact: Artifact, nested: seq<SetEvent>): (r: Run)
    ensures lifter.Some? ==> r.outcome == Settle(body(lifter.value.lower(artifact)))
    ensures lifter.None? ==> r.outcome == Propagated(AttributeError)
    ensures r.trace.lockAfter == held
    ensures r.trace.acquired == r.trace.released
  {
    Handle(held, lifter, SetEvent(artifact, x => CallSetter(BoundSetter(body), x), nested))
  }

  /** A setter that reports a change: the bound call returns true, the
      decorated call as written raises `TypeError`. */
  lemma DecoratorDropsSelf(l: Lifter, artifact: Artifact)
    ensures DecoratedCallBound(false, Some(l), _ => Changed(true), artifact, []).outcome == Returned(true)
    ensures DecoratedCall(false, Some(l), _ => Changed(true), artifact).outcome == Propagated(OtherError("TypeError"))
  {
  }
}
