/** Errors of failed threads: threads that fail and take themselves out of the registry, and callers of wait and
    raise_if_error, interleaved step by step. A caller's check for an error and its taking of the error are two
    steps, as only the second is done under the lock of the errors. The registry lock that get holds over both
    is not modelled: it only takes interleavings away. */
module ThreadErrors {
  import opened Prelude
  import opened Threading

  type CallerId = nat

  datatype Phase = Running | Failing(attributeError: bool) | Leaving | Ended

  /** failed: whether and how the target raised. A fatal thread's exception goes to the exception hook instead. */
  datatype Thread = Thread(name: string, fatal: bool, phase: Phase, failed: Option<Failure>)

  /** Where a caller of wait is. */
  datatype Place =
    | Getting                               // before looking up the thread
    | Found(thread: ThreadId)               // inside get: found it, before checking for an error
    | TakingFound(thread: ThreadId)         // inside get: saw an error, before taking it
    | Joining(thread: ThreadId)
    | Final(found: Option<ThreadId>)        // before the last check for an error
    | TakingFinal(found: Option<ThreadId>)  // saw an error, before taking it
    | Returned(found: Option<ThreadId>)
    | Raised(exception: Exception)

  datatype Caller = Caller(name: string, place: Place)

  /** Who took which error. */
  datatype Taking = Taking(name: string, failure: Failure, caller: CallerId)

  datatype State = State(
    objs: Registry,
    errors: Errors,
    threads: map<ThreadId, Thread>,
    callers: map<CallerId, Caller>,
    taken: seq<Taking>,
    reused: bool  // some thread got the name of a thread whose error is not taken yet
  )

  const INITIAL := State(map[], map[], map[], map[], [], false)

  datatype Step =
    | Add(t: ThreadId, name: string, fatal: bool)
    | Finish(t: ThreadId)                         // the target returns
    | Fail(t: ThreadId, attributeError: bool)     // the target raises
    | SetError(t: ThreadId)                       // the failure is recorded, or handed to the exception hook
    | Remove(t: ThreadId)
    | CallWait(c: CallerId, name: string)
    | CallRaiseIfError(c: CallerId, name: string)
    | Advance(c: CallerId)                        // a caller's next step

  function Move(s: State, t: ThreadId, phase: Phase): State
    requires t in s.threads
  {
    s.(threads := s.threads[t := s.threads[t].(phase := phase)])
  }

  function Go(s: State, c: CallerId, place: Place): State
    requires c in s.callers
  {
    s.(callers := s.callers[c := s.callers[c].(place := place)])
  }

  /** Taking the error of the name, and raising it; wait suppresses an AttributeError raised inside get. */
  function Take(s: State, c: CallerId, found: Option<ThreadId>, suppress: bool): State
    requires c in s.callers
  {
    var name := s.callers[c].name;
    var (errors, exception) := Popped(s.errors, name);
    var taken := if exception.KeyError? then s.taken else s.taken + [Taking(name, exception.failure, c)];
    var s' := s.(errors := errors, taken := taken);
    var hides := suppress && exception.ThreadFailed? && exception.failure.attributeError;
    Go(s', c, if hides then Final(found) else Raised(exception))
  }

  function AdvanceCaller(s: State, c: CallerId): Option<State>
    requires c in s.callers
  {
    var name := s.callers[c].name;
    match s.callers[c].place
    case Getting => Some(Go(s, c, if name in s.objs then Found(s.objs[name]) else Final(None)))
    case Found(t) => Some(Go(s, c, if name in s.errors then TakingFound(t) else Joining(t)))
    case TakingFound(t) => Some(Take(s, c, Some(t), true))
    case Joining(t) => if t in s.threads && s.threads[t].phase == Ended then Some(Go(s, c, Final(Some(t)))) else None
    case Final(found) => Some(Go(s, c, if name in s.errors then TakingFinal(found) else Returned(found)))
    case TakingFinal(found) => Some(Take(s, c, found, false))
    case Returned(_) => None
    case Raised(_) => None
  }

  predicate InPhase(s: State, t: ThreadId, phase: Phase) {
    t in s.threads && s.threads[t].phase == phase
  }

  function Recorded(s: State, t: ThreadId): State
    requires t in s.threads && s.threads[t].failed.Some?
  {
    var thread := s.threads[t];
    Move(s, t, Leaving).(errors := if thread.fatal then s.errors else s.errors[thread.name := thread.failed.value])
  }

  /** The state after a step, if the step can happen. */
  function Next(s: State, step: Step): Option<State> {
    match step
    case Add(t, name, fatal) =>
      if t in s.threads then None
      else Some(match Added(s.objs, name, t)
                case Ok(objs) => s.(objs := objs, threads := s.threads[t := Thread(name, fatal, Running, None)],
                                    reused := s.reused || name in s.errors)
                case Err(_) => s)
    case Finish(t) => if InPhase(s, t, Running) then Some(Move(s, t, Leaving)) else None
    case Fail(t, attributeError) =>
      if InPhase(s, t, Running)
      then
        var failing := s.threads[t].(phase := Failing(attributeError), failed := Some(Failure(t, attributeError)));
        Some(s.(threads := s.threads[t := failing]))
      else None
    case SetError(t) =>
      if t in s.threads && s.threads[t].phase.Failing? && s.threads[t].failed.Some? then Some(Recorded(s, t)) else None
    case Remove(t) =>
      if InPhase(s, t, Leaving)
      then Some(match Removed(s.objs, s.threads[t].name)
                case Ok(objs) => Move(s, t, Ended).(objs := objs)
                case Err(_) => Move(s, t, Ended))
      else None
    case CallWait(c, name) =>
      if c in s.callers then None else Some(s.(callers := s.callers[c := Caller(name, Getting)]))
    case CallRaiseIfError(c, name) =>
      if c in s.callers then None else Some(s.(callers := s.callers[c := Caller(name, Final(None))]))
    case Advance(c) => if c in s.callers then AdvanceCaller(s, c) else None
  }

  function Run(s: State, steps: seq<Step>): Option<State>
    decreases steps
  {
    if steps == [] then Some(s)
    else match Next(s, steps[0])
         case None => None
         case Some(s') => Run(s', steps[1..])
  }

  // ---------------------------------------------------------------- what every step keeps

  /** The error of the thread waits to be taken. */
  predicate Pending(s: State, t: ThreadId) {
    t in s.threads && s.threads[t].name in s.errors && s.errors[s.threads[t].name].thread == t
  }

  ghost predicate Taken(s: State, t: ThreadId) {
    exists k :: 0 <= k < |s.taken| && s.taken[k].failure.thread == t
  }

  /** The thread failed, and its failure has been recorded. */
  predicate FailedAndLeft(s: State, t: ThreadId) {
    t in s.threads && s.threads[t].failed.Some? && !s.threads[t].fatal &&
      (s.threads[t].phase == Leaving || s.threads[t].phase == Ended)
  }

  /** A thread is in the registry from its start until it removes itself. */
  ghost predicate Registered(s: State) {
    && (forall n :: n in s.objs ==>
          s.objs[n] in s.threads && s.threads[s.objs[n]].name == n && s.threads[s.objs[n]].phase != Ended)
    && (forall t :: t in s.threads && s.threads[t].phase != Ended ==>
          s.threads[t].name in s.objs && s.objs[s.threads[t].name] == t)
  }

  ghost predicate ErrorsOfThreads(s: State) {
    && (forall n :: n in s.errors ==> Pending(s, s.errors[n].thread) && s.threads[s.errors[n].thread].name == n)
    && (!s.reused ==> forall n :: n in s.errors && n in s.objs ==> s.objs[n] == s.errors[n].thread)
  }

  /** Only a failure that was recorded waits or was taken, and it does not do both. */
  ghost predicate Conserved(s: State, t: ThreadId) {
    && (t in s.threads && s.threads[t].phase.Failing? ==>
          s.threads[t].failed == Some(Failure(t, s.threads[t].phase.attributeError)))
    && (t in s.threads && s.threads[t].phase == Running ==> s.threads[t].failed == None)
    && (t in s.threads && s.threads[t].failed.Some? ==> s.threads[t].failed.value.thread == t)
    && (Pending(s, t) || Taken(s, t) ==> FailedAndLeft(s, t))
    && (Pending(s, t) ==> s.threads[t].failed == Some(s.errors[s.threads[t].name]))
    && !(Pending(s, t) && Taken(s, t))
  }

  ghost predicate TakenOnce(s: State) {
    forall i, j :: 0 <= i < j < |s.taken| ==> s.taken[i].failure.thread != s.taken[j].failure.thread
  }

  /** The caller itself took the thread's AttributeError, and suppressed it. */
  ghost predicate Suppressed(s: State, c: CallerId, t: ThreadId) {
    exists k :: 0 <= k < |s.taken| && s.taken[k].failure == Failure(t, true) && s.taken[k].caller == c
  }

  /** The caller itself took an AttributeError of the name; if no name was reused, it is that of the thread. */
  ghost predicate SuppressedFor(s: State, c: CallerId, name: string, t: ThreadId) {
    && (exists k ::
          0 <= k < |s.taken| && s.taken[k].name == name && s.taken[k].caller == c && s.taken[k].failure.attributeError)
    && (!s.reused ==> Suppressed(s, c, t))
  }

  predicate NamedThread(s: State, name: string, t: ThreadId) {
    t in s.threads && s.threads[t].name == name
  }

  ghost predicate CallerOk(s: State, c: CallerId)
    requires c in s.callers
  {
    var name := s.callers[c].name;
    match s.callers[c].place
    case Getting => true
    case Found(t) => NamedThread(s, name, t)
    case TakingFound(t) => NamedThread(s, name, t)
    case Joining(t) => NamedThread(s, name, t)
    case Final(found) =>
      found.Some? ==> NamedThread(s, name, found.value) &&
                      (s.threads[found.value].phase == Ended || SuppressedFor(s, c, name, found.value))
    case TakingFinal(found) =>
      found.Some? ==> NamedThread(s, name, found.value) &&
                      (s.threads[found.value].phase == Ended || SuppressedFor(s, c, name, found.value))
    case Returned(found) =>
      found.Some? ==> NamedThread(s, name, found.value) &&
                      ((s.threads[found.value].phase == Ended && !Pending(s, found.value)) ||
                       SuppressedFor(s, c, name, found.value))
    case Raised(_) => true
  }

  /** An error that was taken is one of a thread of that name, and was raised where it was taken, unless it is an
      AttributeError. */
  ghost predicate Delivered(s: State, k: nat)
    requires k < |s.taken|
  {
    var taking := s.taken[k];
    && taking.caller in s.callers && NamedThread(s, taking.name, taking.failure.thread)
    && (taking.failure.attributeError || s.callers[taking.caller].place == Raised(ThreadFailed(taking.failure)))
  }

  ghost predicate Inv(s: State) {
    && Registered(s) && ErrorsOfThreads(s) && TakenOnce(s)
    && (forall t {:trigger Conserved(s, t)} :: Conserved(s, t))
    && (forall c {:trigger CallerOk(s, c)} :: c in s.callers ==> CallerOk(s, c))
    && (forall k {:trigger Delivered(s, k)} :: 0 <= k < |s.taken| ==> Delivered(s, k))
  }

  /** What a step leaves alone of what callers rely on. */
  ghost predicate Follows(s: State, s': State) {
    && s.taken <= s'.taken && (s.reused ==> s'.reused)
    && (forall t :: t in s.threads ==> t in s'.threads && s'.threads[t].name == s.threads[t].name)
    && (forall t :: t in s.threads && s.threads[t].phase == Ended ==> s'.threads[t].phase == Ended)
    && (forall t {:trigger Pending(s', t)} ::
          Pending(s', t) && !Pending(s, t) ==> t in s.threads && s.threads[t].phase.Failing?)
  }

  lemma TakenKept(s: State, s': State, t: ThreadId)
    requires s.taken <= s'.taken && Taken(s, t)
    ensures Taken(s', t)
  {
    var k :| 0 <= k < |s.taken| && s.taken[k].failure.thread == t;
    assert s'.taken[k].failure.thread == t;
  }

  lemma SuppressedKept(s: State, s': State, c: CallerId, name: string, t: ThreadId)
    requires Follows(s, s') && SuppressedFor(s, c, name, t)
    ensures SuppressedFor(s', c, name, t)
  {
    var k :| 0 <= k < |s.taken| && s.taken[k].name == name && s.taken[k].caller == c &&
      s.taken[k].failure.attributeError;
    assert s'.taken[k] == s.taken[k];
    if Suppressed(s, c, t) {
      var m :| 0 <= m < |s.taken| && s.taken[m].failure == Failure(t, true) && s.taken[m].caller == c;
      assert s'.taken[m] == s.taken[m];
    }
  }

  lemma CallerKept(s: State, s': State, c: CallerId)
    requires Inv(s) && Follows(s, s') && c in s.callers && c in s'.callers && s'.callers[c] == s.callers[c]
    ensures CallerOk(s', c)
  {
    assert CallerOk(s, c);
    var name := s.callers[c].name;
    var place := s.callers[c].place;
    if (place.Final? || place.TakingFinal? || place.Returned?) && place.found.Some? {
      if SuppressedFor(s, c, name, place.found.value) {
        SuppressedKept(s, s', c, name, place.found.value);
      }
    }
  }

  /** Steps of threads leave the callers and the taken errors alone. */
  lemma ThreadStepKeepsCallers(s: State, s': State)
    requires Inv(s) && Follows(s, s') && s'.callers == s.callers && s'.taken == s.taken
    ensures forall c {:trigger CallerOk(s', c)} :: c in s'.callers ==> CallerOk(s', c)
    ensures forall k {:trigger Delivered(s', k)} :: 0 <= k < |s'.taken| ==> Delivered(s', k)
    ensures TakenOnce(s')
  {
    forall c | c in s'.callers ensures CallerOk(s', c) {
      CallerKept(s, s', c);
    }
    forall k | 0 <= k < |s'.taken| ensures Delivered(s', k) {
      assert Delivered(s, k);
    }
  }

  lemma ConservedKept(s: State, s': State, t: ThreadId)
    requires Conserved(s, t) && s'.taken == s.taken
    requires Pending(s, t) == Pending(s', t) &&
             (Pending(s, t) ==> s'.errors == s.errors && s'.threads[t].name == s.threads[t].name)
    requires FailedAndLeft(s, t) == FailedAndLeft(s', t)
    requires t in s.threads <==> t in s'.threads
    requires t in s.threads ==> s'.threads[t].failed == s.threads[t].failed
    requires t in s.threads ==>
             s'.threads[t].phase == s.threads[t].phase || s'.threads[t].phase == Leaving || s'.threads[t].phase == Ended
    ensures Conserved(s', t)
  {
    assert Taken(s, t) == Taken(s', t);
  }

  /** The step of a thread that takes nothing: what is left to show. */
  lemma ThreadStepKeepsInv(s: State, s': State)
    requires Inv(s) && Follows(s, s') && s'.callers == s.callers && s'.taken == s.taken
    requires Registered(s') && ErrorsOfThreads(s')
    requires forall t {:trigger Conserved(s', t)} :: Conserved(s', t)
    ensures Inv(s')
  {
    ThreadStepKeepsCallers(s, s');
  }

  lemma AddKeepsInv(s: State, t: ThreadId, name: string, fatal: bool)
    requires Inv(s) && t !in s.threads && name !in s.objs
    ensures Inv(Next(s, Add(t, name, fatal)).value)
  {
    var s' := Next(s, Add(t, name, fatal)).value;
    forall u ensures Conserved(s', u) {
      assert Conserved(s, u);
      assert Taken(s, u) == Taken(s', u);
    }
    ThreadStepKeepsInv(s, s');
  }

  lemma FinishKeepsInv(s: State, t: ThreadId)
    requires Inv(s) && InPhase(s, t, Running)
    ensures Inv(Next(s, Finish(t)).value)
  {
    var s' := Next(s, Finish(t)).value;
    forall u ensures Conserved(s', u) {
      assert Conserved(s, u);
      ConservedKept(s, s', u);
    }
    ThreadStepKeepsInv(s, s');
  }

  lemma FailKeepsInv(s: State, t: ThreadId, attributeError: bool)
    requires Inv(s) && InPhase(s, t, Running)
    ensures Inv(Next(s, Fail(t, attributeError)).value)
  {
    var s' := Next(s, Fail(t, attributeError)).value;
    forall u ensures Conserved(s', u) {
      assert Conserved(s, u);
      assert Taken(s, u) == Taken(s', u);
    }
    ThreadStepKeepsInv(s, s');
  }

  lemma RemoveFollows(s: State, t: ThreadId)
    requires Inv(s) && InPhase(s, t, Leaving)
    ensures var s' := Next(s, Remove(t)).value; Registered(s') && ErrorsOfThreads(s') && Follows(s, s')
  {
  }

  lemma RemoveKeepsInv(s: State, t: ThreadId)
    requires Inv(s) && InPhase(s, t, Leaving)
    ensures Inv(Next(s, Remove(t)).value)
  {
    var s' := Next(s, Remove(t)).value;
    RemoveFollows(s, t);
    forall u ensures Conserved(s', u) {
      assert Conserved(s, u);
      ConservedKept(s, s', u);
    }
    ThreadStepKeepsInv(s, s');
  }

  lemma SetErrorKeepsNames(s: State, t: ThreadId)
    requires Inv(s) && t in s.threads && s.threads[t].phase.Failing? && s.threads[t].failed.Some?
    ensures Registered(Recorded(s, t)) && ErrorsOfThreads(Recorded(s, t))
  {
    assert Conserved(s, t);
  }

  lemma SetErrorFollows(s: State, t: ThreadId)
    requires Inv(s) && t in s.threads && s.threads[t].phase.Failing? && s.threads[t].failed.Some?
    ensures Follows(s, Recorded(s, t))
  {
    assert Conserved(s, t);
  }

  lemma SetErrorConserves(s: State, t: ThreadId, u: ThreadId)
    requires Inv(s) && t in s.threads && s.threads[t].phase.Failing? && s.threads[t].failed.Some?
    ensures Conserved(Recorded(s, t), u)
  {
    assert Conserved(s, t);
    assert Conserved(s, u);
    assert Taken(s, u) == Taken(Recorded(s, t), u);
  }

  lemma SetErrorKeepsInv(s: State, t: ThreadId)
    requires Inv(s) && t in s.threads && s.threads[t].phase.Failing? && s.threads[t].failed.Some?
    ensures Inv(Next(s, SetError(t)).value)
  {
    SetErrorKeepsNames(s, t);
    SetErrorFollows(s, t);
    forall u ensures Conserved(Recorded(s, t), u) {
      SetErrorConserves(s, t, u);
    }
    ThreadStepKeepsInv(s, Recorded(s, t));
  }

  // ---------------------------------------------------------------- steps of callers

  lemma OthersKept(s: State, s': State, c: CallerId)
    requires Inv(s) && Follows(s, s') && c in s'.callers && CallerOk(s', c)
    requires forall d :: d in s'.callers && d != c ==> d in s.callers && s'.callers[d] == s.callers[d]
    ensures forall d {:trigger CallerOk(s', d)} :: d in s'.callers ==> CallerOk(s', d)
  {
    forall d | d in s'.callers ensures CallerOk(s', d) {
      if d != c {
        CallerKept(s, s', d);
      }
    }
  }

  function Moved(s: State, c: CallerId, caller: Caller): State {
    s.(callers := s.callers[c := caller])
  }

  /** A caller moves on without taking an error. */
  lemma GoKeepsInv(s: State, c: CallerId, caller: Caller)
    requires Inv(s) && (c in s.callers ==> !s.callers[c].place.Raised?)
    requires CallerOk(Moved(s, c, caller), c)
    ensures Inv(Moved(s, c, caller))
  {
    var s' := Moved(s, c, caller);
    OthersKept(s, s', c);
    forall t ensures Conserved(s', t) {
      assert Conserved(s, t);
      ConservedKept(s, s', t);
    }
    forall k | 0 <= k < |s'.taken| ensures Delivered(s', k) {
      assert Delivered(s, k);
    }
  }

  lemma TakeFollows(s: State, c: CallerId, found: Option<ThreadId>, suppress: bool)
    requires Inv(s) && c in s.callers
    ensures Follows(s, Take(s, c, found, suppress))
  {
  }

  lemma TakeOnce(s: State, c: CallerId, found: Option<ThreadId>, suppress: bool)
    requires Inv(s) && c in s.callers
    ensures TakenOnce(Take(s, c, found, suppress))
  {
    var name := s.callers[c].name;
    if name in s.errors {
      var t := s.errors[name].thread;
      assert Conserved(s, t) && Pending(s, t);
    }
  }

  lemma TakeConserves(s: State, c: CallerId, found: Option<ThreadId>, suppress: bool, t: ThreadId)
    requires Inv(s) && c in s.callers
    ensures Conserved(Take(s, c, found, suppress), t)
  {
    var name := s.callers[c].name;
    var s' := Take(s, c, found, suppress);
    assert Conserved(s, t);
    if name in s.errors {
      assert s'.taken[|s.taken|].failure == s.errors[name];
      if Taken(s, t) {
        TakenKept(s, s', t);
      }
      assert Taken(s', t) ==> Taken(s, t) || s.errors[name].thread == t;
    } else {
      ConservedKept(s, s', t);
    }
  }

  lemma TakeDelivers(s: State, c: CallerId, found: Option<ThreadId>, suppress: bool, k: nat)
    requires Inv(s) && c in s.callers && !s.callers[c].place.Raised? && k < |Take(s, c, found, suppress).taken|
    ensures Delivered(Take(s, c, found, suppress), k)
  {
    if k < |s.taken| {
      assert Delivered(s, k);
    }
  }

  lemma TakerOk(s: State, c: CallerId, found: Option<ThreadId>, suppress: bool)
    requires Inv(s) && c in s.callers
    requires found.Some? && suppress ==> found.value in s.threads && s.threads[found.value].name == s.callers[c].name
    ensures CallerOk(Take(s, c, found, suppress), c)
  {
    var name := s.callers[c].name;
    var s' := Take(s, c, found, suppress);
    if name in s.errors {
      assert s'.taken[|s.taken|] == Taking(name, s.errors[name], c);
    }
  }

  lemma TakeKeepsInv(s: State, c: CallerId, found: Option<ThreadId>, suppress: bool)
    requires Inv(s) && c in s.callers && !s.callers[c].place.Raised?
    requires found.Some? && suppress ==> found.value in s.threads && s.threads[found.value].name == s.callers[c].name
    ensures Inv(Take(s, c, found, suppress))
  {
    var s' := Take(s, c, found, suppress);
    TakeFollows(s, c, found, suppress);
    TakerOk(s, c, found, suppress);
    OthersKept(s, s', c);
    TakeOnce(s, c, found, suppress);
    forall t ensures Conserved(s', t) {
      TakeConserves(s, c, found, suppress, t);
    }
    forall k | 0 <= k < |s'.taken| ensures Delivered(s', k) {
      TakeDelivers(s, c, found, suppress, k);
    }
  }

  lemma AdvanceKeepsInv(s: State, c: CallerId)
    requires Inv(s) && Next(s, Advance(c)).Some?
    ensures Inv(Next(s, Advance(c)).value)
  {
    assert CallerOk(s, c);
    var place := s.callers[c].place;
    if place.TakingFound? {
      TakeKeepsInv(s, c, Some(place.thread), true);
    } else if place.TakingFinal? {
      TakeKeepsInv(s, c, place.found, false);
    } else {
      GoKeepsInv(s, c, Next(s, Advance(c)).value.callers[c]);
    }
  }

  lemma StepKeepsInv(s: State, step: Step)
    requires Inv(s) && Next(s, step).Some?
    ensures Inv(Next(s, step).value)
  {
    match step
    case Add(t, name, fatal) =>
      if name !in s.objs {
        AddKeepsInv(s, t, name, fatal);
      }
    case Finish(t) => FinishKeepsInv(s, t);
    case Fail(t, attributeError) => FailKeepsInv(s, t, attributeError);
    case SetError(t) => SetErrorKeepsInv(s, t);
    case Remove(t) => RemoveKeepsInv(s, t);
    case CallWait(c, name) => GoKeepsInv(s, c, Caller(name, Getting));
    case CallRaiseIfError(c, name) => GoKeepsInv(s, c, Caller(name, Final(None)));
    case Advance(c) => AdvanceKeepsInv(s, c);
  }

  lemma {:induction false} RunKeepsInv(s: State, steps: seq<Step>)
    requires Inv(s) && Run(s, steps).Some?
    ensures Inv(Run(s, steps).value)
    decreases steps
  {
    if steps != [] {
      StepKeepsInv(s, steps[0]);
      RunKeepsInv(Next(s, steps[0]).value, steps[1..]);
    }
  }
}
