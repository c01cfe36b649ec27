/** What runs of threads and waits do: which threads there are, how they get on, and which thread a wait finds. */
module ThreadScripts {
  import opened Prelude
  import opened Threading
  import opened ThreadErrors
  import opened ThreadErrorRuns

  // ---------------------------------------------------------------- which threads there are

  predicate Known(s: State, t: ThreadId, name: string, fatal: bool) {
    t in s.threads && s.threads[t].name == name && s.threads[t].fatal == fatal
  }

  predicate AddedIn(s: State, steps: seq<Step>, t: ThreadId, name: string, fatal: bool)
    decreases steps
  {
    steps != [] && Next(s, steps[0]).Some? &&
    ((steps[0] == Add(t, name, fatal) && name !in s.objs) ||
     AddedIn(Next(s, steps[0]).value, steps[1..], t, name, fatal))
  }

  lemma KnownNext(s: State, step: Step, t: ThreadId, name: string, fatal: bool)
    requires Next(s, step).Some?
    ensures Known(Next(s, step).value, t, name, fatal) <==>
            Known(s, t, name, fatal) || (step == Add(t, name, fatal) && name !in s.objs)
  {
    if step.Advance? {
      AdvanceKeepsThreads(s, step.c);
    }
  }

  lemma AdvanceKeepsThreads(s: State, c: CallerId)
    requires c in s.callers && AdvanceCaller(s, c).Some?
    ensures AdvanceCaller(s, c).value.threads == s.threads && AdvanceCaller(s, c).value.objs == s.objs
  {
  }

  lemma {:induction false} KnownIff(s: State, steps: seq<Step>, t: ThreadId, name: string, fatal: bool)
    requires Run(s, steps).Some?
    ensures Known(Run(s, steps).value, t, name, fatal) <==>
            Known(s, t, name, fatal) || AddedIn(s, steps, t, name, fatal)
    decreases steps
  {
    if steps != [] {
      KnownNext(s, steps[0], t, name, fatal);
      KnownIff(Next(s, steps[0]).value, steps[1..], t, name, fatal);
    }
  }

  /** In every run, the threads are exactly those that were added under a name that was free. */
  lemma ThreadIff(steps: seq<Step>, t: ThreadId, name: string, fatal: bool)
    requires Run(INITIAL, steps).Some?
    ensures Known(Run(INITIAL, steps).value, t, name, fatal) <==> AddedIn(INITIAL, steps, t, name, fatal)
  {
    KnownIff(INITIAL, steps, t, name, fatal);
  }

  // ---------------------------------------------------------------- how threads get on

  ghost predicate Failed(steps: seq<Step>, t: ThreadId) {
    exists a :: Fail(t, a) in steps
  }

  /** What the steps of a thread say of its phase and its failure. */
  ghost predicate OnScript(steps: seq<Step>, t: ThreadId, thread: Thread) {
    && (thread.phase == Running <==> Finish(t) !in steps && !Failed(steps, t))
    && (forall a :: thread.failed == Some(Failure(t, a)) <==> Fail(t, a) in steps)
    && (thread.failed.Some? ==> thread.failed.value.thread == t)
    && (thread.phase.Failing? <==> Failed(steps, t) && SetError(t) !in steps)
    && (thread.phase == Leaving || thread.phase == Ended <==> Finish(t) in steps || SetError(t) in steps)
    && (thread.phase == Ended <==> Remove(t) in steps)
    && (SetError(t) in steps ==> Failed(steps, t)) && (Finish(t) in steps ==> !Failed(steps, t))
  }

  predicate OwnStep(step: Step, t: ThreadId) {
    match step
    case Finish(u) => u == t
    case Fail(u, _) => u == t
    case SetError(u) => u == t
    case Remove(u) => u == t
    case _ => false
  }

  ghost predicate NoSteps(steps: seq<Step>, t: ThreadId) {
    forall step :: step in steps ==> !OwnStep(step, t)
  }

  lemma InMore(steps: seq<Step>, last: Step)
    ensures forall step :: step in steps + [last] <==> step in steps || step == last
  {
  }

  lemma OthersStep(last: Step, s: State, t: ThreadId)
    requires Next(s, last).Some? && t in s.threads && !OwnStep(last, t)
    ensures t in Next(s, last).value.threads && Next(s, last).value.threads[t] == s.threads[t]
  {
    if last.Advance? {
      AdvanceKeepsThreads(s, last.c);
    }
  }

  lemma OwnScript(steps: seq<Step>, last: Step, s: State, t: ThreadId)
    requires Next(s, last).Some? && t in s.threads && OnScript(steps, t, s.threads[t]) && OwnStep(last, t)
    ensures t in Next(s, last).value.threads && OnScript(steps + [last], t, Next(s, last).value.threads[t])
  {
    InMore(steps, last);
    assert forall a :: Fail(t, a) in steps ==> Failed(steps, t);
    assert forall a :: Fail(t, a) in steps + [last] ==> Failed(steps + [last], t);
  }

  lemma OthersScript(steps: seq<Step>, last: Step, t: ThreadId, thread: Thread)
    requires OnScript(steps, t, thread) && !OwnStep(last, t)
    ensures OnScript(steps + [last], t, thread)
  {
    InMore(steps, last);
    forall a ensures Fail(t, a) in steps + [last] <==> Fail(t, a) in steps {
      assert OwnStep(Fail(t, a), t);
    }
    assert Failed(steps + [last], t) <==> Failed(steps, t) by {
      if a :| Fail(t, a) in steps + [last] {
        assert Fail(t, a) in steps;
      }
      if a :| Fail(t, a) in steps {
        assert Fail(t, a) in steps + [last];
      }
    }
  }

  lemma NewScript(steps: seq<Step>, last: Step, s: State, t: ThreadId)
    requires Next(s, last).Some? && t !in s.threads && NoSteps(steps, t)
    ensures if t in Next(s, last).value.threads then OnScript(steps + [last], t, Next(s, last).value.threads[t])
            else NoSteps(steps + [last], t)
  {
    InMore(steps, last);
    if last.Advance? {
      AdvanceKeepsThreads(s, last.c);
    }
    assert !OwnStep(last, t);
    forall a ensures Fail(t, a) !in steps + [last] {
      assert OwnStep(Fail(t, a), t);
    }
  }

  /** In every run, the phase and the failure of every thread are what its own steps say. */
  lemma {:induction false} Script(steps: seq<Step>, t: ThreadId)
    requires Run(INITIAL, steps).Some?
    ensures var s := Run(INITIAL, steps).value;
            if t in s.threads then OnScript(steps, t, s.threads[t]) else NoSteps(steps, t)
    decreases |steps|
  {
    if steps != [] {
      RunInit(INITIAL, steps);
      var init, last := steps[..|steps| - 1], steps[|steps| - 1];
      assert steps == init + [last];
      Script(init, t);
      var s := Run(INITIAL, init).value;
      if t !in s.threads {
        NewScript(init, last, s, t);
      } else if OwnStep(last, t) {
        OwnScript(init, last, s, t);
      } else {
        OthersStep(last, s, t);
        OthersScript(init, last, t, s.threads[t]);
      }
    }
  }

  // ---------------------------------------------------------------- which thread a wait finds

  /** The thread that is registered under a name. */
  function Registered(s: State, name: string): Option<ThreadId> {
    if name in s.objs then Some(s.objs[name]) else None
  }

  /** A wait that has looked up its name is about this thread, or about none. */
  predicate IsAbout(place: Place, found: Option<ThreadId>) {
    match place
    case Getting => false
    case Found(t) => found == Some(t)
    case TakingFound(t) => found == Some(t)
    case Joining(t) => found == Some(t)
    case Final(f) => f == found
    case TakingFinal(f) => f == found
    case Returned(f) => f == found
    case Raised(_) => true
  }

  predicate CallerIsAbout(s: State, c: CallerId, name: string, found: Option<ThreadId>) {
    c in s.callers && s.callers[c].name == name && IsAbout(s.callers[c].place, found)
  }

  lemma AboutNext(s: State, step: Step, c: CallerId, name: string, found: Option<ThreadId>)
    requires Next(s, step).Some? && CallerIsAbout(s, c, name, found)
    ensures CallerIsAbout(Next(s, step).value, c, name, found)
  {
    if step == Advance(c) {
      AboutAdvance(s, c, found);
    } else {
      StaysNext(s, step, c);
    }
  }

  lemma AboutAdvance(s: State, c: CallerId, found: Option<ThreadId>)
    requires c in s.callers && AdvanceCaller(s, c).Some? && IsAbout(s.callers[c].place, found)
    ensures c in AdvanceCaller(s, c).value.callers
    ensures AdvanceCaller(s, c).value.callers[c].name == s.callers[c].name
    ensures IsAbout(AdvanceCaller(s, c).value.callers[c].place, found)
  {
  }

  lemma {:induction false} AboutRun(s: State, steps: seq<Step>, c: CallerId, name: string, found: Option<ThreadId>)
    requires Run(s, steps).Some? && CallerIsAbout(s, c, name, found)
    ensures CallerIsAbout(Run(s, steps).value, c, name, found)
    decreases steps
  {
    if steps != [] {
      AboutNext(s, steps[0], c, name, found);
      AboutRun(Next(s, steps[0]).value, steps[1..], c, name, found);
    }
  }

  /** The states of a run with a wait in it: before the call, at the caller's first step after it, and at the end. */
  ghost predicate WaitIn(before: seq<Step>, c: CallerId, name: string, middle: seq<Step>, after: seq<Step>) {
    && Run(INITIAL, before).Some?
    && Next(Run(INITIAL, before).value, CallWait(c, name)).Some?
    && Advance(c) !in middle
    && Run(Next(Run(INITIAL, before).value, CallWait(c, name)).value, middle).Some?
    && Next(AtLookup(before, c, name, middle), Advance(c)).Some?
    && Run(Next(AtLookup(before, c, name, middle), Advance(c)).value, after).Some?
  }

  function AtLookup(before: seq<Step>, c: CallerId, name: string, middle: seq<Step>): State
    requires Run(INITIAL, before).Some? && Next(Run(INITIAL, before).value, CallWait(c, name)).Some?
    requires Run(Next(Run(INITIAL, before).value, CallWait(c, name)).value, middle).Some?
  {
    Run(Next(Run(INITIAL, before).value, CallWait(c, name)).value, middle).value
  }

  /** In every run, a wait finds the thread that is registered under its name when it looks, and no other; whenever it
      has returned normally, it returned that thread, and it returned none exactly if none was registered. */
  lemma WaitFinds(before: seq<Step>, c: CallerId, name: string, middle: seq<Step>, after: seq<Step>)
    requires WaitIn(before, c, name, middle, after)
    ensures var looking := AtLookup(before, c, name, middle);
            var end := Run(Next(looking, Advance(c)).value, after).value;
            && CallerIsAbout(end, c, name, Registered(looking, name))
            && (forall f :: At(end, c, Returned(f)) ==> f == Registered(looking, name))
  {
    var called := Next(Run(INITIAL, before).value, CallWait(c, name)).value;
    CallerStays(called, middle, c);
    var looking := Run(called, middle).value;
    AboutRun(Next(looking, Advance(c)).value, after, c, name, Registered(looking, name));
  }

  /** In every run, raise_if_error finds no thread. */
  lemma RaiseIfErrorFinds(before: seq<Step>, c: CallerId, name: string, after: seq<Step>)
    requires Run(INITIAL, before).Some? && Next(Run(INITIAL, before).value, CallRaiseIfError(c, name)).Some?
    requires Run(Next(Run(INITIAL, before).value, CallRaiseIfError(c, name)).value, after).Some?
    ensures CallerIsAbout(Run(Next(Run(INITIAL, before).value, CallRaiseIfError(c, name)).value, after).value, c, name,
                          None)
  {
    AboutRun(Next(Run(INITIAL, before).value, CallRaiseIfError(c, name)).value, after, c, name, None);
  }

  /** A caller is only ever held up by a thread that it joins and that has not ended. */
  lemma CallerGoesOn(steps: seq<Step>, c: CallerId)
    requires Run(INITIAL, steps).Some? && c in Run(INITIAL, steps).value.callers
    ensures var s := Run(INITIAL, steps).value;
            var place := s.callers[c].place;
            || place.Returned? || place.Raised? || Next(s, Advance(c)).Some?
            || (place.Joining? && place.thread in s.threads && s.threads[place.thread].phase != Ended)
  {
    RunInv(steps);
    assert CallerOk(Run(INITIAL, steps).value, c);
  }

  /** What becomes of an error that a caller takes: it is gone from the record, counts as taken by this caller, and is
      raised; only an AttributeError that comes out of get is suppressed, and the wait goes on to its last check. */
  lemma TakingRaises(steps: seq<Step>, c: CallerId)
    requires Run(INITIAL, steps).Some? && c in Run(INITIAL, steps).value.callers
    requires IsTaking(Run(INITIAL, steps).value.callers[c].place)
    ensures var s := Run(INITIAL, steps).value;
            var (name, place) := (s.callers[c].name, s.callers[c].place);
            Next(s, Advance(c)).Some? &&
            var s' := Next(s, Advance(c)).value;
            c in s'.callers &&
            if name !in s.errors
            then s'.callers[c].place == Raised(KeyError) && s'.errors == s.errors && s'.taken == s.taken
            else
              var error := s.errors[name];
              && s'.errors == s.errors - {name} && s'.taken == s.taken + [Taking(name, error, c)]
              && s'.callers[c].place == if place.TakingFound? && error.attributeError then Final(Some(place.thread))
                                        else Raised(ThreadFailed(error))
  {
  }
}
