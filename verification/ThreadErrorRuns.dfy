/** What whole runs of threads, waits and raise_if_error keep: no error is lost, and none is delivered twice. */
module ThreadErrorRuns {
  import opened Prelude
  import opened Threading
  import opened ThreadErrors

  predicate At(s: State, c: CallerId, place: Place) {
    c in s.callers && s.callers[c].place == place
  }

  lemma InitialInv()
    ensures Inv(INITIAL)
  {
    forall t ensures Conserved(INITIAL, t) {
    }
  }

  lemma RunInv(steps: seq<Step>)
    requires Run(INITIAL, steps).Some?
    ensures Inv(Run(INITIAL, steps).value)
  {
    InitialInv();
    RunKeepsInv(INITIAL, steps);
  }

  // ---------------------------------------------------------------- what becomes of an error

  /** The failure was recorded, and now neither waits nor was taken. */
  ghost predicate Lost(s: State, t: ThreadId) {
    FailedAndLeft(s, t) && !Pending(s, t) && !Taken(s, t)
  }

  /** The step records the failure of a thread while the error of t, of the same name, still waits. */
  predicate Overwrites(s: State, step: Step, t: ThreadId) {
    && step.SetError? && step.t in s.threads && !s.threads[step.t].fatal
    && Pending(s, t) && s.threads[step.t].name == s.threads[t].name
  }

  /** Some step of the run overwrites the error of t. */
  predicate Overwritten(s: State, steps: seq<Step>, t: ThreadId)
    decreases steps
  {
    steps != [] && Next(s, steps[0]).Some? &&
    (Overwrites(s, steps[0], t) || Overwritten(Next(s, steps[0]).value, steps[1..], t))
  }

  lemma LostBySetError(s: State, u: ThreadId, t: ThreadId)
    requires Inv(s) && Next(s, SetError(u)).Some?
    ensures Lost(Next(s, SetError(u)).value, t) <==> Lost(s, t) || Overwrites(s, SetError(u), t)
  {
    assert Conserved(s, t) && Conserved(s, u);
    assert Taken(s, t) == Taken(Next(s, SetError(u)).value, t);
  }

  /** Taking an error loses none. */
  lemma LostByTake(s: State, c: CallerId, found: Option<ThreadId>, suppress: bool, t: ThreadId)
    requires Inv(s) && c in s.callers
    ensures Lost(Take(s, c, found, suppress), t) <==> Lost(s, t)
  {
    var name := s.callers[c].name;
    var s' := Take(s, c, found, suppress);
    if name in s.errors {
      assert s'.taken[|s.taken|].failure == s.errors[name];
      if Taken(s, t) {
        TakenKept(s, s', t);
      }
    } else {
      assert Taken(s, t) == Taken(s', t);
    }
  }

  /** Other steps leave the errors and what was taken alone. */
  lemma LostByOthers(s: State, step: Step, t: ThreadId)
    requires Inv(s) && Next(s, step).Some? && !step.SetError?
    requires Next(s, step).value.errors == s.errors && Next(s, step).value.taken == s.taken
    ensures Lost(Next(s, step).value, t) <==> Lost(s, t)
  {
    assert Conserved(s, t);
    assert Taken(s, t) == Taken(Next(s, step).value, t);
  }

  lemma LostNext(s: State, step: Step, t: ThreadId)
    requires Inv(s) && Next(s, step).Some?
    ensures Lost(Next(s, step).value, t) <==> Lost(s, t) || Overwrites(s, step, t)
  {
    if step.SetError? {
      LostBySetError(s, step.t, t);
    } else if step.Advance? && s.callers[step.c].place.TakingFound? {
      LostByTake(s, step.c, Some(s.callers[step.c].place.thread), true, t);
    } else if step.Advance? && s.callers[step.c].place.TakingFinal? {
      LostByTake(s, step.c, s.callers[step.c].place.found, false, t);
    } else {
      LostByOthers(s, step, t);
    }
  }

  lemma {:induction false} LostRun(s: State, steps: seq<Step>, t: ThreadId)
    requires Inv(s) && Run(s, steps).Some?
    ensures Lost(Run(s, steps).value, t) <==> Lost(s, t) || Overwritten(s, steps, t)
    decreases steps
  {
    if steps != [] {
      StepKeepsInv(s, steps[0]);
      LostNext(s, steps[0], t);
      LostRun(Next(s, steps[0]).value, steps[1..], t);
    }
  }

  /** Exactly when an error is lost: in every run, the failure of a thread that is not fatal, once recorded, waits to
      be taken, was taken, or was overwritten by a later failure of the same name while it waited, and never two of
      these. It has been recorded by the time the thread leaves the registry, and nothing else is recorded. */
  lemma ErrorFate(steps: seq<Step>, t: ThreadId)
    requires Run(INITIAL, steps).Some? && t in Run(INITIAL, steps).value.threads
    ensures var s := Run(INITIAL, steps).value;
            var thread := s.threads[t];
            var lost := Overwritten(INITIAL, steps, t);
            && (FailedAndLeft(s, t) <==> Pending(s, t) || Taken(s, t) || lost)
            && !(Pending(s, t) && Taken(s, t)) && !(Pending(s, t) && lost) && !(Taken(s, t) && lost)
            && (Pending(s, t) ==> thread.failed == Some(s.errors[thread.name]))
            && (thread.failed.Some? && !thread.fatal && (thread.name in s.objs ==> s.objs[thread.name] != t) ==>
                FailedAndLeft(s, t))
  {
    InitialInv();
    RunInv(steps);
    LostRun(INITIAL, steps, t);
    assert Conserved(Run(INITIAL, steps).value, t);
  }

  lemma ReuseStays(s: State, step: Step)
    requires Next(s, step).Some? && s.reused
    ensures Next(s, step).value.reused
  {
  }

  lemma {:induction false} RunStaysReused(s: State, steps: seq<Step>)
    requires s.reused && Run(s, steps).Some?
    ensures Run(s, steps).value.reused
    decreases steps
  {
    if steps != [] {
      ReuseStays(s, steps[0]);
      RunStaysReused(Next(s, steps[0]).value, steps[1..]);
    }
  }

  /** Only in a run that reused a name before delivery is an error overwritten. */
  lemma {:induction false} OverwrittenMeansReused(s: State, steps: seq<Step>, t: ThreadId)
    requires Inv(s) && Run(s, steps).Some? && Overwritten(s, steps, t)
    ensures Run(s, steps).value.reused
    decreases steps
  {
    if Overwrites(s, steps[0], t) {
      assert Conserved(s, t);
      assert s.reused;
      RunStaysReused(s, steps);
    } else {
      StepKeepsInv(s, steps[0]);
      OverwrittenMeansReused(Next(s, steps[0]).value, steps[1..], t);
    }
  }

  /** When no name is reused before its error is taken, every recorded error waits or was taken, and never both. */
  lemma ErrorsConserved(steps: seq<Step>, t: ThreadId)
    requires Run(INITIAL, steps).Some? && !Run(INITIAL, steps).value.reused && t in Run(INITIAL, steps).value.threads
    ensures var s := Run(INITIAL, steps).value;
            && (FailedAndLeft(s, t) <==> Pending(s, t) || Taken(s, t))
            && !(Pending(s, t) && Taken(s, t))
  {
    ErrorFate(steps, t);
    InitialInv();
    if Overwritten(INITIAL, steps, t) {
      OverwrittenMeansReused(INITIAL, steps, t);
    }
  }

  /** No error is taken by two callers, in any run. */
  lemma ErrorTakenOnce(steps: seq<Step>)
    requires Run(INITIAL, steps).Some?
    ensures TakenOnce(Run(INITIAL, steps).value)
  {
    RunInv(steps);
  }

  // ---------------------------------------------------------------- what a wait leaves behind

  lemma SuppressedIsTaken(s: State, c: CallerId, t: ThreadId)
    requires Suppressed(s, c, t)
    ensures Taken(s, t)
  {
    var k :| 0 <= k < |s.taken| && s.taken[k].failure == Failure(t, true) && s.taken[k].caller == c;
    assert s.taken[k].failure.thread == t;
  }

  /** The error was taken, by another caller or by one that suppressed it as an AttributeError. */
  ghost predicate TakenElsewhere(s: State, c: CallerId, t: ThreadId) {
    exists k :: 0 <= k < |s.taken| && s.taken[k].failure.thread == t &&
                (s.taken[k].caller != c || s.taken[k].failure.attributeError)
  }

  lemma TakenNotRaised(s: State, c: CallerId, t: ThreadId)
    requires Inv(s) && c in s.callers && s.callers[c].place.Returned? && Taken(s, t)
    ensures TakenElsewhere(s, c, t)
  {
    var k :| 0 <= k < |s.taken| && s.taken[k].failure.thread == t;
    assert Delivered(s, k);
  }

  /** In every run, a wait that found a thread and returns normally has itself suppressed an AttributeError of the name,
      or the thread has ended and leaves no error behind: if it failed and is not fatal, its error was taken elsewhere
      or overwritten. */
  lemma WaitReturns(steps: seq<Step>, c: CallerId, t: ThreadId)
    requires Run(INITIAL, steps).Some? && At(Run(INITIAL, steps).value, c, Returned(Some(t)))
    ensures var s := Run(INITIAL, steps).value;
            && NamedThread(s, s.callers[c].name, t)
            && (SuppressedFor(s, c, s.callers[c].name, t) ||
                (s.threads[t].phase == Ended && !Pending(s, t) &&
                 (s.threads[t].failed.Some? && !s.threads[t].fatal ==>
                  TakenElsewhere(s, c, t) || Overwritten(INITIAL, steps, t))))
  {
    RunInv(steps);
    var s := Run(INITIAL, steps).value;
    assert CallerOk(s, c);
    ErrorFate(steps, t);
    if Taken(s, t) {
      TakenNotRaised(s, c, t);
    }
  }

  /** When no name is reused before delivery, it leaves no error of the thread behind in either case: another caller
      took it, or this very wait suppressed it. */
  lemma WaitDelivers(steps: seq<Step>, c: CallerId, t: ThreadId)
    requires Run(INITIAL, steps).Some? && !Run(INITIAL, steps).value.reused
    requires At(Run(INITIAL, steps).value, c, Returned(Some(t)))
    ensures var s := Run(INITIAL, steps).value;
            && t in s.threads && !Pending(s, t)
            && (s.threads[t].phase == Ended || Suppressed(s, c, t))
            && (s.threads[t].failed.Some? && !s.threads[t].fatal ==> TakenElsewhere(s, c, t))
  {
    RunInv(steps);
    var s := Run(INITIAL, steps).value;
    assert CallerOk(s, c);
    ErrorsConserved(steps, t);
    if Suppressed(s, c, t) {
      SuppressedIsTaken(s, c, t);
    }
    if Taken(s, t) {
      TakenNotRaised(s, c, t);
    }
  }

  // ---------------------------------------------------------------- when taking an error raises KeyError

  /** About to take an error, after the check for it. */
  predicate IsTaking(place: Place) {
    place.TakingFound? || place.TakingFinal?
  }

  predicate IsChecking(place: Place) {
    place.Found? || place.Final?
  }

  /** A caller other than c takes an error of the name. */
  predicate TakesName(s: State, step: Step, c: CallerId, name: string) {
    && step.Advance? && step.c != c && step.c in s.callers && IsTaking(s.callers[step.c].place)
    && s.callers[step.c].name == name && name in s.errors
  }

  predicate RecordsName(s: State, step: Step, name: string) {
    step.SetError? && step.t in s.threads && !s.threads[step.t].fatal && s.threads[step.t].name == name
  }

  predicate RecordedIn(s: State, steps: seq<Step>, name: string)
    decreases steps
  {
    steps != [] && Next(s, steps[0]).Some? &&
    (RecordsName(s, steps[0], name) || RecordedIn(Next(s, steps[0]).value, steps[1..], name))
  }

  /** Some other caller takes an error of the name, and no error of the name is recorded after that. */
  predicate TakenSince(s: State, steps: seq<Step>, c: CallerId, name: string)
    decreases steps
  {
    steps != [] && Next(s, steps[0]).Some? &&
    var s' := Next(s, steps[0]).value;
    (TakesName(s, steps[0], c, name) && !RecordedIn(s', steps[1..], name)) || TakenSince(s', steps[1..], c, name)
  }

  lemma ErrorNext(s: State, step: Step, c: CallerId, name: string)
    requires Next(s, step).Some? && step != Advance(c)
    ensures name in Next(s, step).value.errors <==>
            RecordsName(s, step, name) || (name in s.errors && !TakesName(s, step, c, name))
  {
  }

  lemma {:induction false} ErrorGone(s: State, steps: seq<Step>, c: CallerId, name: string)
    requires Run(s, steps).Some? && Advance(c) !in steps
    ensures name !in Run(s, steps).value.errors <==>
            TakenSince(s, steps, c, name) || (name !in s.errors && !RecordedIn(s, steps, name))
    decreases steps
  {
    if steps != [] {
      ErrorNext(s, steps[0], c, name);
      ErrorGone(Next(s, steps[0]).value, steps[1..], c, name);
    }
  }

  /** A step of a caller leaves the others alone. */
  lemma AdvanceLeaves(s: State, d: CallerId, c: CallerId)
    requires d in s.callers && AdvanceCaller(s, d).Some? && d != c
    ensures c in AdvanceCaller(s, d).value.callers <==> c in s.callers
    ensures c in s.callers ==> AdvanceCaller(s, d).value.callers[c] == s.callers[c]
  {
  }

  lemma StaysNext(s: State, step: Step, c: CallerId)
    requires Next(s, step).Some? && step != Advance(c) && c in s.callers
    ensures c in Next(s, step).value.callers && Next(s, step).value.callers[c] == s.callers[c]
  {
    if step.Advance? {
      AdvanceLeaves(s, step.c, c);
    }
  }

  lemma NewCaller(s: State, step: Step, c: CallerId)
    requires Next(s, step).Some? && c !in s.callers && c in Next(s, step).value.callers
    ensures !IsTaking(Next(s, step).value.callers[c].place)
  {
    if step.Advance? {
      AdvanceLeaves(s, step.c, c);
    }
  }

  lemma {:induction false} CallerStays(s: State, steps: seq<Step>, c: CallerId)
    requires Run(s, steps).Some? && Advance(c) !in steps && c in s.callers
    ensures c in Run(s, steps).value.callers && Run(s, steps).value.callers[c] == s.callers[c]
    decreases steps
  {
    if steps != [] {
      StaysNext(s, steps[0], c);
      CallerStays(Next(s, steps[0]).value, steps[1..], c);
    }
  }

  /** The caller sees an error at its check. */
  predicate SeesError(s: State, c: CallerId) {
    c in s.callers && IsChecking(s.callers[c].place) && s.callers[c].name in s.errors
  }

  /** A caller that saw an error gets KeyError from taking it exactly if, between its check and its taking, another
      caller took an error of the name and none was recorded after that. */
  lemma KeyErrorIff(s: State, middle: seq<Step>, c: CallerId)
    requires SeesError(s, c) && Run(Next(s, Advance(c)).value, middle).Some? && Advance(c) !in middle
    ensures var s1 := Next(s, Advance(c)).value;
            var taking := Next(Run(s1, middle).value, Advance(c));
            && taking.Some? && c in taking.value.callers
            && (taking.value.callers[c].place == Raised(KeyError) <==> TakenSince(s1, middle, c, s.callers[c].name))
  {
    var s1 := Next(s, Advance(c)).value;
    CallerStays(s1, middle, c);
    ErrorGone(s1, middle, c, s.callers[c].name);
  }

  lemma RunInit(s: State, steps: seq<Step>)
    requires steps != [] && Run(s, steps).Some?
    ensures var init, last := steps[..|steps| - 1], steps[|steps| - 1];
            Run(s, init).Some? && Next(Run(s, init).value, last) == Run(s, steps)
    decreases steps
  {
    var init := steps[..|steps| - 1];
    if |steps| > 1 {
      assert init[1..] == steps[1..][..|steps[1..]| - 1];
      RunInit(Next(s, steps[0]).value, steps[1..]);
    } else {
      assert steps[1..] == [];
    }
  }

  /** The run up to the check of a caller that is about to take an error, and what happened since. */
  ghost predicate SplitsAt(steps: seq<Step>, before: seq<Step>, middle: seq<Step>, c: CallerId) {
    && steps == before + ([Advance(c)] + middle)
    && Run(INITIAL, before).Some? && SeesError(Run(INITIAL, before).value, c) && Advance(c) !in middle
    && Run(Next(Run(INITIAL, before).value, Advance(c)).value, middle) == Run(INITIAL, steps)
  }

  lemma RunSnoc(s: State, steps: seq<Step>, step: Step)
    requires Run(s, steps).Some? && Next(Run(s, steps).value, step).Some?
    ensures Run(s, steps + [step]) == Next(Run(s, steps).value, step)
  {
    RunBoth(s, steps, [step]);
    assert [step][1..] == [];
  }

  lemma SplitsHere(before: seq<Step>, c: CallerId)
    requires Run(INITIAL, before).Some? && SeesError(Run(INITIAL, before).value, c)
    ensures SplitsAt(before + [Advance(c)], before, [], c)
  {
    RunSnoc(INITIAL, before, Advance(c));
    assert [Advance(c)] + [] == [Advance(c)];
  }

  lemma SplitsLater(steps: seq<Step>, before: seq<Step>, middle: seq<Step>, c: CallerId, step: Step)
    requires Run(INITIAL, steps).Some? && SplitsAt(steps, before, middle, c)
    requires step != Advance(c) && Next(Run(INITIAL, steps).value, step).Some?
    ensures SplitsAt(steps + [step], before, middle + [step], c)
  {
    var s1 := Next(Run(INITIAL, before).value, Advance(c)).value;
    RunSnoc(s1, middle, step);
    RunSnoc(INITIAL, steps, step);
    assert before + ([Advance(c)] + middle) + [step] == before + ([Advance(c)] + (middle + [step]));
  }

  /** A caller comes to take an error only by seeing one. */
  lemma SawError(s: State, step: Step, c: CallerId)
    requires Next(s, step).Some? && c in Next(s, step).value.callers && IsTaking(Next(s, step).value.callers[c].place)
    ensures if step == Advance(c) then SeesError(s, c)
            else c in s.callers && s.callers[c] == Next(s, step).value.callers[c]
  {
    if step == Advance(c) {
      AdvanceSees(s, c);
    } else if c in s.callers {
      StaysNext(s, step, c);
    } else {
      NewCaller(s, step, c);
    }
  }

  lemma AdvanceSees(s: State, c: CallerId)
    requires c in s.callers && AdvanceCaller(s, c).Some? && IsTaking(AdvanceCaller(s, c).value.callers[c].place)
    ensures SeesError(s, c)
  {
  }

  lemma {:induction false} TakingSplits(steps: seq<Step>, c: CallerId) returns (before: seq<Step>, middle: seq<Step>)
    requires Run(INITIAL, steps).Some? && c in Run(INITIAL, steps).value.callers
    requires IsTaking(Run(INITIAL, steps).value.callers[c].place)
    ensures SplitsAt(steps, before, middle, c)
    decreases |steps|
  {
    RunInit(INITIAL, steps);
    var init, last := steps[..|steps| - 1], steps[|steps| - 1];
    assert steps == init + [last];
    SawError(Run(INITIAL, init).value, last, c);
    if last == Advance(c) {
      SplitsHere(init, c);
      before, middle := init, [];
    } else {
      before, middle := TakingSplits(init, c);
      SplitsLater(init, before, middle, c, last);
      middle := middle + [last];
    }
  }

  /** Whenever a caller takes an error: the run up to there splits at its check, and it gets KeyError exactly if
      after that check another caller took an error of the name and none was recorded after that. */
  lemma KeyErrorMeansTaken(steps: seq<Step>, c: CallerId) returns (before: seq<Step>, middle: seq<Step>)
    requires Run(INITIAL, steps).Some? && c in Run(INITIAL, steps).value.callers
    requires IsTaking(Run(INITIAL, steps).value.callers[c].place)
    ensures SplitsAt(steps, before, middle, c)
    ensures var s := Run(INITIAL, before).value;
            var taking := Next(Run(INITIAL, steps).value, Advance(c));
            && taking.Some? && c in taking.value.callers
            && (taking.value.callers[c].place == Raised(KeyError) <==>
                TakenSince(Next(s, Advance(c)).value, middle, c, s.callers[c].name))
  {
    before, middle := TakingSplits(steps, c);
    KeyErrorIff(Run(INITIAL, before).value, middle, c);
  }

  // ---------------------------------------------------------------- names of fatal threads

  ghost predicate AllFatal(s: State, name: string) {
    forall t :: NamedThread(s, name, t) ==> s.threads[t].fatal
  }

  /** No error is ever recorded under a name that only fatal threads have, and a wait for it that found a thread and
      returns normally has seen it end: it cannot have suppressed an AttributeError instead. */
  lemma FatalNames(steps: seq<Step>, name: string, c: CallerId, t: ThreadId)
    requires Run(INITIAL, steps).Some? && AllFatal(Run(INITIAL, steps).value, name)
    ensures var s := Run(INITIAL, steps).value;
            && name !in s.errors
            && (At(s, c, Returned(Some(t))) && s.callers[c].name == name ==>
                t in s.threads && s.threads[t].phase == Ended)
  {
    RunInv(steps);
    var s := Run(INITIAL, steps).value;
    if name in s.errors {
      var u := s.errors[name].thread;
      assert Pending(s, u) && Conserved(s, u) && NamedThread(s, name, u);
    }
    if At(s, c, Returned(Some(t))) && s.callers[c].name == name {
      assert CallerOk(s, c);
      NoneTaken(s, name);
    }
  }

  lemma NoneTaken(s: State, name: string)
    requires Inv(s) && AllFatal(s, name)
    ensures forall k :: 0 <= k < |s.taken| ==> s.taken[k].name != name
  {
    forall k | 0 <= k < |s.taken| ensures s.taken[k].name != name {
      var t := s.taken[k].failure.thread;
      assert Delivered(s, k) && Taken(s, t) && Conserved(s, t);
    }
  }

  // ---------------------------------------------------------------- a run that loses an error

  lemma RunOne(s: State, step: Step, rest: seq<Step>)
    requires Next(s, step).Some?
    ensures Run(s, [step] + rest) == Run(Next(s, step).value, rest)
  {
    assert ([step] + rest)[1..] == rest;
  }

  /** Reusing a name loses errors: when a second thread of the same name fails before the first error is taken,
      its error replaces the first one. */
  lemma ReuseLosesErrors(name: string)
    ensures exists steps :: Run(INITIAL, steps).Some? && FailedAndLeft(Run(INITIAL, steps).value, 0) &&
                            !Pending(Run(INITIAL, steps).value, 0) && !Taken(Run(INITIAL, steps).value, 0)
  {
    FailedOnce(name, 0);
    var s4 := Run(INITIAL, FailAndLeave(0, name)).value;
    var s5 := Next(s4, Add(1, name, false)).value;
    var s6 := Next(s5, Fail(1, false)).value;
    var s7 := Next(s6, SetError(1)).value;
    var more := FailAndLeave(1, name)[..3];
    assert more == [Add(1, name, false)] + ([Fail(1, false)] + ([SetError(1)] + []));
    RunOne(s6, SetError(1), []);
    RunOne(s5, Fail(1, false), [SetError(1)] + []);
    RunOne(s4, Add(1, name, false), [Fail(1, false)] + ([SetError(1)] + []));
    RunBoth(INITIAL, FailAndLeave(0, name), more);
    assert !Pending(s7, 0) && !Taken(s7, 0) && FailedAndLeft(s7, 0);
  }

  function FailAndLeave(t: ThreadId, name: string): seq<Step> {
    [Add(t, name, false), Fail(t, false), SetError(t), Remove(t)]
  }

  lemma FailedOnce(name: string, t: ThreadId)
    ensures Run(INITIAL, FailAndLeave(t, name)).Some?
    ensures var s := Run(INITIAL, FailAndLeave(t, name)).value;
            && s.objs == map[] && s.taken == []
            && s.threads == map[t := Thread(name, false, Ended, Some(Failure(t, false)))]
  {
    var s1 := Next(INITIAL, Add(t, name, false)).value;
    var s2 := Next(s1, Fail(t, false)).value;
    var s3 := Next(s2, SetError(t)).value;
    var s4 := Next(s3, Remove(t)).value;
    assert Run(s4, []) == Some(s4);
    RunOne(s3, Remove(t), []);
    RunOne(s2, SetError(t), [Remove(t)] + []);
    RunOne(s1, Fail(t, false), [SetError(t)] + ([Remove(t)] + []));
    RunOne(INITIAL, Add(t, name, false), [Fail(t, false)] + ([SetError(t)] + ([Remove(t)] + [])));
    assert FailAndLeave(t, name) == [Add(t, name, false)] + ([Fail(t, false)] + ([SetError(t)] + ([Remove(t)] + [])));
  }

  lemma {:induction false} RunBoth(s: State, x: seq<Step>, y: seq<Step>)
    requires Run(s, x).Some?
    ensures Run(s, x + y) == Run(Run(s, x).value, y)
    decreases x
  {
    if x == [] {
      assert x + y == y;
    } else {
      assert (x + y)[1..] == x[1..] + y;
      RunBoth(Next(s, x[0]).value, x[1..], y);
    }
  }
}
