/** What runs of the payload restart protocol do: which threads they start, how these get on, and what callers and
    waiting threads can rely on. */
module PayloadRestartRuns {
  import opened Prelude
  import opened Threading
  import opened ThreadWaits
  import opened PayloadRestart

  lemma RunInv(steps: seq<Step>)
    requires Run(INITIAL, steps).Some?
    ensures Inv(Run(INITIAL, steps).value)
  {
    RunKeepsInv(INITIAL, steps);
  }

  // ---------------------------------------------------------------- who is started

  /** Adding the payload thread: it is registered and starts to work, the restart thread is about to leave, and every
      payload thread before it has ended. */
  lemma PayloadStarted(steps: seq<Step>, t: ThreadId, p: ThreadId)
    requires Run(INITIAL, steps).Some? && Next(Run(INITIAL, steps).value, AddPayload(t, p)).Some?
    ensures var s := Run(INITIAL, steps).value;
            var s' := Next(s, AddPayload(t, p)).value;
            && PAYLOAD in s'.objs && s'.objs[PAYLOAD] == p && p in s'.threads &&
               s'.threads[p] == Thread(PAYLOAD, Working)
            && InPhase(s', t, Leaving) && s'.threads[t].name == RESTART
            && forall u :: u in s.threads && s.threads[u].name == PAYLOAD ==> u != p && s.threads[u].phase == Ended
  {
    RunInv(steps);
    var s := Run(INITIAL, steps).value;
    DifferentNames();
    assert Restarting(s, t);
  }

  /** The step adds a thread t of this name. */
  predicate AddsThread(s: State, step: Step, t: ThreadId, name: string) {
    match step
    case AddRestart(_, u) => u == t && name == RESTART && RESTART !in s.objs
    case AddPayload(_, p) => p == t && name == PAYLOAD
    case AddOther(n, u) => u == t && n == name && n !in s.objs
    case _ => false
  }

  predicate AddedIn(s: State, steps: seq<Step>, t: ThreadId, name: string)
    decreases steps
  {
    steps != [] && Next(s, steps[0]).Some? &&
    (AddsThread(s, steps[0], t, name) || AddedIn(Next(s, steps[0]).value, steps[1..], t, name))
  }

  predicate Named(s: State, t: ThreadId, name: string) {
    t in s.threads && s.threads[t].name == name
  }

  lemma NamedNext(s: State, step: Step, t: ThreadId, name: string)
    requires Inv(s) && Next(s, step).Some?
    ensures Named(Next(s, step).value, t, name) <==> Named(s, t, name) || AddsThread(s, step, t, name)
  {
    if step.AddPayload? {
      assert Restarting(s, step.t);
    }
  }

  lemma {:induction false} NamedIff(s: State, steps: seq<Step>, t: ThreadId, name: string)
    requires Inv(s) && Run(s, steps).Some?
    ensures Named(Run(s, steps).value, t, name) <==> Named(s, t, name) || AddedIn(s, steps, t, name)
    decreases steps
  {
    if steps != [] {
      NamedNext(s, steps[0], t, name);
      StepKeepsInv(s, steps[0]);
      NamedIff(Next(s, steps[0]).value, steps[1..], t, name);
    }
  }

  /** In every run, the threads are exactly those that were added under a name that was free. */
  lemma ThreadIff(steps: seq<Step>, t: ThreadId, name: string)
    requires Run(INITIAL, steps).Some?
    ensures Named(Run(INITIAL, steps).value, t, name) <==> AddedIn(INITIAL, steps, t, name)
  {
    assert Inv(INITIAL);
    NamedIff(INITIAL, steps, t, name);
  }

  lemma {:induction false} PayloadAdded(s: State, steps: seq<Step>, p: ThreadId)
    requires Run(s, steps).Some?
    ensures AddedIn(s, steps, p, PAYLOAD) <==>
            (exists t :: AddPayload(t, p) in steps) || OtherAdded(s, steps, p, PAYLOAD)
    decreases steps
  {
    DifferentNames();
    if steps != [] {
      PayloadAdded(Next(s, steps[0]).value, steps[1..], p);
      assert forall step :: step in steps <==> step == steps[0] || step in steps[1..];
    }
  }

  predicate OtherAdded(s: State, steps: seq<Step>, t: ThreadId, name: string)
    decreases steps
  {
    steps != [] && Next(s, steps[0]).Some? &&
    ((steps[0].AddOther? && AddsThread(s, steps[0], t, name)) ||
     OtherAdded(Next(s, steps[0]).value, steps[1..], t, name))
  }

  lemma {:induction false} OthersAreOthers(s: State, steps: seq<Step>, t: ThreadId)
    requires Run(s, steps).Some?
    ensures !OtherAdded(s, steps, t, PAYLOAD)
    decreases steps
  {
    if steps != [] {
      OthersAreOthers(Next(s, steps[0]).value, steps[1..], t);
    }
  }

  /** In every run, the payload threads are exactly those that a restart thread added. */
  lemma PayloadThreadIff(steps: seq<Step>, p: ThreadId)
    requires Run(INITIAL, steps).Some?
    ensures Named(Run(INITIAL, steps).value, p, PAYLOAD) <==> exists t :: AddPayload(t, p) in steps
  {
    ThreadIff(steps, p, PAYLOAD);
    PayloadAdded(INITIAL, steps, p);
    OthersAreOthers(INITIAL, steps, p);
  }

  // ---------------------------------------------------------------- how threads get on

  /** The thread was about to leave at some point: its target ended, it raised, or it added the payload thread. */
  ghost predicate Left(steps: seq<Step>, t: ThreadId) {
    TargetEnds(t) in steps || WaitRaises(t) in steps || exists p :: AddPayload(t, p) in steps
  }

  /** What the steps of a thread say of its phase. */
  ghost predicate OnScript(steps: seq<Step>, t: ThreadId, thread: Thread) {
    && (thread.phase == Ended <==> Remove(t) in steps)
    && (thread.phase == Leaving || thread.phase == Ended <==> Left(steps, t))
    && (if thread.name == RESTART then
          && TargetEnds(t) !in steps
          && (thread.phase == Waiting <==> !Left(steps, t) && Wait(t) !in steps)
          && (thread.phase.Joining? ==> Wait(t) in steps && Join(t) !in steps)
          && (Join(t) in steps && !Left(steps, t) ==> thread.phase == Starting)
          && forall p :: AddPayload(t, p) in steps ==> Wait(t) in steps
        else WaitRaises(t) !in steps && forall p :: AddPayload(t, p) !in steps)
  }

  ghost predicate NoSteps(steps: seq<Step>, t: ThreadId) {
    forall step :: step in steps ==> Actor(step) != Some(t) && step != WaitRaises(t)
  }

  lemma InMore(steps: seq<Step>, last: Step)
    ensures forall step :: step in steps + [last] <==> step in steps || step == last
  {
  }

  lemma ScriptNext(steps: seq<Step>, last: Step, s: State, t: ThreadId)
    requires Inv(s) && Next(s, last).Some? && t in s.threads && OnScript(steps, t, s.threads[t])
    ensures t in Next(s, last).value.threads && OnScript(steps + [last], t, Next(s, last).value.threads[t])
  {
    InMore(steps, last);
    assert Restarting(s, t);
    if Actor(last) == Some(t) || last == WaitRaises(t) {
      OwnStep(steps, last, s, t);
    } else {
      OthersStep(last, s, t);
    }
  }

  lemma OthersStep(last: Step, s: State, t: ThreadId)
    requires Next(s, last).Some? && t in s.threads && Actor(last) != Some(t) && last != WaitRaises(t)
    ensures t in Next(s, last).value.threads
    ensures Next(s, last).value.threads[t] == s.threads[t] ||
            (last.WaitFor? && last.t == t &&
             Next(s, last).value.threads[t] == s.threads[t].(phase := Next(s, last).value.threads[t].phase) &&
             s.threads[t].phase == Working && Next(s, last).value.threads[t].phase.Blocked?)
  {
  }

  lemma OwnStep(steps: seq<Step>, last: Step, s: State, t: ThreadId)
    requires Inv(s) && Next(s, last).Some? && t in s.threads && OnScript(steps, t, s.threads[t])
    requires Actor(last) == Some(t) || last == WaitRaises(t)
    ensures t in Next(s, last).value.threads && OnScript(steps + [last], t, Next(s, last).value.threads[t])
  {
    InMore(steps, last);
    assert Restarting(s, t);
  }

  /** A thread that is new is at the start of its script. */
  lemma Newborn(last: Step, s: State, t: ThreadId)
    requires Next(s, last).Some? && t !in s.threads && t in Next(s, last).value.threads
    ensures Actor(last) != Some(t) && last != WaitRaises(t)
    ensures var thread := Next(s, last).value.threads[t];
            thread.phase == if thread.name == RESTART then Waiting else Working
  {
    DifferentNames();
  }

  lemma Unborn(last: Step, s: State, t: ThreadId)
    requires Next(s, last).Some? && t !in Next(s, last).value.threads
    ensures Actor(last) != Some(t) && last != WaitRaises(t)
  {
  }

  lemma FreshScript(steps: seq<Step>, t: ThreadId, thread: Thread)
    requires NoSteps(steps, t) && thread.phase == if thread.name == RESTART then Waiting else Working
    ensures OnScript(steps, t, thread)
  {
    forall p ensures AddPayload(t, p) !in steps {
      assert Actor(AddPayload(t, p)) == Some(t);
    }
    assert Actor(Remove(t)) == Actor(TargetEnds(t)) == Actor(Wait(t)) == Actor(Join(t)) == Some(t);
  }

  lemma NewScript(steps: seq<Step>, last: Step, s: State, t: ThreadId)
    requires Next(s, last).Some? && t !in s.threads && NoSteps(steps, t)
    ensures if t in Next(s, last).value.threads then OnScript(steps + [last], t, Next(s, last).value.threads[t])
            else NoSteps(steps + [last], t)
  {
    InMore(steps, last);
    if t in Next(s, last).value.threads {
      Newborn(last, s, t);
      FreshScript(steps + [last], t, Next(s, last).value.threads[t]);
    } else {
      Unborn(last, s, t);
    }
  }

  /** In every run, the phase of every thread is what its own steps say. */
  lemma {:induction false} Script(steps: seq<Step>, t: ThreadId)
    requires Run(INITIAL, steps).Some?
    ensures var s := Run(INITIAL, steps).value;
            if t in s.threads then OnScript(steps, t, s.threads[t]) else NoSteps(steps, t)
    decreases |steps|
  {
    if steps != [] {
      RunInit(INITIAL, steps);
      var init, last := steps[..|steps| - 1], steps[|steps| - 1];
      assert steps == init + [last];
      Script(init, t);
      RunInv(init);
      var s := Run(INITIAL, init).value;
      if t in s.threads {
        ScriptNext(init, last, s, t);
      } else {
        NewScript(init, last, s, t);
      }
    }
  }

  /** In every run, a restart thread that leaves has started a payload thread, unless its wait raised. */
  lemma RestartOutcome(steps: seq<Step>, t: ThreadId)
    requires Run(INITIAL, steps).Some? && Named(Run(INITIAL, steps).value, t, RESTART)
    ensures var phase := Run(INITIAL, steps).value.threads[t].phase;
            phase == Leaving || phase == Ended <==>
            WaitRaises(t) in steps ||
            exists p :: AddPayload(t, p) in steps && Named(Run(INITIAL, steps).value, p, PAYLOAD)
  {
    Script(steps, t);
    if p :| AddPayload(t, p) in steps {
      PayloadThreadIff(steps, p);
    }
  }

  // ---------------------------------------------------------------- what a wait waits for

  /** t waits for o, or no longer has to. */
  predicate WaitsOut(s: State, t: ThreadId, o: ThreadId) {
    Awaited(s, t) == Some(o) || InPhase(s, o, Ended)
  }

  lemma WaitsOutNext(s: State, step: Step, t: ThreadId, o: ThreadId)
    requires Next(s, step).Some? && WaitsOut(s, t, o) && step != WaitRaises(t)
    ensures WaitsOut(Next(s, step).value, t, o)
  {
  }

  lemma {:induction false} WaitsOutRun(s: State, steps: seq<Step>, t: ThreadId, o: ThreadId)
    requires Run(s, steps).Some? && WaitsOut(s, t, o) && WaitRaises(t) !in steps
    ensures WaitsOut(Run(s, steps).value, t, o)
    decreases steps
  {
    if steps != [] {
      WaitsOutNext(s, steps[0], t, o);
      WaitsOutRun(Next(s, steps[0]).value, steps[1..], t, o);
    }
  }

  /** In every run, a wait for a name that is registered waits for that very thread, until it has ended; a wait for a
      name that is not registered goes on at once. */
  lemma WaitFinds(before: seq<Step>, t: ThreadId, name: string, after: seq<Step>)
    requires Run(INITIAL, before).Some?
    requires var s := Run(INITIAL, before).value;
             && t in s.threads
             && var step := if s.threads[t].name == RESTART then Wait(t) else WaitFor(t, name);
                && (step.Wait? ==> name == PAYLOAD)
                && Next(s, step).Some? && Run(Next(s, step).value, after).Some? && WaitRaises(t) !in after
    ensures var s := Run(INITIAL, before).value;
            var s1 := Next(s, if s.threads[t].name == RESTART then Wait(t) else WaitFor(t, name)).value;
            if name in s.objs
            then Awaited(s1, t) == Some(s.objs[name]) && WaitsOut(Run(s1, after).value, t, s.objs[name])
            else Awaited(s1, t) == None && InPhase(s1, t, if s.threads[t].name == RESTART then Starting else Working)
  {
    RunInv(before);
    var s := Run(INITIAL, before).value;
    assert Restarting(s, t);
    var s1 := Next(s, if s.threads[t].name == RESTART then Wait(t) else WaitFor(t, name)).value;
    if name in s.objs {
      WaitsOutRun(s1, after, t, s.objs[name]);
    }
  }

  // ---------------------------------------------------------------- what a caller gets

  /** The step lets the caller return: a restart thread is registered, or it registers one. */
  predicate Satisfies(s: State, step: Step, c: CallerId) {
    (step == Check(c) && RESTART in s.objs) || (AddsRestart(step, c) && RESTART !in s.objs)
  }

  predicate SatisfiedIn(s: State, steps: seq<Step>, c: CallerId)
    decreases steps
  {
    steps != [] && Next(s, steps[0]).Some? &&
    (Satisfies(s, steps[0], c) || SatisfiedIn(Next(s, steps[0]).value, steps[1..], c))
  }

  lemma ReturnedNext(s: State, step: Step, c: CallerId)
    requires Next(s, step).Some?
    ensures At(Next(s, step).value, c, Returned) <==> At(s, c, Returned) || Satisfies(s, step, c)
  {
  }

  lemma {:induction false} ReturnedIn(s: State, steps: seq<Step>, c: CallerId)
    requires Run(s, steps).Some?
    ensures At(Run(s, steps).value, c, Returned) <==> At(s, c, Returned) || SatisfiedIn(s, steps, c)
    decreases steps
  {
    if steps != [] {
      ReturnedNext(s, steps[0], c);
      ReturnedIn(Next(s, steps[0]).value, steps[1..], c);
    }
  }

  /** In every run, a caller of restart_thread has returned exactly if its check found a restart thread registered, or
      it registered one itself. */
  lemma ReturnedIff(steps: seq<Step>, c: CallerId)
    requires Run(INITIAL, steps).Some?
    ensures At(Run(INITIAL, steps).value, c, Returned) <==> SatisfiedIn(INITIAL, steps, c)
  {
    ReturnedIn(INITIAL, steps, c);
  }

  /** A caller goes on to add a restart thread exactly if its check finds none, and what it adds then waits. */
  lemma CallerAdds(s: State, c: CallerId, t: ThreadId)
    requires At(s, c, AtCheck)
    ensures Next(s, Check(c)).Some? && (At(Next(s, Check(c)).value, c, AtAdd) <==> RESTART !in s.objs)
    ensures RESTART !in s.objs && t !in s.threads ==>
              var s1 := Next(s, Check(c)).value;
              Next(s1, AddRestart(c, t)).Some? && InPhase(Next(s1, AddRestart(c, t)).value, t, Waiting) &&
              Named(Next(s1, AddRestart(c, t)).value, t, RESTART)
  {
  }
}
