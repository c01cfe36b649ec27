/** Restarting the payload thread: any number of callers, the restart threads they start, the payload
    threads those start, and other threads, interleaved step by step. Each step is one region that the
    program runs under a lock, or one that touches nothing shared; what a target does between two waits is one
    step. The threads are fatal, which is the default, so no AttributeError of one can stand in for its end
    (ThreadErrorRuns.FatalNames): a wait that found a thread goes on only once it has ended. */
module PayloadRestart {
  import opened Prelude
  import opened Threading
  import opened ThreadWaits

  type CallerId = nat

  /** Where a caller of restart_thread is. */
  datatype Caller = AtCheck | AtAdd | Returned | Raised

  /** Where a thread is in its run: in its target, before taking itself out of the registry, or ended. */
  datatype Phase =
    | Waiting                  // restart thread: before looking up the payload thread
    | Joining(other: ThreadId) // restart thread: waiting for the payload thread it found
    | Starting                 // restart thread: before adding a new payload thread
    | Working                  // any other thread: in its target
    | Blocked(other: ThreadId) // any other thread: waiting in its target for the thread it found
    | Leaving
    | Ended

  datatype Thread = Thread(name: string, phase: Phase)

  datatype State = State(
    objs: Registry,
    threads: map<ThreadId, Thread>,
    callers: map<CallerId, Caller>,
    payloadAddRaised: bool, // some restart thread got a KeyError from adding the payload thread
    removeRaised: bool      // some thread got a KeyError from removing itself
  )

  const INITIAL := State(map[], map[], map[], false, false)

  datatype Step =
    | Call(c: CallerId)                         // someone calls restart_thread
    | Check(c: CallerId)                        // is a restart thread registered?
    | AddRestart(c: CallerId, t: ThreadId)      // add a restart thread
    | Wait(t: ThreadId)                         // look up the payload thread
    | WaitRaises(t: ThreadId)                   // the wait raises the error of a thread
    | Join(t: ThreadId)                         // the payload thread found has ended
    | AddPayload(t: ThreadId, p: ThreadId)      // add a payload thread
    | WaitFor(t: ThreadId, name: string)        // the target of a payload or other thread looks up a thread
    | GoOn(t: ThreadId)                         // the thread that the target waits for has ended
    | TargetEnds(t: ThreadId)                   // the target of a payload or other thread returns or raises
    | Remove(t: ThreadId)                       // a thread removes itself
    | AddOther(name: string, t: ThreadId)       // any other part of the program adds a thread of its own

  predicate InPhase(s: State, t: ThreadId, phase: Phase) {
    t in s.threads && s.threads[t].phase == phase
  }

  function Move(s: State, t: ThreadId, phase: Phase): State
    requires t in s.threads
  {
    s.(threads := s.threads[t := s.threads[t].(phase := phase)])
  }

  /** Register a thread that starts in a phase, if its name is free. */
  function Spawn(s: State, name: string, t: ThreadId, phase: Phase): Result<State, Exception> {
    match Added(s.objs, name, t)
    case Ok(objs) => Ok(s.(objs := objs, threads := s.threads[t := Thread(name, phase)]))
    case Err(e) => Err(e)
  }

  /** The state after a step, if the step can happen. */
  function Next(s: State, step: Step): Option<State> {
    match step
    case Call(c) =>
      if c !in s.callers then Some(s.(callers := s.callers[c := AtCheck])) else None
    case Check(c) =>
      if c in s.callers && s.callers[c] == AtCheck
      then Some(s.(callers := s.callers[c := if RESTART in s.objs then Returned else AtAdd])) else None
    case AddRestart(c, t) =>
      if c in s.callers && s.callers[c] == AtAdd && t !in s.threads
      then Some(match Spawn(s, RESTART, t, Waiting)
                case Ok(s') => s'.(callers := s.callers[c := Returned])
                case Err(_) => s.(callers := s.callers[c := Raised]))
      else None
    case Wait(t) =>
      if InPhase(s, t, Waiting)
      then Some(Move(s, t, if PAYLOAD in s.objs then Joining(s.objs[PAYLOAD]) else Starting)) else None
    case WaitRaises(t) =>
      if t in s.threads && (s.threads[t].phase == Waiting || s.threads[t].phase.Joining? ||
                            s.threads[t].phase == Starting)
      then Some(Move(s, t, Leaving)) else None
    case Join(t) =>
      if t in s.threads && s.threads[t].phase.Joining? && InPhase(s, s.threads[t].phase.other, Ended)
      then Some(Move(s, t, Starting)) else None
    case AddPayload(t, p) =>
      if InPhase(s, t, Starting) && p !in s.threads
      then Some(match Spawn(s, PAYLOAD, p, Working)
                case Ok(s') => Move(s', t, Leaving)
                case Err(_) => Move(s, t, Leaving).(payloadAddRaised := true))
      else None
    case WaitFor(t, name) =>
      if InPhase(s, t, Working) && MayWait(s.threads[t].name, name)
      then Some(if name in s.objs then Move(s, t, Blocked(s.objs[name])) else s) else None
    case GoOn(t) =>
      if t in s.threads && s.threads[t].phase.Blocked? && InPhase(s, s.threads[t].phase.other, Ended)
      then Some(Move(s, t, Working)) else None
    case TargetEnds(t) =>
      if InPhase(s, t, Working) then Some(Move(s, t, Leaving)) else None
    case Remove(t) =>
      if InPhase(s, t, Leaving)
      then Some(match Removed(s.objs, s.threads[t].name)
                case Ok(objs) => Move(s, t, Ended).(objs := objs)
                case Err(_) => Move(s, t, Ended).(removeRaised := true))
      else None
    case AddOther(name, t) =>
      if name != PAYLOAD && name != RESTART && t !in s.threads
      then Some(match Spawn(s, name, t, Working)
                case Ok(s') => s'
                case Err(_) => s)
      else None
  }

  /** The state after a whole interleaving, if each of its steps can happen. */
  function Run(s: State, steps: seq<Step>): Option<State>
    decreases steps
  {
    if steps == [] then Some(s)
    else match Next(s, steps[0])
         case None => None
         case Some(s') => Run(s', steps[1..])
  }

  // ---------------------------------------------------------------- what every step keeps

  /** A thread is in the registry from its start until it removes itself. */
  ghost predicate Registered(s: State) {
    && (forall n :: n in s.objs ==>
          s.objs[n] in s.threads && s.threads[s.objs[n]].name == n && s.threads[s.objs[n]].phase != Ended)
    && (forall t :: t in s.threads && s.threads[t].phase != Ended ==>
          s.threads[t].name in s.objs && s.objs[s.threads[t].name] == t)
  }

  ghost predicate Restarting(s: State, t: ThreadId)
    requires t in s.threads
  {
    var phase := s.threads[t].phase;
    && (phase == Waiting || phase.Joining? || phase == Starting ==> s.threads[t].name == RESTART)
    && (phase == Working || phase.Blocked? ==> s.threads[t].name != RESTART)
    && (phase.Blocked? ==> phase.other in s.threads && MayWait(s.threads[t].name, s.threads[phase.other].name))
    && (phase.Joining? ==>
          phase.other in s.threads && s.threads[phase.other].name == PAYLOAD &&
          (PAYLOAD in s.objs ==> s.objs[PAYLOAD] == phase.other))
    && (phase == Starting ==> PAYLOAD !in s.objs)
  }

  ghost predicate Inv(s: State) {
    && Registered(s)
    && (forall t {:trigger Restarting(s, t)} :: t in s.threads ==> Restarting(s, t))
    && !s.payloadAddRaised && !s.removeRaised
  }

  lemma DifferentNames()
    ensures PAYLOAD != RESTART
  {
    Marks();
  }

  /** A thread that is not yet in the program starts under a free name. */
  lemma SpawnKeepsInv(s: State, name: string, t: ThreadId, phase: Phase)
    requires Inv(s) && t !in s.threads && name !in s.objs
    requires if name == RESTART then phase == Waiting else phase == Working
    requires name == PAYLOAD ==>
               forall u :: u in s.threads ==> s.threads[u].phase != Starting && !s.threads[u].phase.Joining?
    ensures Inv(Spawn(s, name, t, phase).value)
  {
    var s' := Spawn(s, name, t, phase).value;
    forall u | u in s'.threads ensures Restarting(s', u) {
      if u != t {
        assert Restarting(s, u);
      }
    }
  }

  /** A thread moves on without touching the registry. */
  lemma MoveKeepsInv(s: State, t: ThreadId, phase: Phase)
    requires Inv(s) && t in s.threads && s.threads[t].phase != Ended && phase != Ended
    requires Restarting(Move(s, t, phase), t)
    ensures Inv(Move(s, t, phase))
  {
    var s' := Move(s, t, phase);
    forall u | u in s'.threads ensures Restarting(s', u) {
      assert Restarting(s, u);
    }
  }

  /** Only one restart thread can be in its target, since all have the same name. */
  lemma OnlyRestarter(s: State, t: ThreadId, u: ThreadId)
    requires Inv(s) && t in s.threads && u in s.threads
    requires s.threads[t].name == RESTART && s.threads[t].phase != Ended
    requires s.threads[u].phase == Starting || s.threads[u].phase.Joining? || s.threads[u].phase == Waiting
    ensures t == u
  {
    assert Restarting(s, u);
  }

  lemma AddPayloadKeepsInv(s: State, t: ThreadId, p: ThreadId)
    requires Inv(s) && InPhase(s, t, Starting) && p !in s.threads
    ensures Inv(Next(s, AddPayload(t, p)).value)
  {
    DifferentNames();
    assert Restarting(s, t);
    MoveKeepsInv(s, t, Leaving);
    var moved := Move(s, t, Leaving);
    forall u | u in moved.threads ensures moved.threads[u].phase != Starting && !moved.threads[u].phase.Joining? {
      if u != t && (s.threads[u].phase == Starting || s.threads[u].phase.Joining?) {
        OnlyRestarter(s, t, u);
      }
    }
    SpawnKeepsInv(moved, PAYLOAD, p, Working);
    assert Spawn(moved, PAYLOAD, p, Working).value == Next(s, AddPayload(t, p)).value;
  }

  lemma RemoveKeepsInv(s: State, t: ThreadId)
    requires Inv(s) && InPhase(s, t, Leaving)
    ensures Inv(Next(s, Remove(t)).value)
  {
    var s' := Next(s, Remove(t)).value;
    forall u | u in s'.threads ensures Restarting(s', u) {
      assert Restarting(s, u);
    }
  }

  lemma WaitKeepsInv(s: State, t: ThreadId)
    requires Inv(s) && InPhase(s, t, Waiting)
    ensures Inv(Next(s, Wait(t)).value)
  {
    assert Restarting(s, t);
    MoveKeepsInv(s, t, if PAYLOAD in s.objs then Joining(s.objs[PAYLOAD]) else Starting);
  }

  lemma JoinKeepsInv(s: State, t: ThreadId)
    requires Inv(s) && t in s.threads && s.threads[t].phase.Joining? && InPhase(s, s.threads[t].phase.other, Ended)
    ensures Inv(Next(s, Join(t)).value)
  {
    assert Restarting(s, t);
    MoveKeepsInv(s, t, Starting);
  }

  lemma WaitForKeepsInv(s: State, t: ThreadId, name: string)
    requires Inv(s) && InPhase(s, t, Working) && MayWait(s.threads[t].name, name)
    ensures Inv(Next(s, WaitFor(t, name)).value)
  {
    assert Restarting(s, t);
    if name in s.objs {
      MoveKeepsInv(s, t, Blocked(s.objs[name]));
    }
  }

  lemma GoOnKeepsInv(s: State, t: ThreadId)
    requires Inv(s) && t in s.threads && s.threads[t].phase.Blocked?
    ensures Inv(Move(s, t, Working))
  {
    assert Restarting(s, t);
    MoveKeepsInv(s, t, Working);
  }

  lemma StepKeepsInv(s: State, step: Step)
    requires Inv(s) && Next(s, step).Some?
    ensures Inv(Next(s, step).value)
  {
    match step
    case Call(c) => CallersFree(s, Next(s, step).value);
    case Check(c) => CallersFree(s, Next(s, step).value);
    case AddRestart(c, t) =>
      DifferentNames();
      if RESTART in s.objs {
        CallersFree(s, Next(s, step).value);
      } else {
        SpawnKeepsInv(s, RESTART, t, Waiting);
        CallersFree(Spawn(s, RESTART, t, Waiting).value, Next(s, step).value);
      }
    case Wait(t) => WaitKeepsInv(s, t);
    case WaitRaises(t) => MoveKeepsInv(s, t, Leaving);
    case Join(t) => JoinKeepsInv(s, t);
    case AddPayload(t, p) => AddPayloadKeepsInv(s, t, p);
    case WaitFor(t, name) => WaitForKeepsInv(s, t, name);
    case GoOn(t) => GoOnKeepsInv(s, t);
    case TargetEnds(t) => MoveKeepsInv(s, t, Leaving);
    case Remove(t) => RemoveKeepsInv(s, t);
    case AddOther(name, t) =>
      if name !in s.objs {
        SpawnKeepsInv(s, name, t, Working);
      }
  }

  lemma CallersFree(s: State, s': State)
    requires Inv(s) && s' == s.(callers := s'.callers)
    ensures Inv(s')
  {
    forall u | u in s'.threads ensures Restarting(s', u) {
      assert Restarting(s, u);
    }
  }

  lemma {:induction false} RunKeepsInv(s: State, steps: seq<Step>)
    requires Inv(s) && Run(s, steps).Some?
    ensures Inv(Run(s, steps).value)
    decreases steps
  {
    if steps != [] {
      StepKeepsInv(s, steps[0]);
      RunKeepsInv(Next(s, steps[0]).value, steps[1..]);
    }
  }

  // ---------------------------------------------------------------- safety over all runs

  predicate PayloadActive(s: State, t: ThreadId) {
    t in s.threads && s.threads[t].name == PAYLOAD && (s.threads[t].phase != Ended || t in s.objs.Values)
  }

  /** In every interleaving at most one payload thread is registered or inside its target, adding the
      payload thread never raises, and every thread finds itself registered when it leaves. */
  lemma AtMostOnePayloadThread(steps: seq<Step>)
    requires Run(INITIAL, steps).Some?
    ensures var s := Run(INITIAL, steps).value;
            && !s.payloadAddRaised && !s.removeRaised
            && forall t, u :: PayloadActive(s, t) && PayloadActive(s, u) ==> t == u
  {
    assert Inv(INITIAL);
    RunKeepsInv(INITIAL, steps);
  }

  // ---------------------------------------------------------------- waiting ends

  /** The thread that a thread is waiting for. */
  function Awaited(s: State, t: ThreadId): Option<ThreadId> {
    if t !in s.threads then None
    else match s.threads[t].phase
         case Joining(other) => Some(other)
         case Blocked(other) => Some(other)
         case _ => None
  }

  /** Each of these threads waits for the next. */
  ghost predicate Chain(s: State, ts: seq<ThreadId>) {
    ts != [] && forall i | 0 <= i < |ts| - 1 :: Awaited(s, ts[i]) == Some(ts[i + 1])
  }

  lemma AwaitedBelow(s: State, t: ThreadId)
    requires Inv(s) && Awaited(s, t).Some?
    ensures var other := Awaited(s, t).value;
            other in s.threads && Rank(s.threads[other].name) < Rank(s.threads[t].name)
  {
    assert Restarting(s, t);
    RankFalls(s.threads[t].name, s.threads[Awaited(s, t).value].name);
  }

  lemma {:induction false} ChainFalls(s: State, ts: seq<ThreadId>)
    requires Inv(s) && Chain(s, ts) && ts[0] in s.threads
    ensures forall i | 0 <= i < |ts| ::
              ts[i] in s.threads && Rank(s.threads[ts[i]].name) + i <= Rank(s.threads[ts[0]].name)
  {
    if |ts| > 1 {
      var init := ts[..|ts| - 1];
      ChainFalls(s, init);
      var last := |ts| - 2;
      assert init[last] == ts[last] && Awaited(s, ts[last]) == Some(ts[last + 1]);
      AwaitedBelow(s, ts[last]);
      forall i | 0 <= i < |ts|
        ensures ts[i] in s.threads && Rank(s.threads[ts[i]].name) + i <= Rank(s.threads[ts[0]].name)
      {
        if i < |init| {
          assert init[i] == ts[i];
        }
      }
    }
  }

  /** In no interleaving do threads wait for each other in a circle; at most four waits follow one another. */
  lemma NoCircle(steps: seq<Step>, ts: seq<ThreadId>)
    requires Run(INITIAL, steps).Some? && Chain(Run(INITIAL, steps).value, ts)
    requires ts[0] in Run(INITIAL, steps).value.threads
    ensures |ts| <= 5 && forall i, j | 0 <= i < j < |ts| :: ts[i] != ts[j]
  {
    assert Inv(INITIAL);
    RunKeepsInv(INITIAL, steps);
    var s := Run(INITIAL, steps).value;
    ChainFalls(s, ts);
    assert Rank(s.threads[ts[|ts| - 1]].name) >= 0;
    forall i, j | 0 <= i < j < |ts| ensures ts[i] != ts[j] {
      var rest := ts[i..];
      forall k | 0 <= k < |rest| - 1 ensures Awaited(s, rest[k]) == Some(rest[k + 1]) {
        assert rest[k] == ts[i + k] && rest[k + 1] == ts[i + k + 1];
      }
      ChainFalls(s, rest);
      assert rest[j - i] == ts[j];
    }
  }

  lemma {:induction false} FreshId(ids: set<ThreadId>) returns (p: ThreadId)
    ensures forall t | t in ids :: t < p
    decreases |ids|
  {
    if ids == {} {
      p := 0;
    } else {
      var t :| t in ids;
      var q := FreshId(ids - {t});
      p := if q <= t then t + 1 else q;
      assert forall u | u in ids :: u == t || u in ids - {t};
    }
  }

  /** The thread whose step it is. */
  function Actor(step: Step): Option<ThreadId> {
    match step
    case Wait(t) => Some(t)
    case Join(t) => Some(t)
    case AddPayload(t, _) => Some(t)
    case GoOn(t) => Some(t)
    case TargetEnds(t) => Some(t)
    case Remove(t) => Some(t)
    case _ => None
  }

  /** A thread that does not wait for another that is still there can go on by itself. */
  lemma CanGoOn(s: State, t: ThreadId) returns (step: Step)
    requires Inv(s) && t in s.threads && s.threads[t].phase != Ended
    requires Awaited(s, t).Some? ==> InPhase(s, Awaited(s, t).value, Ended)
    ensures Actor(step) == Some(t) && Next(s, step).Some?
  {
    match s.threads[t].phase
    case Waiting => step := Wait(t);
    case Joining(_) => step := Join(t);
    case Starting =>
      var p := FreshId(s.threads.Keys);
      step := AddPayload(t, p);
    case Working => step := TargetEnds(t);
    case Blocked(_) => step := GoOn(t);
    case Leaving => step := Remove(t);
  }

  lemma {:induction false} FollowChain(s: State, t: ThreadId) returns (ts: seq<ThreadId>, step: Step)
    requires Inv(s) && t in s.threads && s.threads[t].phase != Ended
    ensures Chain(s, ts) && ts[0] == t && Actor(step) == Some(ts[|ts| - 1]) && Next(s, step).Some?
    decreases Rank(s.threads[t].name)
  {
    if Awaited(s, t).Some? && !InPhase(s, Awaited(s, t).value, Ended) {
      AwaitedBelow(s, t);
      var rest;
      rest, step := FollowChain(s, Awaited(s, t).value);
      ts := [t] + rest;
    } else {
      ts := [t];
      step := CanGoOn(s, t);
    }
  }

  /** In every interleaving, a thread that has not ended can go on, or the threads it waits for, one after another,
      lead to one that can; so nothing is ever stuck. */
  lemma WaitingEnds(steps: seq<Step>, t: ThreadId) returns (ts: seq<ThreadId>, step: Step)
    requires Run(INITIAL, steps).Some?
    requires var s := Run(INITIAL, steps).value; t in s.threads && s.threads[t].phase != Ended
    ensures var s := Run(INITIAL, steps).value;
            Chain(s, ts) && ts[0] == t && Actor(step) == Some(ts[|ts| - 1]) && Next(s, step).Some?
  {
    assert Inv(INITIAL);
    RunKeepsInv(INITIAL, steps);
    ts, step := FollowChain(Run(INITIAL, steps).value, t);
  }

  // ---------------------------------------------------------------- when a caller raises

  predicate At(s: State, c: CallerId, place: Caller) {
    c in s.callers && s.callers[c] == place
  }

  predicate AddsRestart(step: Step, c: CallerId) {
    step.AddRestart? && step.c == c
  }

  predicate NoAddBy(steps: seq<Step>, c: CallerId) {
    forall i {:trigger steps[i]} :: 0 <= i < |steps| ==> !AddsRestart(steps[i], c)
  }

  /** Another caller registers a restart thread, and that thread does not remove itself after that. */
  predicate RegisteredSince(s: State, steps: seq<Step>, c: CallerId)
    decreases steps
  {
    steps != [] && Next(s, steps[0]).Some? &&
    ((steps[0].AddRestart? && steps[0].c != c && RESTART !in s.objs && Remove(steps[0].t) !in steps[1..]) ||
     RegisteredSince(Next(s, steps[0]).value, steps[1..], c))
  }

  /** Only adding a restart thread registers one, and only its own removal takes it out. */
  lemma RestartNext(s: State, step: Step)
    requires Inv(s) && Next(s, step).Some?
    ensures var s' := Next(s, step).value;
            if RESTART in s.objs then
              if step == Remove(s.objs[RESTART]) then RESTART !in s'.objs
              else RESTART in s'.objs && s'.objs[RESTART] == s.objs[RESTART]
            else if step.AddRestart? then RESTART in s'.objs && s'.objs[RESTART] == step.t
            else RESTART !in s'.objs
  {
    DifferentNames();
  }

  lemma {:induction false} RestartRegistered(s: State, steps: seq<Step>, c: CallerId)
    requires Inv(s) && Run(s, steps).Some? && NoAddBy(steps, c)
    ensures RESTART in Run(s, steps).value.objs <==>
            (RESTART in s.objs && Remove(s.objs[RESTART]) !in steps) || RegisteredSince(s, steps, c)
    decreases steps
  {
    if steps != [] {
      var rest := steps[1..];
      RestartNext(s, steps[0]);
      StepKeepsInv(s, steps[0]);
      assert !AddsRestart(steps[0], c);
      forall i {:trigger rest[i]} | 0 <= i < |rest| ensures !AddsRestart(rest[i], c) {
        assert rest[i] == steps[i + 1];
      }
      RestartRegistered(Next(s, steps[0]).value, rest, c);
      assert forall step :: step in steps <==> step == steps[0] || step in rest;
    }
  }

  lemma StaysNext(s: State, step: Step, c: CallerId)
    requires Next(s, step).Some? && At(s, c, AtAdd) && !AddsRestart(step, c)
    ensures At(Next(s, step).value, c, AtAdd)
  {
  }

  /** A caller raises only where it adds a restart thread. */
  lemma RaisesOnlyAtAdd(s: State, step: Step, c: CallerId)
    requires Next(s, step).Some? && At(Next(s, step).value, c, Raised) && !At(s, c, Raised)
    ensures AddsRestart(step, c) && At(s, c, AtAdd)
  {
  }

  /** The run up to the check of a caller that found no restart thread, and what happened since. */
  ghost predicate SplitsAt(steps: seq<Step>, before: seq<Step>, middle: seq<Step>, c: CallerId) {
    && steps == before + ([Check(c)] + middle)
    && Run(INITIAL, before).Some? && At(Run(INITIAL, before).value, c, AtCheck) &&
       RESTART !in Run(INITIAL, before).value.objs
    && NoAddBy(middle, c)
    && Run(Next(Run(INITIAL, before).value, Check(c)).value, middle) == Run(INITIAL, steps)
  }

  lemma RunInit(s: State, steps: seq<Step>)
    requires steps != [] && Run(s, steps).Some?
    ensures var init, last := steps[..|steps| - 1], steps[|steps| - 1];
            Run(s, init).Some? && Next(Run(s, init).value, last) == Run(s, steps)
    decreases steps
  {
    var init := steps[..|steps| - 1];
    if |steps| > 1 {
      assert init[1..] == steps[1..][..|steps[1..]| - 1];
      RunInit(Next(s, steps[0]).value, steps[1..]);
    } else {
      assert steps[1..] == [];
    }
  }

  lemma {:induction false} RunSnoc(s: State, steps: seq<Step>, step: Step)
    requires Run(s, steps).Some? && Next(Run(s, steps).value, step).Some?
    ensures Run(s, steps + [step]) == Next(Run(s, steps).value, step)
    decreases steps
  {
    if steps == [] {
      assert [] + [step] == [step] && [step][1..] == [];
    } else {
      assert (steps + [step])[1..] == steps[1..] + [step];
      RunSnoc(Next(s, steps[0]).value, steps[1..], step);
    }
  }

  lemma SplitsHere(before: seq<Step>, c: CallerId)
    requires Run(INITIAL, before).Some? && At(Run(INITIAL, before).value, c, AtCheck) &&
             RESTART !in Run(INITIAL, before).value.objs
    ensures SplitsAt(before + [Check(c)], before, [], c)
  {
    RunSnoc(INITIAL, before, Check(c));
    assert [Check(c)] + [] == [Check(c)];
  }

  lemma SplitsLater(steps: seq<Step>, before: seq<Step>, middle: seq<Step>, c: CallerId, step: Step)
    requires Run(INITIAL, steps).Some? && SplitsAt(steps, before, middle, c)
    requires !AddsRestart(step, c) && Next(Run(INITIAL, steps).value, step).Some?
    ensures SplitsAt(steps + [step], before, middle + [step], c)
  {
    var s1 := Next(Run(INITIAL, before).value, Check(c)).value;
    RunSnoc(s1, middle, step);
    RunSnoc(INITIAL, steps, step);
    assert before + ([Check(c)] + middle) + [step] == before + ([Check(c)] + (middle + [step]));
  }

  /** A caller comes to add only by checking and finding no restart thread. */
  lemma CheckedFirst(s: State, step: Step, c: CallerId)
    requires Next(s, step).Some? && At(Next(s, step).value, c, AtAdd)
    ensures if step == Check(c) then At(s, c, AtCheck) && RESTART !in s.objs
            else At(s, c, AtAdd) && !AddsRestart(step, c)
  {
  }

  lemma {:induction false} AddSplits(steps: seq<Step>, c: CallerId) returns (before: seq<Step>, middle: seq<Step>)
    requires Run(INITIAL, steps).Some? && At(Run(INITIAL, steps).value, c, AtAdd)
    ensures SplitsAt(steps, before, middle, c)
    decreases |steps|
  {
    RunInit(INITIAL, steps);
    var init, last := steps[..|steps| - 1], steps[|steps| - 1];
    assert steps == init + [last];
    CheckedFirst(Run(INITIAL, init).value, last, c);
    if last == Check(c) {
      SplitsHere(init, c);
      before, middle := init, [];
    } else {
      before, middle := AddSplits(init, c);
      SplitsLater(init, before, middle, c, last);
      middle := middle + [last];
    }
  }

  /** Whenever a caller of restart_thread adds a restart thread: the run up to there splits at its check, which found
      none, and the caller raises exactly if after that check another caller registered a restart thread that has not
      removed itself yet. */
  lemma CallerRaisesIff(steps: seq<Step>, c: CallerId, t: ThreadId) returns (before: seq<Step>, middle: seq<Step>)
    requires Run(INITIAL, steps).Some? && At(Run(INITIAL, steps).value, c, AtAdd)
    requires t !in Run(INITIAL, steps).value.threads
    ensures SplitsAt(steps, before, middle, c)
    ensures var adding := Next(Run(INITIAL, steps).value, AddRestart(c, t));
            && adding.Some? && c in adding.value.callers
            && (adding.value.callers[c] == Raised <==> LostSince(before, middle, c))
  {
    before, middle := AddSplits(steps, c);
    RegisteredIff(steps, before, middle, c);
  }

  /** After the check of c that ends `before`, another caller registered a restart thread that is still there. */
  ghost predicate LostSince(before: seq<Step>, middle: seq<Step>, c: CallerId) {
    Run(INITIAL, before).Some? && Next(Run(INITIAL, before).value, Check(c)).Some? &&
    RegisteredSince(Next(Run(INITIAL, before).value, Check(c)).value, middle, c)
  }

  lemma RegisteredIff(steps: seq<Step>, before: seq<Step>, middle: seq<Step>, c: CallerId)
    requires Run(INITIAL, steps).Some? && SplitsAt(steps, before, middle, c)
    ensures RESTART in Run(INITIAL, steps).value.objs <==> LostSince(before, middle, c)
  {
    assert Inv(INITIAL);
    RunKeepsInv(INITIAL, before);
    var s := Run(INITIAL, before).value;
    StepKeepsInv(s, Check(c));
    RestartRegistered(Next(s, Check(c)).value, middle, c);
  }

  /** The k-th step of the run is where c adds its restart thread, having lost a race since its check. */
  ghost predicate LosesAt(steps: seq<Step>, k: nat, before: seq<Step>, middle: seq<Step>, c: CallerId) {
    k < |steps| && AddsRestart(steps[k], c) && SplitsAt(steps[..k], before, middle, c) && LostSince(before, middle, c)
  }

  lemma {:induction false} RaisedMeansLost(steps: seq<Step>, c: CallerId)
    returns (k: nat, before: seq<Step>, middle: seq<Step>)
    requires Run(INITIAL, steps).Some? && At(Run(INITIAL, steps).value, c, Raised)
    ensures LosesAt(steps, k, before, middle, c)
    decreases |steps|
  {
    RunInit(INITIAL, steps);
    var init, last := steps[..|steps| - 1], steps[|steps| - 1];
    if At(Run(INITIAL, init).value, c, Raised) {
      k, before, middle := RaisedMeansLost(init, c);
      assert init[..k] == steps[..k];
    } else {
      RaisesOnlyAtAdd(Run(INITIAL, init).value, last, c);
      k := |init|;
      before, middle := AddSplits(init, c);
      RegisteredIff(init, before, middle, c);
    }
  }

  lemma {:induction false} StaysRaised(s: State, steps: seq<Step>, c: CallerId)
    requires Run(s, steps).Some? && At(s, c, Raised)
    ensures At(Run(s, steps).value, c, Raised)
    decreases steps
  {
    if steps != [] {
      RaisedNext(s, steps[0], c);
      StaysRaised(Next(s, steps[0]).value, steps[1..], c);
    }
  }

  lemma RaisedNext(s: State, step: Step, c: CallerId)
    requires Next(s, step).Some? && At(s, c, Raised)
    ensures At(Next(s, step).value, c, Raised)
  {
  }

  lemma {:induction false} RunPrefix(s: State, steps: seq<Step>, k: nat)
    requires Run(s, steps).Some? && k <= |steps|
    ensures Run(s, steps[..k]).Some? && Run(Run(s, steps[..k]).value, steps[k..]) == Run(s, steps)
    decreases k
  {
    if k == 0 {
      assert steps[0..] == steps;
    } else {
      assert steps[..k][1..] == steps[1..][..k - 1] && steps[1..][k - 1..] == steps[k..];
      RunPrefix(Next(s, steps[0]).value, steps[1..], k - 1);
    }
  }

  lemma LostMeansRaised(steps: seq<Step>, k: nat, before: seq<Step>, middle: seq<Step>, c: CallerId)
    requires Run(INITIAL, steps).Some? && LosesAt(steps, k, before, middle, c)
    ensures At(Run(INITIAL, steps).value, c, Raised)
  {
    RunPrefix(INITIAL, steps, k);
    var s := Run(INITIAL, steps[..k]).value;
    RegisteredIff(steps[..k], before, middle, c);
    assert steps[k..][0] == steps[k] && steps[k..][1..] == steps[k + 1..];
    assert At(Next(s, steps[k]).value, c, Raised);
    StaysRaised(Next(s, steps[k]).value, steps[k + 1..], c);
  }

  /** In every interleaving, a caller of restart_thread has raised exactly if it came to add its thread after another
      caller registered one since its check, and that one was still there. */
  lemma RaisedIff(steps: seq<Step>, c: CallerId)
    requires Run(INITIAL, steps).Some?
    ensures At(Run(INITIAL, steps).value, c, Raised) <==>
            exists k, before, middle :: LosesAt(steps, k, before, middle, c)
  {
    if At(Run(INITIAL, steps).value, c, Raised) {
      var k, before, middle := RaisedMeansLost(steps, c);
    }
    if k, before, middle :| LosesAt(steps, k, before, middle, c) {
      LostMeansRaised(steps, k, before, middle, c);
    }
  }

  /** A caller that loses the race between its check and its add raises; two callers are enough. */
  lemma CallerCanRaise()
    ensures exists steps, c :: Run(INITIAL, steps).Some? &&
                               c in Run(INITIAL, steps).value.callers && Run(INITIAL, steps).value.callers[c] == Raised
  {
    var s1 := Next(INITIAL, Call(0)).value;
    var s2 := Next(s1, Call(1)).value;
    var s3 := Next(s2, Check(0)).value;
    var s4 := Next(s3, Check(1)).value;
    var s5 := Next(s4, AddRestart(0, 0)).value;
    var s6 := Next(s5, AddRestart(1, 1)).value;
    var rest := [AddRestart(1, 1)];
    RunOne(s5, AddRestart(1, 1), []);
    RunOne(s4, AddRestart(0, 0), rest);
    RunOne(s3, Check(1), [AddRestart(0, 0)] + rest);
    RunOne(s2, Check(0), [Check(1)] + ([AddRestart(0, 0)] + rest));
    RunOne(s1, Call(1), [Check(0)] + ([Check(1)] + ([AddRestart(0, 0)] + rest)));
    RunOne(INITIAL, Call(0), [Call(1)] + ([Check(0)] + ([Check(1)] + ([AddRestart(0, 0)] + rest))));
    assert s6.callers[1] == Raised;
  }

  lemma RunOne(s: State, step: Step, rest: seq<Step>)
    requires Next(s, step).Some?
    ensures Run(s, [step] + rest) == Run(Next(s, step).value, rest)
  {
    assert ([step] + rest)[1..] == rest;
  }
}
