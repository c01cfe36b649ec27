/** The payload manager's states and listeners: how often a listener fires within one payload run. */
module PayloadListeners {
  datatype PayloadState =
    | STARTED | WAITING_STORAGE | WAITING_NETWORK | VERIFYING_AVAILABILITY
    | DOWNLOADING_PKG_METADATA | DOWNLOADING_GROUP_METADATA | FINISHED | ERROR

  /** The number of a state in the enumeration. */
  function Level(s: PayloadState): int {
    match s
    case STARTED => 0
    case WAITING_STORAGE => 1
    case WAITING_NETWORK => 2
    case VERIFYING_AVAILABILITY => 3
    case DOWNLOADING_PKG_METADATA => 4
    case DOWNLOADING_GROUP_METADATA => 5
    case FINISHED => 6
    case ERROR => -1
  }

  /** Told apart per registration: a function added twice is two listeners. */
  type Listener = nat

  /** The listeners of each state, the current state, and the listeners called so far. */
  datatype Hub = Hub(listeners: map<PayloadState, seq<Listener>>, current: PayloadState, calls: seq<Listener>)

  function Listeners(h: Hub, event: PayloadState): seq<Listener> {
    if event in h.listeners then h.listeners[event] else []
  }

  /** A new listener is called at once when its state is the current one or was passed. */
  predicate Due(event: PayloadState, current: PayloadState) {
    if event == ERROR then current == ERROR else Level(event) <= Level(current)
  }

  /** The states in the order of the enumeration; ERROR is none of them. */
  const ORDER := [STARTED, WAITING_STORAGE, WAITING_NETWORK, VERIFYING_AVAILABILITY, DOWNLOADING_PKG_METADATA,
                  DOWNLOADING_GROUP_METADATA, FINISHED]

  /** What add_listener promises to call at once: the state is ERROR and so is the current one, or neither is and the
      state is the current one or stands before it in the enumeration, whether or not the run was in it. */
  ghost predicate AtOnce(event: PayloadState, current: PayloadState) {
    if event == ERROR || current == ERROR then event == current
    else exists i, j :: 0 <= i <= j < |ORDER| && ORDER[i] == event && ORDER[j] == current
  }

  lemma OrderIsLevel(s: PayloadState)
    requires s != ERROR
    ensures 0 <= Level(s) < |ORDER| && ORDER[Level(s)] == s
    ensures forall i :: 0 <= i < |ORDER| && ORDER[i] == s ==> i == Level(s)
  {
  }

  lemma DueIsAtOnce(event: PayloadState, current: PayloadState)
    ensures Due(event, current) <==> AtOnce(event, current)
  {
    if event != ERROR && current != ERROR {
      OrderIsLevel(event);
      OrderIsLevel(current);
    }
  }

  function Register(h: Hub, event: PayloadState, f: Listener): Hub {
    h.(listeners := h.listeners[event := Listeners(h, event) + [f]],
       calls := if Due(event, h.current) then h.calls + [f] else h.calls)
  }

  /** Whether calling a listener raises. */
  type Callbacks = Listener -> bool

  /** The listeners of a state that are called: the first one that raises is the last. */
  function Called(fs: seq<Listener>, fails: Callbacks): seq<Listener> {
    if fs == [] then [] else [fs[0]] + if fails(fs[0]) then [] else Called(fs[1..], fails)
  }

  predicate SomeFail(fs: seq<Listener>, fails: Callbacks) {
    exists i {:trigger fs[i]} :: 0 <= i < |fs| && fails(fs[i])
  }

  function Enter(h: Hub, event: PayloadState, fails: Callbacks): Hub {
    h.(current := event, calls := h.calls + Called(Listeners(h, event), fails))
  }

  /** One locked region: somebody adds a listener, or the payload thread sets a state. */
  datatype Op = Add(event: PayloadState, f: Listener) | Set(event: PayloadState)

  type Registration = op: Op | op.Add? witness Add(ERROR, 0)

  function Do(h: Hub, op: Op, fails: Callbacks): Hub {
    match op
    case Add(event, f) => Register(h, event, f)
    case Set(event) => Enter(h, event, fails)
  }

  function DoAll(h: Hub, ops: seq<Op>, fails: Callbacks): Hub
    decreases ops
  {
    if ops == [] then h else DoAll(Do(h, ops[0], fails), ops[1..], fails)
  }

  lemma {:induction false} DoAllConcat(h: Hub, x: seq<Op>, y: seq<Op>, fails: Callbacks)
    ensures DoAll(h, x + y, fails) == DoAll(DoAll(h, x, fails), y, fails)
    decreases x
  {
    if x == [] {
      assert x + y == y;
    } else {
      assert (x + y)[1..] == x[1..] + y;
      DoAllConcat(Do(h, x[0], fails), x[1..], y, fails);
    }
  }

  lemma DoOne(h: Hub, op: Op, fails: Callbacks)
    ensures DoAll(h, [op], fails) == Do(h, op, fails)
  {
    assert [op][1..] == [];
  }

  /** What the payload thread meets on its way: each answer decides a branch. */
  datatype Answers = Answers(dnf: bool, onlyOnChange: bool, stillAvailable: bool, baseRepoFails: bool, ready: bool)

  /** The states a payload run goes through, in order: they rise until FINISHED or ERROR. */
  function RunStates(a: Answers): (states: seq<PayloadState>)
    ensures states != [] && states[0] == STARTED && Rises(states)
    ensures states[|states| - 1] == FINISHED || states[|states| - 1] == ERROR
  {
    [STARTED, WAITING_STORAGE, WAITING_NETWORK] +
    if !a.dnf then [FINISHED]
    else if a.onlyOnChange && a.stillAvailable then [VERIFYING_AVAILABILITY, FINISHED]
    else (if a.onlyOnChange then [VERIFYING_AVAILABILITY] else []) + [DOWNLOADING_PKG_METADATA] +
         if a.baseRepoFails then [ERROR]
         else [DOWNLOADING_GROUP_METADATA] + if a.ready then [FINISHED] else [ERROR]
  }

  /** A payload run: the answers it gets, what others register between a state and the next, and the states that are
      left by an exception other than a listener's. */
  datatype Run = Run(answers: Answers, added: PayloadState -> seq<Registration>, raises: PayloadState -> bool)

  /** A run through these states: what becomes of the listeners, and whether it got through. */
  function Lived(h: Hub, states: seq<PayloadState>, run: Run, fails: Callbacks): (Hub, bool)
    decreases states
  {
    if states == [] then (h, true)
    else
      var h' := DoAll(Enter(h, states[0], fails), run.added(states[0]), fails);
      if SomeFail(Listeners(h, states[0]), fails) || run.raises(states[0]) then (h', false)
      else Lived(h', states[1..], run, fails)
  }

  /** The states that are set, each followed by what is registered before the next. */
  function OpsOf(states: seq<PayloadState>, added: PayloadState -> seq<Registration>): seq<Op> {
    if states == [] then [] else ([Set(states[0])] + added(states[0])) + OpsOf(states[1..], added)
  }

  /** The k-th state of a run is left normally: nothing raises in it, and no listener that is called for it. */
  ghost predicate LeftNormally(h: Hub, states: seq<PayloadState>, k: nat, run: Run, fails: Callbacks)
    requires k < |states|
  {
    var before := DoAll(h, OpsOf(states[..k], run.added), fails);
    !run.raises(states[k]) && !SomeFail(Listeners(before, states[k]), fails)
  }

  lemma OpsAfterFirst(h: Hub, states: seq<PayloadState>, k: nat, run: Run, fails: Callbacks)
    requires k < |states|
    ensures var h' := DoAll(Enter(h, states[0], fails), run.added(states[0]), fails);
            DoAll(h, OpsOf(states[..k + 1], run.added), fails) == DoAll(h', OpsOf(states[1..][..k], run.added), fails)
  {
    var ops := [Set(states[0])] + run.added(states[0]);
    assert states[..k + 1][1..] == states[1..][..k];
    DoAllConcat(h, [Set(states[0])], run.added(states[0]), fails);
    DoOne(h, Set(states[0]), fails);
    DoAllConcat(h, ops, OpsOf(states[1..][..k], run.added), fails);
  }

  /** Every run sets its states in order, each followed by what is registered meanwhile, up to the first that is left
      by an exception, and all of them if there is none. */
  lemma {:induction false} LivedIsOps(h: Hub, states: seq<PayloadState>, run: Run, fails: Callbacks) returns (n: nat)
    ensures n <= |states|
    ensures Lived(h, states, run, fails).0 == DoAll(h, OpsOf(states[..n], run.added), fails)
    ensures forall k | 0 <= k < n - 1 :: LeftNormally(h, states, k, run, fails)
    ensures if Lived(h, states, run, fails).1
            then n == |states| && (n > 0 ==> LeftNormally(h, states, n - 1, run, fails))
            else n > 0 && !LeftNormally(h, states, n - 1, run, fails)
    decreases states
  {
    if states == [] {
      n := 0;
    } else {
      var h' := DoAll(Enter(h, states[0], fails), run.added(states[0]), fails);
      assert states[..0] == [] && OpsOf([], run.added) == [];
      assert LeftNormally(h, states, 0, run, fails) <==>
             !run.raises(states[0]) && !SomeFail(Listeners(h, states[0]), fails);
      OpsAfterFirst(h, states, 0, run, fails);
      assert states[1..][..0] == [];
      if !LeftNormally(h, states, 0, run, fails) {
        n := 1;
      } else {
        var m := LivedIsOps(h', states[1..], run, fails);
        n := m + 1;
        forall k: nat | k < |states| - 1
          ensures LeftNormally(h, states, k + 1, run, fails) <==> LeftNormally(h', states[1..], k, run, fails)
        {
          OpsAfterFirst(h, states, k, run, fails);
        }
        forall k | 0 <= k < n - 1 ensures LeftNormally(h, states, k, run, fails) {
          if k > 0 {
            assert LeftNormally(h', states[1..], k - 1, run, fails);
          }
        }
        OpsAfterFirst(h, states, m, run, fails);
      }
    }
  }

  /** The states of a run, place by place. */
  lemma StatesAt(a: Answers)
    ensures var states := RunStates(a);
            var n := if a.onlyOnChange then 4 else 3;
            && |states| > 3 && states[0] == STARTED && states[1] == WAITING_STORAGE && states[2] == WAITING_NETWORK
            && (!a.dnf ==> states[3..] == [FINISHED])
            && (a.dnf && a.onlyOnChange ==> states[3] == VERIFYING_AVAILABILITY && |states| > 4)
            && (a.dnf && a.onlyOnChange && a.stillAvailable ==> states[4..] == [FINISHED])
            && (a.dnf && !(a.onlyOnChange && a.stillAvailable) ==>
                  states[n..] == [DOWNLOADING_PKG_METADATA] +
                                 if a.baseRepoFails then [ERROR]
                                 else [DOWNLOADING_GROUP_METADATA, if a.ready then FINISHED else ERROR])
  {
  }

  lemma {:induction false} CalledAll(fs: seq<Listener>, fails: Callbacks)
    requires forall i | 0 <= i < |fs| :: !fails(fs[i])
    ensures Called(fs, fails) == fs
  {
    if fs != [] {
      CalledAll(fs[1..], fails);
    }
  }

  lemma {:induction false} CalledUntil(fs: seq<Listener>, n: nat, fails: Callbacks)
    requires n < |fs| && fails(fs[n]) && forall i | 0 <= i < n :: !fails(fs[i])
    ensures Called(fs, fails) == fs[..n + 1]
  {
    if n > 0 {
      CalledUntil(fs[1..], n - 1, fails);
      assert [fs[0]] + fs[1..][..n] == fs[..n + 1];
    }
  }

  class PayloadManager {
    const fails: Callbacks // what calling a listener does
    var listeners: map<PayloadState, seq<Listener>>
    var current: PayloadState
    var calls: seq<Listener>

    function State(): Hub
      reads this
    {
      Hub(listeners, current, calls)
    }

    constructor (fails: Callbacks)
      ensures this.fails == fails && current == STARTED && calls == []
      ensures forall e: PayloadState :: Listeners(State(), e) == []
    {
      this.fails, listeners, current, calls := fails, map[], STARTED, [];
    }

    /** add_listener, all of it under the event lock. The result is false when the callback raised. */
    method AddListener(event: PayloadState, f: Listener) returns (ok: bool)
      modifies this
      ensures State() == Register(old(State()), event, f)
      ensures current == old(current)
      ensures forall e: PayloadState ::
                Listeners(State(), e) == Listeners(old(State()), e) + if e == event then [f] else []
      ensures calls == old(calls) + if AtOnce(event, old(current)) then [f] else []
      ensures ok <==> !(AtOnce(event, old(current)) && fails(f))
    {
      DueIsAtOnce(event, current);
      ok := true;
      listeners := listeners[event := Listeners(State(), event) + [f]];
      if event == ERROR {
        if event == current {
          calls, ok := calls + [f], !fails(f);
        }
      } else if Level(event) <= Level(current) {
        calls, ok := calls + [f], !fails(f);
      }
    }

    /** _set_state, all of it under the event lock. The result is false when a callback raised. */
    method SetState(event: PayloadState) returns (ok: bool)
      modifies this
      ensures State() == Enter(old(State()), event, fails)
      ensures current == event && listeners == old(listeners)
      ensures calls == old(calls) + Called(Listeners(old(State()), event), fails)
      ensures ok == !SomeFail(Listeners(old(State()), event), fails)
    {
      current := event;
      var due := Listeners(State(), event);
      var i := 0;
      while i < |due|
        invariant 0 <= i <= |due|
        invariant listeners == old(listeners) && current == event && calls == old(calls) + due[..i]
        invariant forall j | 0 <= j < i :: !fails(due[j])
      {
        calls := calls + [due[i]];
        assert due[..i] + [due[i]] == due[..i + 1];
        if fails(due[i]) {
          CalledUntil(due, i, fails);
          return false;
        }
        i := i + 1;
      }
      assert due[..|due|] == due;
      CalledAll(due, fails);
      ok := true;
    }

    /** Registrations that others make, one after another; what their callbacks raise is theirs. */
    method AddListeners(ops: seq<Registration>)
      modifies this
      ensures State() == DoAll(old(State()), ops, fails)
    {
      for i := 0 to |ops|
        invariant State() == DoAll(old(State()), ops[..i], fails)
      {
        var _ := AddListener(ops[i].event, ops[i].f);
        DoAllConcat(old(State()), ops[..i], [ops[i]], fails);
        DoOne(DoAll(old(State()), ops[..i], fails), ops[i], fails);
        assert ops[..i] + [ops[i]] == ops[..i + 1];
      }
      assert ops[..|ops|] == ops;
    }

    /** The run will end as `all` says if it goes through these states now. */
    ghost predicate Coming(all: (Hub, bool), run: Run, rest: seq<PayloadState>)
      reads this
    {
      all == Lived(State(), rest, run, fails)
    }

    /** One of the states of _run_thread, what is registered until the next, and whether it is left normally. */
    method Advance(event: PayloadState, run: Run, ghost all: (Hub, bool), ghost rest: seq<PayloadState>)
      returns (go: bool)
      requires rest != [] && rest[0] == event && Coming(all, run, rest)
      modifies this
      ensures if go then Coming(all, run, rest[1..]) else all == (State(), false)
    {
      go := SetState(event);
      AddListeners(run.added(event));
      go := go && !run.raises(event);
    }

    /** _run_thread. */
    method RunThread(run: Run) returns (completed: bool)
      modifies this
      ensures (State(), completed) == Lived(old(State()), RunStates(run.answers), run, fails)
    {
      ghost var states := RunStates(run.answers);
      ghost var all := Lived(State(), states, run, fails);
      StatesAt(run.answers);
      completed := Advance(STARTED, run, all, states);
      if completed {
        completed := Advance(WAITING_STORAGE, run, all, states[1..]);
        assert states[1..][1..] == states[2..];
      }
      if completed {
        completed := Advance(WAITING_NETWORK, run, all, states[2..]);
        assert states[2..][1..] == states[3..];
      }
      if completed && !run.answers.dnf {
        completed := Advance(FINISHED, run, all, states[3..]);
      } else if completed && run.answers.onlyOnChange {
        completed := VerifyRepositories(run, all);
      } else if completed {
        completed := SetUpRepositories(run, all, states[3..]);
      }
    }

    /** The part of _run_thread that looks whether the repositories changed. */
    method VerifyRepositories(run: Run, ghost all: (Hub, bool)) returns (completed: bool)
      requires run.answers.dnf && run.answers.onlyOnChange
      requires |RunStates(run.answers)| > 3 && Coming(all, run, RunStates(run.answers)[3..])
      modifies this
      ensures (State(), completed) == all
    {
      ghost var states := RunStates(run.answers);
      StatesAt(run.answers);
      completed := Advance(VERIFYING_AVAILABILITY, run, all, states[3..]);
      assert states[3..][1..] == states[4..];
      if completed && run.answers.stillAvailable {
        completed := Advance(FINISHED, run, all, states[4..]);
      } else if completed {
        completed := SetUpRepositories(run, all, states[4..]);
      }
    }

    /** The part of _run_thread that sets up package repositories. */
    method SetUpRepositories(run: Run, ghost all: (Hub, bool), ghost rest: seq<PayloadState>) returns (completed: bool)
      requires rest == [DOWNLOADING_PKG_METADATA] +
                       if run.answers.baseRepoFails then [ERROR]
                       else [DOWNLOADING_GROUP_METADATA, if run.answers.ready then FINISHED else ERROR]
      requires Coming(all, run, rest)
      modifies this
      ensures (State(), completed) == all
    {
      completed := Advance(DOWNLOADING_PKG_METADATA, run, all, rest);
      if completed && run.answers.baseRepoFails {
        completed := Advance(ERROR, run, all, rest[1..]);
      } else if completed {
        completed := Advance(DOWNLOADING_GROUP_METADATA, run, all, rest[1..]);
        if completed {
          completed := Advance(if run.answers.ready then FINISHED else ERROR, run, all, rest[1..][1..]);
        }
      }
    }
  }

  // ---------------------------------------------------------------- the states of a run

  /** y can come after x in a run: it is a higher state, or the error that ends the run. */
  predicate Above(x: PayloadState, y: PayloadState) {
    x != ERROR && (y == ERROR || Level(x) < Level(y))
  }

  predicate Rises(states: seq<PayloadState>) {
    forall i, j :: 0 <= i < j < |states| ==> Above(states[i], states[j])
  }

  /** What is due at a state is not set after it in the same run. */
  lemma DueIsPast(c: PayloadState, states: seq<PayloadState>, e: PayloadState)
    requires Rises([c] + states) && Due(e, c)
    ensures e !in states
  {
    var all := [c] + states;
    forall i | 0 <= i < |states| ensures states[i] != e {
      assert all[i + 1] == states[i] && Above(all[0], all[i + 1]);
    }
  }

  lemma TailRises(x: PayloadState, y: PayloadState, states: seq<PayloadState>)
    requires Rises([x] + ([y] + states))
    ensures Rises([y] + states)
  {
    var all := [x] + ([y] + states);
    forall i, j | 0 <= i < j < |[y] + states| ensures Above(([y] + states)[i], ([y] + states)[j]) {
      assert ([y] + states)[i] == all[i + 1] && ([y] + states)[j] == all[j + 1];
    }
  }

  // ---------------------------------------------------------------- interleavings

  /** The states that are set, in order. */
  function Sets(ops: seq<Op>): seq<PayloadState> {
    if ops == [] then [] else (if ops[0].Set? then [ops[0].event] else []) + Sets(ops[1..])
  }

  predicate Adds(ops: seq<Op>, f: Listener) {
    exists i :: 0 <= i < |ops| && ops[i].Add? && ops[i].f == f
  }

  lemma AddsRest(ops: seq<Op>, f: Listener)
    requires ops != [] && !Adds(ops, f)
    ensures !Adds(ops[1..], f) && (ops[0].Add? ==> ops[0].f != f)
  {
    assert forall i :: 0 <= i < |ops[1..]| ==> ops[1..][i] == ops[i + 1];
  }

  function Calls(h: Hub, f: Listener): nat {
    multiset(h.calls)[f]
  }

  /** f listens to e once, behind the listeners `ahead`, and to nothing else. */
  ghost predicate Placed(h: Hub, e: PayloadState, ahead: seq<Listener>, f: Listener) {
    var fs := Listeners(h, e);
    && ahead + [f] <= fs && f !in ahead && f !in fs[|ahead| + 1..]
    && forall e': PayloadState :: e' != e ==> f !in Listeners(h, e')
  }

  ghost predicate Unknown(h: Hub, f: Listener) {
    Calls(h, f) == 0 && forall e: PayloadState :: f !in Listeners(h, e)
  }

  lemma {:induction false} NotCalled(fs: seq<Listener>, f: Listener, fails: Callbacks)
    requires f !in fs
    ensures f !in Called(fs, fails)
  {
    if fs != [] {
      NotCalled(fs[1..], f, fails);
    }
  }

  lemma SomeFailFirst(fs: seq<Listener>, fails: Callbacks)
    requires fs != []
    ensures SomeFail(fs, fails) <==> fails(fs[0]) || SomeFail(fs[1..], fails)
  {
    assert forall i | 0 <= i < |fs[1..]| :: fs[1..][i] == fs[i + 1];
    if i :| 0 <= i < |fs| && fails(fs[i]) && i > 0 {
      assert fs[1..][i - 1] == fs[i];
    }
  }

  lemma CountFirst(x: Listener, rest: seq<Listener>, f: Listener)
    ensures multiset([x] + rest)[f] == multiset(rest)[f] + if x == f then 1 else 0
  {
  }

  /** A listener is called when its state is set, unless one ahead of it raises. */
  lemma {:induction false} CalledBehind(fs: seq<Listener>, ahead: seq<Listener>, f: Listener, fails: Callbacks)
    requires ahead + [f] <= fs && f !in ahead && f !in fs[|ahead| + 1..]
    ensures multiset(Called(fs, fails))[f] == if SomeFail(ahead, fails) then 0 else 1
  {
    var later := if fails(fs[0]) then [] else Called(fs[1..], fails);
    CountFirst(fs[0], later, f);
    if ahead == [] {
      assert fs[0] == ([] + [f])[0] == f;
      NotCalled(fs[1..], f, fails);
    } else {
      var rest := ahead[1..];
      assert fs[0] == (ahead + [f])[0] == ahead[0] && (ahead + [f])[1..] == rest + [f] <= fs[1..];
      assert fs[1..][|rest| + 1..] == fs[|ahead| + 1..];
      CalledBehind(fs[1..], rest, f, fails);
      SomeFailFirst(ahead, fails);
    }
  }

  lemma CallsConcat(h: Hub, more: seq<Listener>, f: Listener)
    ensures multiset(h.calls + more)[f] == Calls(h, f) + multiset(more)[f]
  {
  }

  lemma ListenersNext(h: Hub, op: Op, e: PayloadState, fails: Callbacks)
    ensures Listeners(Do(h, op, fails), e) == Listeners(h, e) + if op.Add? && op.event == e then [op.f] else []
  {
  }

  /** An operation that does not add f leaves one that is unknown so. */
  lemma UnknownNext(h: Hub, op: Op, f: Listener, fails: Callbacks)
    requires Unknown(h, f) && (op.Add? ==> op.f != f)
    ensures Unknown(Do(h, op, fails), f)
  {
    if op.Set? {
      NotCalled(Listeners(h, op.event), f, fails);
      CallsConcat(h, Called(Listeners(h, op.event), fails), f);
    } else {
      CallsConcat(h, [op.f], f);
    }
    forall e: PayloadState ensures f !in Listeners(Do(h, op, fails), e) {
      ListenersNext(h, op, e, fails);
    }
  }

  /** Until it is added, a listener is not called. */
  lemma {:induction false} StaysUnknown(h: Hub, ops: seq<Op>, f: Listener, fails: Callbacks)
    requires Unknown(h, f) && !Adds(ops, f)
    ensures Unknown(DoAll(h, ops, fails), f)
    decreases ops
  {
    if ops != [] {
      AddsRest(ops, f);
      UnknownNext(h, ops[0], f, fails);
      StaysUnknown(Do(h, ops[0], fails), ops[1..], f, fails);
    }
  }

  lemma PlaceKept(h: Hub, op: Op, e: PayloadState, ahead: seq<Listener>, f: Listener, fails: Callbacks)
    requires Placed(h, e, ahead, f) && (op.Add? ==> op.f != f)
    ensures Placed(Do(h, op, fails), e, ahead, f)
  {
    forall e': PayloadState | e' != e ensures f !in Listeners(Do(h, op, fails), e') {
      ListenersNext(h, op, e', fails);
    }
    ListenersNext(h, op, e, fails);
  }

  /** An operation that does not add f leaves its place, and calls it when its state is set and none ahead raises. */
  lemma PlacedNext(h: Hub, op: Op, e: PayloadState, ahead: seq<Listener>, f: Listener, fails: Callbacks)
    requires Placed(h, e, ahead, f) && (op.Add? ==> op.f != f)
    ensures Placed(Do(h, op, fails), e, ahead, f)
    ensures Calls(Do(h, op, fails), f) == Calls(h, f) + if op == Set(e) && !SomeFail(ahead, fails) then 1 else 0
  {
    PlaceKept(h, op, e, ahead, f, fails);
    if op.Set? {
      CallsConcat(h, Called(Listeners(h, op.event), fails), f);
    } else {
      CallsConcat(h, [op.f], f);
    }
    if op == Set(e) {
      CalledBehind(Listeners(h, e), ahead, f, fails);
    } else if op.Set? {
      NotCalled(Listeners(h, op.event), f, fails);
    }
  }

  /** Once added, a listener is called again exactly when its state is set later in the run and none ahead raises. */
  lemma {:induction false} CalledWhenSet(h: Hub, ops: seq<Op>, e: PayloadState, ahead: seq<Listener>, f: Listener,
                                         fails: Callbacks)
    requires Placed(h, e, ahead, f) && !Adds(ops, f) && Rises([h.current] + Sets(ops))
    ensures Calls(DoAll(h, ops, fails), f) ==
            Calls(h, f) + if e in Sets(ops) && !SomeFail(ahead, fails) then 1 else 0
    decreases ops
  {
    if ops != [] {
      AddsRest(ops, f);
      PlacedNext(h, ops[0], e, ahead, f, fails);
      CurrentRises(h, ops, fails);
      if ops[0] == Set(e) {
        DueIsPast(e, Sets(ops[1..]), e);
      }
      CalledWhenSet(Do(h, ops[0], fails), ops[1..], e, ahead, f, fails);
    }
  }

  lemma CurrentRises(h: Hub, ops: seq<Op>, fails: Callbacks)
    requires ops != [] && Rises([h.current] + Sets(ops))
    ensures Rises([Do(h, ops[0], fails).current] + Sets(ops[1..]))
  {
    if ops[0].Set? {
      assert Sets(ops) == [ops[0].event] + Sets(ops[1..]);
      TailRises(h.current, ops[0].event, Sets(ops[1..]));
    } else {
      assert Sets(ops) == Sets(ops[1..]);
    }
  }

  /** After some of the states of a rising run, the rest rises from the current state. */
  lemma {:induction false} RestRises(h: Hub, ops: seq<Op>, fails: Callbacks, rest: seq<PayloadState>)
    requires Rises([h.current] + (Sets(ops) + rest))
    ensures Rises([DoAll(h, ops, fails).current] + rest)
    decreases ops
  {
    if ops == [] {
      assert Sets(ops) + rest == rest;
    } else {
      var later := Sets(ops[1..]) + rest;
      if ops[0].Set? {
        assert Sets(ops) + rest == [ops[0].event] + later;
        TailRises(h.current, ops[0].event, later);
      } else {
        assert Sets(ops) == Sets(ops[1..]);
      }
      RestRises(Do(h, ops[0], fails), ops[1..], fails, rest);
    }
  }

  lemma {:induction false} CurrentIsLast(h: Hub, ops: seq<Op>, fails: Callbacks)
    ensures var seen := [h.current] + Sets(ops); DoAll(h, ops, fails).current == seen[|seen| - 1]
    decreases ops
  {
    if ops != [] {
      CurrentIsLast(Do(h, ops[0], fails), ops[1..], fails);
    }
  }

  lemma Registers(h: Hub, e: PayloadState, f: Listener)
    requires Unknown(h, f)
    ensures Placed(Register(h, e, f), e, Listeners(h, e), f)
    ensures Calls(Register(h, e, f), f) == if Due(e, h.current) then 1 else 0
  {
    forall e': PayloadState | e' != e ensures f !in Listeners(Register(h, e, f), e') {
      ListenersNext(h, Add(e, f), e', g => false);
    }
    CallsConcat(h, [f], f);
  }

  /** For every interleaving of registrations with the states of one payload run, as far as the run got, a listener
      added after STARTED was set is called exactly once if its state is due at its registration, or is set later in
      that run and no listener added to that state before it raises, and not at all otherwise. */
  lemma ListenerFiresOnce(h: Hub, a: Answers, got: nat, before: seq<Op>, e: PayloadState, f: Listener, after: seq<Op>,
                          fails: Callbacks)
    requires h.current == STARTED && Unknown(h, f)
    requires !Adds(before, f) && !Adds(after, f)
    requires 1 <= got <= |RunStates(a)| && Sets(before) + Sets(after) == RunStates(a)[1..got]
    ensures var added := DoAll(h, before, fails);
            var seen := [STARTED] + Sets(before);
            var later := e in Sets(after) && !SomeFail(Listeners(added, e), fails);
            && added.current == seen[|seen| - 1]
            && Calls(DoAll(h, before + [Add(e, f)] + after, fails), f) ==
               if AtOnce(e, seen[|seen| - 1]) || later then 1 else 0
  {
    CurrentIsLast(h, before, fails);
    DueIsAtOnce(e, DoAll(h, before, fails).current);
    assert [STARTED] + RunStates(a)[1..got] == RunStates(a)[..got];
    StaysUnknown(h, before, f, fails);
    var h1 := DoAll(h, before, fails);
    RestRises(h, before, fails, Sets(after));
    var h2 := Register(h1, e, f);
    Registers(h1, e, f);
    CalledWhenSet(h2, after, e, Listeners(h1, e), f, fails);
    if Due(e, h1.current) {
      DueIsPast(h1.current, Sets(after), e);
    }
    DoAllConcat(h, before + [Add(e, f)], after, fails);
    DoAllConcat(h, before, [Add(e, f)], fails);
    DoOne(h1, Add(e, f), fails);
  }

  /** A listener of a state the run was in, or left behind, has been called by the time it is added, unless the run is
      in ERROR. */
  lemma SeenIsAtOnce(seen: seq<PayloadState>, e: PayloadState)
    requires seen != [] && Rises(seen) && e in seen && seen[|seen| - 1] != ERROR
    ensures AtOnce(e, seen[|seen| - 1])
  {
    var i :| 0 <= i < |seen| && seen[i] == e;
    var last := seen[|seen| - 1];
    if i < |seen| - 1 {
      assert Above(seen[i], seen[|seen| - 1]);
    }
    DueIsAtOnce(e, last);
  }

  lemma {:induction false} CalledOverRun(h: Hub, ops: seq<Op>, e: PayloadState, ahead: seq<Listener>, f: Listener,
                                         fails: Callbacks)
    requires Placed(h, e, ahead, f) && !Adds(ops, f) && Rises(Sets(ops))
    ensures Placed(DoAll(h, ops, fails), e, ahead, f)
    ensures Calls(DoAll(h, ops, fails), f) ==
            Calls(h, f) + if e in Sets(ops) && !SomeFail(ahead, fails) then 1 else 0
    decreases ops
  {
    if ops != [] {
      AddsRest(ops, f);
      PlacedNext(h, ops[0], e, ahead, f, fails);
      if ops[0].Set? {
        assert Sets(ops) == [ops[0].event] + Sets(ops[1..]);
        FirstIsOnce(ops[0].event, Sets(ops[1..]));
      } else {
        assert Sets(ops) == Sets(ops[1..]);
      }
      CalledOverRun(Do(h, ops[0], fails), ops[1..], e, ahead, f, fails);
    }
  }

  lemma FirstIsOnce(x: PayloadState, states: seq<PayloadState>)
    requires Rises([x] + states)
    ensures x !in states && Rises(states)
  {
    var all := [x] + states;
    forall i | 0 <= i < |states| ensures states[i] != x {
      assert all[i + 1] == states[i] && Above(all[0], all[i + 1]);
    }
    forall i, j | 0 <= i < j < |states| ensures Above(states[i], states[j]) {
      assert all[i + 1] == states[i] && all[j + 1] == states[j];
    }
  }

  /** A listener stays: in every later run, as far as it gets and whatever is registered meanwhile, it is called once
      more if its state is set and no listener ahead of it raises, and not at all otherwise. */
  lemma CalledInLaterRun(h: Hub, a: Answers, got: nat, ops: seq<Op>, e: PayloadState, ahead: seq<Listener>, f: Listener,
                         fails: Callbacks)
    requires Placed(h, e, ahead, f) && !Adds(ops, f) && got <= |RunStates(a)| && Sets(ops) == RunStates(a)[..got]
    ensures Placed(DoAll(h, ops, fails), e, ahead, f)
    ensures Calls(DoAll(h, ops, fails), f) ==
            Calls(h, f) + if e in RunStates(a)[..got] && !SomeFail(ahead, fails) then 1 else 0
  {
    CalledOverRun(h, ops, e, ahead, f, fails);
  }

  /** Which states a run with these answers is in: together with their order this says all about them. */
  lemma StatesOfRun(a: Answers)
    ensures var states := RunStates(a);
            var downloads := a.dnf && !(a.onlyOnChange && a.stillAvailable);
            && Rises(states)
            && STARTED in states && WAITING_STORAGE in states && WAITING_NETWORK in states
            && (VERIFYING_AVAILABILITY in states <==> a.dnf && a.onlyOnChange)
            && (DOWNLOADING_PKG_METADATA in states <==> downloads)
            && (DOWNLOADING_GROUP_METADATA in states <==> downloads && !a.baseRepoFails)
            && (ERROR in states <==> downloads && (a.baseRepoFails || !a.ready))
            && (FINISHED in states <==> ERROR !in states)
  {
  }
}
