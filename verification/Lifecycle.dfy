/** The controller of module initialization: it fires init_done once all modules were added and are done. The
    decision to fire is taken under a lock, the signal is emitted outside it. */
module Lifecycle {

  /** What the controller's lock protects. */
  datatype Control = Control(modules: set<string>, allAdded: bool, triggered: bool, added: nat)

  const NEW := Control({}, false, false, 0)

  /** What each call does under the lock; the flag tells whether the call emits the signal afterwards. */
  function Starting(c: Control, m: string): Control {
    if c.allAdded || m in c.modules then c else c.(modules := c.modules + {m}, added := c.added + 1)
  }

  function AllAdding(c: Control): (Control, bool) {
    if c.modules == {} && !c.triggered then (c.(allAdded := true, triggered := true), true)
    else (c.(allAdded := true), false)
  }

  function Finishing(c: Control, m: string): (Control, bool) {
    if c.triggered then (c, false)
    else
      var rest := c.modules - {m};
      if c.allAdded && rest == {} then (c.(modules := rest, triggered := true), true) else (c.(modules := rest), false)
  }

  class Controller {
    var modules: set<string>
    var allAdded: bool
    var triggered: bool
    var added: nat
    var emissions: nat // of the signal init_done

    function Value(): Control
      reads this
    {
      Control(modules, allAdded, triggered, added)
    }

    constructor ()
      ensures Value() == NEW && emissions == 0
    {
      modules, allAdded, triggered, added, emissions := {}, false, false, 0, 0;
    }

    /** module_init_start: a module is accepted unless all were added or it is already initializing. */
    method ModuleInitStart(m: string)
      modifies this
      ensures Value() == Starting(old(Value()), m) && emissions == old(emissions)
    {
      if allAdded {
        return;
      } else if m in modules {
        return;
      }
      added := added + 1;
      modules := modules + {m};
    }

    /** all_modules_added. */
    method AllModulesAdded()
      modifies this
      ensures Value() == AllAdding(old(Value())).0
      ensures emissions == old(emissions) + if AllAdding(old(Value())).1 then 1 else 0
    {
      var initDone := false;
      allAdded := true;
      if modules == {} && !triggered {
        triggered := true;
        initDone := true;
      }
      if initDone {
        TriggerInitDone();
      }
    }

    /** module_init_done. */
    method ModuleInitDone(m: string)
      modifies this
      ensures Value() == Finishing(old(Value()), m).0
      ensures emissions == old(emissions) + if Finishing(old(Value()), m).1 then 1 else 0
    {
      var initDone := false;
      if !triggered {
        assert m !in modules ==> modules - {m} == modules;
        if m in modules {
          modules := modules - {m};
        }
        if allAdded && modules == {} {
          initDone := true;
          triggered := true;
        }
      }
      if initDone {
        TriggerInitDone();
      }
    }

    method TriggerInitDone()
      modifies this`emissions
      ensures emissions == old(emissions) + 1
    {
      emissions := emissions + 1;
    }
  }

  // ---------------------------------------------------------------- the protocol

  /** What can happen, in any order: the lock-held part of a call, or the emission by a call that decided to fire. */
  datatype Event = Start(m: string) | AllAdded | Done(m: string) | Emit

  /** deciding: the calls that decided to fire and have not emitted yet. */
  datatype State = State(control: Control, deciding: nat, history: seq<Event>)

  const INITIAL := State(NEW, 0, [])

  predicate Enabled(s: State, e: Event) {
    e == Emit ==> s.deciding > 0
  }

  function Decided(c: (Control, bool), s: State): State {
    s.(control := c.0, deciding := if c.1 then s.deciding + 1 else s.deciding)
  }

  function Next(s: State, e: Event): State
    requires Enabled(s, e)
  {
    var s' := s.(history := s.history + [e]);
    match e
    case Start(m) => s'.(control := Starting(s.control, m))
    case AllAdded => Decided(AllAdding(s.control), s')
    case Done(m) => Decided(Finishing(s.control, m), s')
    case Emit => s'.(deciding := s.deciding - 1)
  }

  predicate CanRun(s: State, events: seq<Event>)
    decreases events
  {
    events == [] || (Enabled(s, events[0]) && CanRun(Next(s, events[0]), events[1..]))
  }

  function Run(s: State, events: seq<Event>): State
    requires CanRun(s, events)
    decreases events
  {
    if events == [] then s else Run(Next(s, events[0]), events[1..])
  }

  // ---------------------------------------------------------------- what the history says

  /** The module started at i, before all modules were added, and was not reported done since. */
  ghost predicate OutstandingSince(h: seq<Event>, m: string, i: nat) {
    i < |h| && h[i] == Start(m) && AllAdded !in h[..i] && Done(m) !in h[i..]
  }

  ghost predicate Outstanding(h: seq<Event>, m: string) {
    exists i: nat :: OutstandingSince(h, m, i)
  }

  /** All modules were added, and every accepted start was reported done. */
  ghost predicate Ready(h: seq<Event>) {
    AllAdded in h && forall m {:trigger Outstanding(h, m)} :: !Outstanding(h, m)
  }

  /** How many starts were accepted: those before all modules were added, of modules that are not under way. */
  ghost function Accepted(h: seq<Event>): nat {
    if h == [] then 0
    else
      var before, last := h[..|h| - 1], h[|h| - 1];
      Accepted(before) + if last.Start? && AllAdded !in before && !Outstanding(before, last.m) then 1 else 0
  }

  function Emissions(h: seq<Event>): nat {
    if h == [] then 0 else Emissions(h[..|h| - 1]) + if h[|h| - 1] == Emit then 1 else 0
  }

  lemma OutstandingNext(h: seq<Event>, e: Event, m: string)
    ensures Outstanding(h + [e], m) <==> (e == Start(m) && AllAdded !in h) || (Outstanding(h, m) && e != Done(m))
  {
    var h' := h + [e];
    if Outstanding(h', m) {
      var i: nat :| OutstandingSince(h', m, i);
      if i < |h| {
        assert h'[..i] == h[..i];
        assert h'[i..] == h[i..] + [e];
        assert OutstandingSince(h, m, i);
      } else {
        assert h'[..i] == h;
      }
    }
    if Outstanding(h, m) && e != Done(m) {
      var i: nat :| OutstandingSince(h, m, i);
      assert h'[..i] == h[..i] && h'[i..] == h[i..] + [e];
      assert OutstandingSince(h', m, i);
    }
    if e == Start(m) && AllAdded !in h {
      assert h'[..|h|] == h && h'[|h|..] == [e];
      assert OutstandingSince(h', m, |h|);
    }
  }

  // ---------------------------------------------------------------- what every event keeps

  ghost predicate Inv(s: State) {
    && (s.control.triggered <==> s.control.allAdded && s.control.modules == {})
    && s.deciding + Emissions(s.history) == (if s.control.triggered then 1 else 0)
    && (s.control.allAdded <==> AllAdded in s.history)
    && s.control.added == Accepted(s.history)
    && (forall m {:trigger Outstanding(s.history, m)} :: m in s.control.modules <==> Outstanding(s.history, m))
    && (forall j {:trigger s.history[j]} :: 0 <= j < |s.history| && s.history[j] == Emit ==> Ready(s.history[..j]))
  }

  lemma EmissionsNext(h: seq<Event>, e: Event)
    ensures Emissions(h + [e]) == Emissions(h) + if e == Emit then 1 else 0
  {
    assert (h + [e])[..|h|] == h;
  }

  lemma ModulesNext(s: State, e: Event, m: string)
    requires Inv(s) && Enabled(s, e)
    ensures m in Next(s, e).control.modules <==> Outstanding(Next(s, e).history, m)
  {
    OutstandingNext(s.history, e, m);
    assert m in s.control.modules <==> Outstanding(s.history, m);
  }

  lemma EmitIsReady(s: State, e: Event, j: nat)
    requires Inv(s) && Enabled(s, e) && j <= |s.history| && (s.history + [e])[j] == Emit
    ensures Ready((s.history + [e])[..j])
  {
    assert (s.history + [e])[..j] == s.history[..j];
    if j < |s.history| {
      assert s.history[j] == Emit;
    } else {
      assert s.history[..j] == s.history;
      assert s.control.triggered;
    }
  }

  /** The controller has fired once it is ready, and each time it decided to there is one emission, done or owed. */
  lemma ControlNext(s: State, e: Event)
    requires Inv(s) && Enabled(s, e)
    ensures var s' := Next(s, e);
            && (s'.control.triggered <==> s'.control.allAdded && s'.control.modules == {})
            && s'.deciding + Emissions(s'.history) == if s'.control.triggered then 1 else 0
  {
    EmissionsNext(s.history, e);
    match e
    case Start(m) => StartNext(s, m);
    case AllAdded => AllAddedNext(s);
    case Done(m) => DoneNext(s, m);
    case Emit =>
  }

  lemma StartNext(s: State, m: string)
    requires Inv(s)
    ensures var c := Starting(s.control, m);
            c.triggered == s.control.triggered && (c.triggered <==> c.allAdded && c.modules == {})
  {
  }

  lemma AllAddedNext(s: State)
    requires Inv(s)
    ensures var (c, fires) := AllAdding(s.control);
            (c.triggered <==> c.allAdded && c.modules == {}) && fires == (c.triggered && !s.control.triggered) &&
            (s.control.triggered ==> c.triggered)
  {
  }

  lemma DoneNext(s: State, m: string)
    requires Inv(s)
    ensures var (c, fires) := Finishing(s.control, m);
            (c.triggered <==> c.allAdded && c.modules == {}) && fires == (c.triggered && !s.control.triggered) &&
            (s.control.triggered ==> c.triggered)
  {
  }

  lemma AddedNext(s: State, e: Event)
    requires Inv(s) && Enabled(s, e)
    ensures Next(s, e).control.allAdded <==> AllAdded in Next(s, e).history
    ensures Next(s, e).control.added == Accepted(Next(s, e).history)
  {
    assert (s.history + [e])[..|s.history|] == s.history;
    assert e.Start? ==> (e.m in s.control.modules <==> Outstanding(s.history, e.m));
  }

  lemma NextKeepsInv(s: State, e: Event)
    requires Inv(s) && Enabled(s, e)
    ensures Inv(Next(s, e))
  {
    var s' := Next(s, e);
    ControlNext(s, e);
    AddedNext(s, e);
    forall m ensures m in s'.control.modules <==> Outstanding(s'.history, m) {
      ModulesNext(s, e, m);
    }
    forall j | 0 <= j < |s'.history| && s'.history[j] == Emit ensures Ready(s'.history[..j]) {
      EmitIsReady(s, e, j);
    }
  }

  lemma {:induction false} RunKeepsInv(s: State, events: seq<Event>)
    requires Inv(s) && CanRun(s, events)
    ensures Inv(Run(s, events))
    ensures Run(s, events).history == s.history + events
    decreases events
  {
    if events == [] {
      assert s.history + events == s.history;
    } else {
      NextKeepsInv(s, events[0]);
      RunKeepsInv(Next(s, events[0]), events[1..]);
      assert s.history + [events[0]] + events[1..] == s.history + events;
    }
  }

  lemma InitialInv()
    ensures Inv(INITIAL)
  {
    assert forall m :: !OutstandingSince([], m, 0);
  }

  // ---------------------------------------------------------------- whole runs

  lemma {:induction false} NoEmission(h: seq<Event>)
    ensures Emissions(h) == 0 <==> Emit !in h
  {
    if h != [] {
      NoEmission(h[..|h| - 1]);
      assert h == h[..|h| - 1] + [h[|h| - 1]];
    }
  }

  /** In every interleaving, init_done is emitted at most once, and never before all modules were added and every
      accepted start was reported done. */
  lemma EmittedWhenReady(events: seq<Event>)
    requires CanRun(INITIAL, events)
    ensures Emissions(events) <= 1
    ensures forall j {:trigger events[j]} :: 0 <= j < |events| && events[j] == Emit ==> Ready(events[..j])
  {
    InitialInv();
    RunKeepsInv(INITIAL, events);
    assert [] + events == events;
  }

  /** Once every call has returned, init_done was emitted exactly if all modules were added and are done. */
  lemma EmittedIffReady(events: seq<Event>)
    requires CanRun(INITIAL, events) && Run(INITIAL, events).deciding == 0
    ensures Emit in events <==> Ready(events)
    ensures Emissions(events) == if Ready(events) then 1 else 0
  {
    InitialInv();
    RunKeepsInv(INITIAL, events);
    assert [] + events == events;
    NoEmission(events);
    var s := Run(INITIAL, events);
    assert Ready(events) <==> s.control.allAdded && s.control.modules == {} by {
      if s.control.modules != {} {
        var m :| m in s.control.modules;
        assert Outstanding(events, m);
      }
    }
  }

  /** What the controller remembers, in terms of the history alone. */
  lemma ControlOfHistory(events: seq<Event>)
    requires CanRun(INITIAL, events)
    ensures var c := Run(INITIAL, events).control;
            && (c.triggered <==> Ready(events))
            && (c.triggered <==> c.allAdded && c.modules == {})
            && (forall m :: m in c.modules <==> Outstanding(events, m))
            && (c.allAdded <==> AllAdded in events) && c.added == Accepted(events)
  {
    InitialInv();
    RunKeepsInv(INITIAL, events);
    assert [] + events == events;
    var c := Run(INITIAL, events).control;
    if c.modules != {} {
      var m :| m in c.modules;
      assert Outstanding(events, m);
    }
  }
}
