/** What the signals of a task tree tell during a run: every queue hears exactly the tasks and queues below it that
    the run reached, in order. */
module TaskRuns {
  import opened Prelude
  import opened TaskTree
  import opened RunOrder
  import opened TaskWalks

  // ---------------------------------------------------------------- listening to a run

  /** Whether an event is of sort s as heard at the queue a; a call of run_task is heard anywhere. */
  predicate IsHeard(e: Event, a: Path, s: Sort) {
    match s
    case TaskRun => e.Run?
    case TaskStart => e.Emit? && e.at == a && e.kind == TaskStarted
    case TaskEnd => e.Emit? && e.at == a && e.kind == TaskCompleted
    case QueueStart => e.Emit? && e.at == a && e.kind == QueueStarted
    case QueueEnd => e.Emit? && e.at == a && e.kind == QueueCompleted
  }

  /** The items the queue at a hears of, in order. */
  function Heard(events: seq<Event>, a: Path, s: Sort): seq<Path> {
    if events == [] then []
    else (if IsHeard(events[0], a, s) then [events[0].item] else []) + Heard(events[1..], a, s)
  }

  lemma {:induction false} HeardConcat(x: seq<Event>, y: seq<Event>, a: Path, s: Sort)
    ensures Heard(x + y, a, s) == Heard(x, a, s) + Heard(y, a, s)
  {
    if x == [] {
      assert x + y == y;
    } else {
      assert (x + y)[1..] == x[1..] + y;
      HeardConcat(x[1..], y, a, s);
    }
  }

  lemma HeardOne(e: Event, a: Path, s: Sort)
    ensures Heard([e], a, s) == if IsHeard(e, a, s) then [e.item] else []
  {
  }

  /** Every queue from `at` up hears a nested emission once, and no other place does. */
  lemma {:induction false} HeardClimb(kind: Kind, at: Path, item: Path, a: Path, s: Sort)
    requires !Own(kind)
    ensures Heard(Cascade(kind, true, at, item), a, s) == if a <= at && s == SortOf(kind, true) then [item] else []
    decreases |at|
  {
    HeardOne(Emit(kind, at, item), a, s);
    if at == [] {
      assert Cascade(kind, true, at, item) == [Emit(kind, at, item)];
    } else {
      HeardClimb(kind, Front(at), item, a, s);
      HeardConcat([Emit(kind, at, item)], Cascade(kind, true, Front(at), item), a, s);
      AtOrAbove(a, at);
      assert !(at <= Front(at));
    }
  }

  lemma HeardCascade(kind: Kind, queue: bool, p: Path, a: Path, s: Sort)
    requires Own(kind)
    ensures Heard(Cascade(kind, queue, p, p), a, s) == if a < p && s == SortOf(kind, queue) then [p] else []
  {
    var e := Emit(kind, p, p);
    if p == [] {
      assert Cascade(kind, queue, p, p) == [e];
    } else {
      HeardClimb(Lift(kind, queue), Front(p), p, a, s);
      HeardConcat([e], Cascade(Lift(kind, queue), true, Front(p), p), a, s);
      AtOrAbove(a, p);
      assert !(p <= Front(p));
    }
  }

  // ---------------------------------------------------------------- what a run reaches

  predicate OfTasks(s: Sort) {
    s.TaskStart? || s.TaskRun? || s.TaskEnd?
  }

  /** The tasks, or the queues, at or below the item at p, in the order in which a complete run tells of them. */
  function ItemsOf(t: Tree, p: Path, s: Sort): seq<Path> {
    if OfTasks(s) then TaskPaths(t, p) else QueuePaths(t, p, s.QueueEnd?)
  }

  function ItemsFrom(items: seq<Tree>, p: Path, i: nat, s: Sort): seq<Path>
    requires i <= |items|
  {
    if OfTasks(s) then TaskPathsFrom(items, p, i) else QueuePathsFrom(items, p, i, s.QueueEnd?)
  }

  /** The tasks, or the queues, below the queue t at p. */
  function Below(t: Tree, p: Path, s: Sort): seq<Path>
    requires t.Queue?
  {
    ItemsFrom(t.items, p, 0, s)
  }

  function Kept(paths: seq<Path>, halt: Option<Path>, a: Path, s: Sort): seq<Path> {
    if paths == [] then []
    else (if Reaches(paths[0], halt, a, s) then [paths[0]] else []) + Kept(paths[1..], halt, a, s)
  }

  lemma {:induction false} KeptConcat(x: seq<Path>, y: seq<Path>, halt: Option<Path>, a: Path, s: Sort)
    ensures Kept(x + y, halt, a, s) == Kept(x, halt, a, s) + Kept(y, halt, a, s)
  {
    if x == [] {
      assert x + y == y;
    } else {
      assert (x + y)[1..] == x[1..] + y;
      KeptConcat(x[1..], y, halt, a, s);
    }
  }

  lemma {:induction false} KeptAll(paths: seq<Path>, halt: Option<Path>, a: Path, s: Sort)
    requires forall q :: q in paths ==> Reaches(q, halt, a, s)
    ensures Kept(paths, halt, a, s) == paths
  {
    if paths != [] {
      assert forall q :: q in paths[1..] ==> q in paths;
      KeptAll(paths[1..], halt, a, s);
    }
  }

  lemma {:induction false} KeptNone(paths: seq<Path>, halt: Option<Path>, a: Path, s: Sort)
    requires forall q :: q in paths ==> !Reaches(q, halt, a, s)
    ensures Kept(paths, halt, a, s) == []
  {
    if paths != [] {
      assert forall q :: q in paths[1..] ==> q in paths;
      KeptNone(paths[1..], halt, a, s);
    }
  }

  lemma KeptOne(p: Path, halt: Option<Path>, a: Path, s: Sort)
    ensures Kept([p], halt, a, s) == if Reaches(p, halt, a, s) then [p] else []
  {
  }

  /** Except for the start of a queue, it does not matter who listens. */
  lemma {:induction false} KeptAnywhere(paths: seq<Path>, halt: Option<Path>, a: Path, b: Path, s: Sort)
    requires !s.QueueStart?
    ensures Kept(paths, halt, a, s) == Kept(paths, halt, b, s)
  {
    if paths != [] {
      KeptAnywhere(paths[1..], halt, a, b, s);
    }
  }

  // ---------------------------------------------------------------- one signal at a time

  /** The items of the notes of one sort. */
  function Only(notes: seq<Note>, s: Sort): seq<Path> {
    if notes == [] then [] else (if notes[0].sort == s then [notes[0].item] else []) + Only(notes[1..], s)
  }

  lemma {:induction false} OnlyConcat(x: seq<Note>, y: seq<Note>, s: Sort)
    ensures Only(x + y, s) == Only(x, s) + Only(y, s)
  {
    if x == [] {
      assert x + y == y;
    } else {
      assert (x + y)[1..] == x[1..] + y;
      OnlyConcat(x[1..], y, s);
    }
  }

  lemma OnlyOne(n: Note, s: Sort)
    ensures Only([n], s) == if n.sort == s then [n.item] else []
  {
  }

  /** What is called is below a. */
  ghost predicate CallsBelow(events: seq<Event>, a: Path) {
    forall e :: e in events && e.Run? ==> a < e.item
  }

  lemma NoteHeard(e: Event, a: Path, s: Sort)
    requires s.TaskRun? && e.Run? ==> a < e.item
    ensures Only(NoteOf(e, a), s) == if IsHeard(e, a, s) then [e.item] else []
  {
  }

  lemma {:induction false} HeardNotes(events: seq<Event>, a: Path, s: Sort)
    requires s.TaskRun? ==> CallsBelow(events, a)
    ensures Heard(events, a, s) == Only(Notes(events, a), s)
  {
    if events != [] {
      var rest := events[1..];
      assert events[0] in events && forall e :: e in rest ==> e in events;
      HeardNotes(rest, a, s);
      NoteHeard(events[0], a, s);
      OnlyConcat(NoteOf(events[0], a), Notes(rest, a), s);
    }
  }

  lemma {:induction false} OnlyGot(notes: seq<Note>, halt: Option<Path>, a: Path, s: Sort)
    ensures Only(Got(notes, halt, a), s) == Kept(Only(notes, s), halt, a, s)
  {
    if notes != [] {
      OnlyGot(notes[1..], halt, a, s);
      var first := if Reaches(notes[0].item, halt, a, notes[0].sort) then [notes[0]] else [];
      OnlyConcat(first, Got(notes[1..], halt, a), s);
      var one := if notes[0].sort == s then [notes[0].item] else [];
      KeptConcat(one, Only(notes[1..], s), halt, a, s);
    }
  }

  lemma {:induction false} OnlyWalk(t: Tree, p: Path, s: Sort)
    ensures Only(Walk(t, p), s) == ItemsOf(t, p, s)
    decreases t, 0
  {
    match t
    case Task(_, _) =>
      assert Walk(t, p) == [Note(TaskStart, p)] + ([Note(TaskRun, p)] + [Note(TaskEnd, p)]);
      OnlyConcat([Note(TaskStart, p)], [Note(TaskRun, p)] + [Note(TaskEnd, p)], s);
      OnlyConcat([Note(TaskRun, p)], [Note(TaskEnd, p)], s);
    case Queue(_, items) =>
      OnlyWalkFrom(t, p, 0, s);
      OnlyConcat([Note(QueueStart, p)] + WalkFrom(items, p, 0), [Note(QueueEnd, p)], s);
      OnlyConcat([Note(QueueStart, p)], WalkFrom(items, p, 0), s);
  }

  lemma {:induction false} OnlyWalkFrom(t: Tree, p: Path, i: nat, s: Sort)
    requires t.Queue? && i <= |t.items|
    ensures Only(WalkFrom(t.items, p, i), s) == ItemsFrom(t.items, p, i, s)
    decreases t, 0, |t.items| - i
  {
    if i < |t.items| {
      OnlyWalk(t.items[i], p + [i], s);
      OnlyWalkFrom(t, p, i + 1, s);
      OnlyConcat(Walk(t.items[i], p + [i]), WalkFrom(t.items, p, i + 1), s);
    }
  }

  /** Every queue around the item at p, in any tree, hears exactly what is reached of it. */
  lemma Hears(t: Tree, p: Path, counted: bool, a: Path, s: Sort)
    requires a < p
    ensures Heard(Trace(t, p, counted), a, s) == Kept(ItemsOf(t, p, s), At(p, Halt(t, counted)), a, s)
  {
    var events := Trace(t, p, counted);
    forall e | e in events && e.Run? ensures a < e.item {
      RunsAreTrue(t, p, counted, e);
    }
    HeardNotes(events, a, s);
    NotesAround(t, p, counted, a);
    OnlyGot(Walk(t, p), At(p, Halt(t, counted)), a, s);
    OnlyWalk(t, p, s);
  }

  /** For every tree, every queue in it and every run, complete or cut short: the queue hears each item below it that
      the run reached, once and in order, and nothing else. */
  lemma EveryQueueHears(t: Tree, b: Path, s: Sort)
    requires Has(t, b) && Sub(t, b).Queue? && !s.TaskRun?
    ensures Heard(Trace(t, [], true), b, s) == Kept(Below(Sub(t, b), b, s), Halt(t, true), b, s)
  {
    HeardNotes(Trace(t, [], true), b, s);
    EveryQueueWalks(t, b);
    OnlyGot(WalkBelow(Sub(t, b), b), Halt(t, true), b, s);
    OnlyWalkFrom(Sub(t, b), b, 0, s);
  }

  /** And run_task is called for each task that the run reached, once and in order. */
  lemma CallsReached(t: Tree)
    ensures Heard(Trace(t, [], true), [], TaskRun) == Kept(TaskPaths(t, []), Halt(t, true), [], TaskRun)
  {
    var events := Trace(t, [], true);
    if t.Task? {
      TaskCalled(t);
    } else {
      forall e | e in events && e.Run? ensures [] < e.item {
        RunsAreTrue(t, [], true, e);
        assert e.item[0..] == e.item;
      }
      HeardNotes(events, [], TaskRun);
      EveryQueueWalks(t, []);
      OnlyGot(WalkBelow(t, []), Halt(t, true), [], TaskRun);
      OnlyWalkFrom(t, [], 0, TaskRun);
    }
  }

  lemma TaskCalled(t: Tree)
    requires t.Task?
    ensures Heard(Trace(t, [], true), [], TaskRun) == Kept([[]], Halt(t, true), [], TaskRun) == [[]]
  {
    var first := Cascade(Started, false, [], []);
    var last := if TaskRaises(t.work) then [] else Cascade(Completed, false, [], []);
    var call := [Run([], t.work != NotSet)];
    HeardConcat(first + call, last, [], TaskRun);
    HeardConcat(first, call, [], TaskRun);
    HeardCascade(Started, false, [], [], TaskRun);
    HeardCascade(Completed, false, [], [], TaskRun);
    HeardOne(call[0], [], TaskRun);
    KeptOne([], Halt(t, true), [], TaskRun);
  }

  // ---------------------------------------------------------------- the callables that are called

  /** The tasks whose callable was called, in order. */
  function Called(events: seq<Event>): seq<Path> {
    if events == [] then []
    else (if events[0].Run? && events[0].called then [events[0].item] else []) + Called(events[1..])
  }

  /** Those of these tasks that have a callable. */
  function WithCallable(t: Tree, paths: seq<Path>): seq<Path> {
    if paths == [] then []
    else (if HasCallable(t, paths[0]) then [paths[0]] else []) + WithCallable(t, paths[1..])
  }

  predicate HasCallable(t: Tree, q: Path) {
    IsTask(t, q) && Sub(t, q).work != NotSet
  }

  /** The event says truly whether run_task of a task of t at p calls a callable. */
  predicate TrueRun(t: Tree, p: Path, e: Event) {
    e.Run? ==> p <= e.item && IsTask(t, e.item[|p|..]) && (e.called <==> HasCallable(t, e.item[|p|..]))
  }

  lemma {:induction false} CascadeEmits(kind: Kind, queue: bool, at: Path, item: Path, e: Event)
    requires e in Cascade(kind, queue, at, item)
    ensures e.Emit?
    decreases |at|
  {
    if e != Emit(kind, at, item) {
      CascadeEmits(Lift(kind, queue), true, Front(at), item, e);
    }
  }

  lemma {:induction false} RunsAreTrue(t: Tree, p: Path, counted: bool, e: Event)
    requires e in Trace(t, p, counted)
    ensures TrueRun(t, p, e)
    decreases t, 0
  {
    if e in Cascade(Started, t.Queue?, p, p) {
      CascadeEmits(Started, t.Queue?, p, p, e);
    } else if e in Cascade(Completed, t.Queue?, p, p) {
      CascadeEmits(Completed, t.Queue?, p, p, e);
    } else if t.Task? {
      assert e == Run(p, t.work != NotSet);
      assert p[|p|..] == [];
    } else if e.Run? {
      RunsFromAreTrue(t, p, 0, TasksIn(t.items) > 0, e);
    }
  }

  lemma {:induction false} RunsFromAreTrue(t: Tree, p: Path, i: nat, counted: bool, e: Event)
    requires t.Queue? && i <= |t.items| && e in TraceFrom(t.items, p, i, counted)
    ensures TrueRun(t, p, e)
    decreases t, 0, |t.items| - i
  {
    if e in Trace(t.items[i], p + [i], counted) {
      RunsAreTrue(t.items[i], p + [i], counted, e);
      if e.Run? {
        assert e.item[|p|..][1..] == e.item[|p| + 1..];
      }
    } else {
      RunsFromAreTrue(t, p, i + 1, counted, e);
    }
  }

  lemma {:induction false} CalledOfEvents(t: Tree, events: seq<Event>)
    requires forall e :: e in events ==> TrueRun(t, [], e)
    ensures Called(events) == WithCallable(t, Heard(events, [], TaskRun))
  {
    if events != [] {
      var e, rest := events[0], events[1..];
      assert forall e' :: e' in rest ==> e' in events;
      CalledOfEvents(t, rest);
      assert e in events && TrueRun(t, [], e);
      if e.Run? {
        assert e.item[0..] == e.item;
        WithCallableFirst(t, e.item, Heard(rest, [], TaskRun));
      } else {
        NotARun(events);
      }
    }
  }

  lemma NotARun(events: seq<Event>)
    requires events != [] && events[0].Emit?
    ensures Called(events) == Called(events[1..])
    ensures Heard(events, [], TaskRun) == Heard(events[1..], [], TaskRun)
  {
  }

  lemma WithCallableFirst(t: Tree, q: Path, rest: seq<Path>)
    ensures WithCallable(t, [q] + rest) == (if HasCallable(t, q) then [q] else []) + WithCallable(t, rest)
  {
    assert ([q] + rest)[1..] == rest;
  }

  /** Of the tasks that are run, in order, exactly those with a callable have it called. */
  lemma CallsCallables(t: Tree)
    ensures Called(Trace(t, [], true)) == WithCallable(t, Heard(Trace(t, [], true), [], TaskRun))
  {
    var events := Trace(t, [], true);
    forall e | e in events ensures TrueRun(t, [], e) {
      RunsAreTrue(t, [], true, e);
    }
    CalledOfEvents(t, events);
  }

  // ---------------------------------------------------------------- where a run stops

  /** The task at q has a callable that fails, and the error handler decides to raise. */
  predicate Raises(t: Tree, q: Path) {
    IsTask(t, q) && Sub(t, q).work == Fails(ErrorRaise)
  }

  /** The item at q cannot be got past: a task that raises, or a queue in a queue that has no task. */
  predicate Stops(t: Tree, counted: bool, q: Path) {
    Raises(t, q) || (IsQueue(t, q) && if q == [] then !counted else TasksOf(t, Front(q)) == 0)
  }

  /** The tasks of the item at q, if there is one. */
  function TasksOf(t: Tree, q: Path): nat {
    if Has(t, q) then Tasks(Sub(t, q)) else 0
  }

  lemma StopsInItem(t: Tree, counted: bool, i: nat, q: Path)
    requires t.Queue?
    ensures Stops(t, counted, [i] + q) <==> i < |t.items| && Stops(t.items[i], TasksIn(t.items) > 0, q)
  {
    assert ([i] + q)[1..] == q;
    if q == [] {
      assert Front([i]) == [];
    } else {
      assert Front([i] + q) == [i] + Front(q) && ([i] + Front(q))[1..] == Front(q);
    }
  }

  /** A run stops at the first item in run order that cannot be got past, and completes if there is none. */
  lemma {:induction false} FirstToStop(t: Tree, counted: bool)
    ensures match Halt(t, counted)
            case None => forall q :: !Stops(t, counted, q)
            case Some(h) => Stops(t, counted, h) && forall q :: Earlier(q, h) || q < h ==> !Stops(t, counted, q)
    decreases t, 0
  {
    if t.Task? {
      assert Stops(t, counted, []) <==> TaskRaises(t.work);
    } else if counted {
      FirstToStopFrom(t, 0);
      forall q: Path | q != [] ensures q == [q[0]] + q[1..] {
      }
    }
  }

  lemma {:induction false} FirstToStopFrom(t: Tree, i: nat)
    requires t.Queue? && i <= |t.items|
    ensures match HaltFrom(t.items, i, TasksIn(t.items) > 0)
            case None => forall q :: q != [] && q[0] >= i ==> !Stops(t, true, q)
            case Some(h) =>
              && Stops(t, true, h)
              && forall q :: q != [] && q[0] >= i && (Earlier(q, h) || q < h) ==> !Stops(t, true, q)
    decreases t, 0, |t.items| - i
  {
    if i < |t.items| {
      var counted := TasksIn(t.items) > 0;
      FirstToStop(t.items[i], counted);
      if Halt(t.items[i], counted) == None {
        FirstToStopFrom(t, i + 1);
        forall q | q != [] && q[0] == i ensures !Stops(t, true, q) {
          assert q == [i] + q[1..];
          StopsInItem(t, true, i, q[1..]);
        }
      } else {
        var h := Halt(t.items[i], counted).value;
        StopsInItem(t, true, i, h);
        assert ([i] + h)[1..] == h;
        forall q | q != [] && q[0] >= i && (Earlier(q, [i] + h) || q < [i] + h) ensures !Stops(t, true, q) {
          assert q == [i] + q[1..] && (q < [i] + h ==> q[1..] < h);
          StopsInItem(t, true, i, q[1..]);
        }
      }
    } else {
      forall q | q != [] && q[0] >= i ensures !Stops(t, true, q) {
      }
    }
  }

  // ---------------------------------------------------------------- runs that complete

  /** Every queue that holds a nested queue has a task below it. */
  predicate Countable(t: Tree) {
    t.Queue? ==>
      (QueuesIn(t.items) > 0 ==> TasksIn(t.items) > 0) && forall i | 0 <= i < |t.items| :: Countable(t.items[i])
  }

  /** A run completes exactly when every queue can count its queues and no task raises. */
  lemma {:induction false} CompletesIff(t: Tree)
    ensures Halt(t, true) == None <==> Countable(t) && forall q :: !Raises(t, q)
    decreases t, 0
  {
    match t
    case Task(_, work) =>
      assert Raises(t, []) <==> TaskRaises(work);
    case Queue(_, items) =>
      CompletesFrom(t, 0);
      NestedQueue(items);
      forall j: nat, q | j < |items| ensures Raises(t, [j] + q) <==> Raises(items[j], q) {
        assert ([j] + q)[1..] == q;
      }
      if Halt(t, true) == None {
        forall q ensures !Raises(t, q) {
          if q != [] {
            assert [q[0]] + q[1..] == q;
          }
        }
      } else {
        var j: nat :| j < |items| && !((items[j].Queue? ==> TasksIn(items) > 0) && Countable(items[j]) &&
                                       forall q :: !Raises(items[j], q));
        if q :| Raises(items[j], q) {
          assert Raises(t, [j] + q);
        }
      }
  }

  ghost predicate HasTaskBelow(t: Tree, q: Path) {
    exists s :: q < s && IsTask(t, s)
  }

  lemma TasksBelow(t: Tree, q: Path)
    requires IsQueue(t, q)
    ensures TasksOf(t, q) > 0 <==> HasTaskBelow(t, q)
  {
    var paths := TaskPaths(Sub(t, q), q);
    TaskPathsComplete(Sub(t, q), q);
    if TasksOf(t, q) > 0 {
      var s := paths[0];
      assert s in paths;
      assert q + s[|q|..] == s;
      SubSub(t, q, s[|q|..]);
      assert IsTask(t, s) && q < s;
    }
    if s :| q < s && IsTask(t, s) {
      assert q + s[|q|..] == s;
      SubSub(t, q, s[|q|..]);
      assert IsTask(Sub(t, q), s[|q|..]) && q <= s;
      assert s in paths && |paths| > 0;
    }
  }

  /** A run completes exactly when no task's failure is raised again and every queue that holds a queue, at any depth,
      holds a task as well. */
  lemma CompletesExactly(t: Tree)
    ensures Halt(t, true) == None <==>
            (forall q :: IsTask(t, q) ==> Sub(t, q).work != Fails(ErrorRaise)) &&
            (forall q, r :: q < r && IsQueue(t, r) ==> HasTaskBelow(t, q))
  {
    FirstToStop(t, true);
    if Halt(t, true) == None {
      forall q | IsTask(t, q) ensures Sub(t, q).work != Fails(ErrorRaise) {
        assert !Stops(t, true, q);
      }
      forall q, r | q < r && IsQueue(t, r) ensures HasTaskBelow(t, q) {
        HoldsTask(t, q, r);
      }
    } else {
      var h := Halt(t, true).value;
      if IsQueue(t, h) {
        SubFront(t, h);
        TasksBelow(t, Front(h));
        assert Front(h) < h;
      }
    }
  }

  lemma HoldsTask(t: Tree, q: Path, r: Path)
    requires Halt(t, true) == None && q < r && IsQueue(t, r)
    ensures HasTaskBelow(t, q)
  {
    FirstToStop(t, true);
    var next := q + [r[|q|]];
    HasPrefix(t, next, r);
    SubChild(t, q, r[|q|]);
    assert Front(next) == q;
    if next != r {
      HasPrefix(t, next + [r[|next|]], r);
      SubChild(t, next, r[|next|]);
    }
    assert IsQueue(t, next) && !Stops(t, true, next);
    TasksBelow(t, q);
  }

  lemma {:induction false} KeptMember(paths: seq<Path>, halt: Option<Path>, a: Path, s: Sort, q: Path)
    ensures q in Kept(paths, halt, a, s) <==> q in paths && Reaches(q, halt, a, s)
  {
    if paths != [] {
      KeptMember(paths[1..], halt, a, s, q);
      assert paths == [paths[0]] + paths[1..];
    }
  }

  /** In every run of every tree, a task that starts also completes, unless its failure is raised again. */
  lemma StartedCompletes(t: Tree, q: Path)
    requires t.Queue? && IsTask(t, q) && q in Heard(Trace(t, [], true), [], TaskStart)
    ensures q in Heard(Trace(t, [], true), [], TaskEnd) <==> Sub(t, q).work != Fails(ErrorRaise)
  {
    var halt := Halt(t, true);
    EveryQueueHears(t, [], TaskStart);
    EveryQueueHears(t, [], TaskEnd);
    KeptMember(Below(t, [], TaskStart), halt, [], TaskStart, q);
    KeptMember(Below(t, [], TaskEnd), halt, [], TaskEnd, q);
    FirstToStop(t, true);
    assert Stops(t, true, q) <==> Raises(t, q);
    if halt.Some? && q <= halt.value {
      if q != halt.value {
        StopsIsThere(t, halt.value);
        TaskIsLeaf(t, q, halt.value);
      }
      EarlierIrreflexive(q, halt.value);
    }
  }

  lemma StopsIsThere(t: Tree, h: Path)
    requires Stops(t, true, h)
    ensures Has(t, h)
  {
  }

  /** In every run of a tree whose queues can count, a task starts exactly when the one before it completed. */
  lemma NextTaskStarts(t: Tree, n: nat)
    requires t.Queue? && Countable(t) && n + 1 < |TaskPaths(t, [])|
    ensures var tasks := TaskPaths(t, []);
            var events := Trace(t, [], true);
            tasks[n + 1] in Heard(events, [], TaskStart) <==> tasks[n] in Heard(events, [], TaskEnd)
  {
    var halt := Halt(t, true);
    var tasks := TaskPaths(t, []);
    EveryQueueHears(t, [], TaskStart);
    EveryQueueHears(t, [], TaskEnd);
    KeptMember(tasks, halt, [], TaskStart, tasks[n + 1]);
    KeptMember(tasks, halt, [], TaskEnd, tasks[n]);
    if halt.Some? {
      CountableStops(t);
      var k := HaltsAtTask(t);
      BeforeInOrder(tasks, k, tasks[n]);
      BeforeInOrder(tasks, k, tasks[n + 1]);
      InPrefix(tasks, k, n);
      InPrefix(tasks, k, n + 1);
      OnlyItself(tasks, k, n + 1);
    }
  }

  lemma InPrefix(paths: seq<Path>, k: nat, n: nat)
    requires InRunOrder(paths) && k < |paths| && n < |paths|
    ensures paths[n] in paths[..k] <==> n < k
  {
    if paths[n] in paths[..k] && n >= k {
      var i :| 0 <= i < k && paths[i] == paths[n];
      EarlierIrreflexive(paths[i], paths[n]);
    }
    if n < k {
      assert paths[..k][n] == paths[n];
    }
  }

  lemma OnlyItself(paths: seq<Path>, k: nat, n: nat)
    requires InRunOrder(paths) && k < |paths| && n < |paths| && forall q :: q in paths ==> !(q < paths[k])
    ensures paths[n] <= paths[k] <==> n == k
  {
    if paths[n] <= paths[k] && n != k {
      assert paths[n] in paths;
      EarlierIrreflexive(paths[n], paths[k]);
      EarlierIrreflexive(paths[k], paths[n]);
    }
  }

  /** A run of a tree whose queues can count stops only at a task. */
  lemma CountableStops(t: Tree)
    requires Countable(t) && Halt(t, true).Some?
    ensures IsTask(t, Halt(t, true).value)
  {
    FirstToStop(t, true);
    var h := Halt(t, true).value;
    if IsQueue(t, h) {
      SubFront(t, h);
      CountableAt(t, Front(h));
      QueueOfItem(Sub(t, Front(h)).items, h[|h| - 1]);
    }
  }

  lemma {:induction false} CountableAt(t: Tree, q: Path)
    requires Countable(t) && Has(t, q)
    ensures Countable(Sub(t, q))
  {
    if q != [] {
      CountableAt(t.items[q[0]], q[1..]);
    }
  }

  lemma QueueOfItem(items: seq<Tree>, i: nat)
    requires i < |items| && items[i].Queue?
    ensures QueuesIn(items) > 0
  {
    NestedQueue(items);
  }

  /** A queue that holds an empty queue and nothing else stops at it, although no task raises. */
  lemma EmptyQueueStops(name: string, inner: string)
    ensures Halt(Queue(name, [Queue(inner, [])]), true) == Some([0])
    ensures forall q :: !Raises(Queue(name, [Queue(inner, [])]), q)
  {
    var item := Queue(inner, []);
    var t := Queue(name, [item]);
    assert t.items[1..] == [] && TasksIn(t.items) == Tasks(item) + TasksIn(t.items[1..]);
    assert TasksIn(t.items) == 0 && Halt(item, false) == Some([]) && [0] + [] == [0];
    assert HaltFrom(t.items, 0, false) == Some([0] + []);
    forall q ensures !Raises(t, q) {
      OnlyQueues(name, inner, q);
    }
  }

  lemma OnlyQueues(name: string, inner: string, q: Path)
    ensures !IsTask(Queue(name, [Queue(inner, [])]), q)
  {
    var item := Queue(inner, []);
    var t := Queue(name, [item]);
    if q != [] && Has(t, q) {
      assert q[0] == 0 && t.items[0] == item;
      assert Has(item, q[1..]) && q[1..] == [];
      assert Sub(t, q) == Sub(item, []);
    }
  }

  lemma {:induction false} NestedQueue(items: seq<Tree>)
    ensures QueuesIn(items) > 0 <==> exists i :: 0 <= i < |items| && items[i].Queue?
  {
    if items != [] {
      NestedQueue(items[1..]);
      if QueuesIn(items[1..]) > 0 {
        var i :| 0 <= i < |items[1..]| && items[1..][i].Queue?;
        assert items[i + 1].Queue?;
      }
      if i :| 0 <= i < |items| && items[i].Queue? && i > 0 {
        assert items[1..][i - 1].Queue?;
      }
    }
  }

  lemma {:induction false} CompletesFrom(t: Tree, i: nat)
    requires t.Queue? && i <= |t.items|
    ensures HaltFrom(t.items, i, TasksIn(t.items) > 0) == None <==>
            forall j | i <= j < |t.items| ::
              (t.items[j].Queue? ==> TasksIn(t.items) > 0) && Countable(t.items[j]) &&
              forall q :: !Raises(t.items[j], q)
    decreases t, 0, |t.items| - i
  {
    if i < |t.items| {
      CompletesIff(t.items[i]);
      CompletesFrom(t, i + 1);
    }
  }

  /** In a run that completes, run_task is called for every task once, in run order, and the top-level queue hears each
      task start and complete once, in the same order, each nested queue start once before those it contains, and each
      complete once after them. */
  lemma CompleteRun(t: Tree)
    requires t.Queue? && Countable(t) && forall q :: !Raises(t, q)
    ensures Halt(t, true) == None
    ensures var events := Trace(t, [], true);
            && Heard(events, [], TaskRun) == TaskPaths(t, [])
            && Heard(events, [], TaskStart) == TaskPaths(t, [])
            && Heard(events, [], TaskEnd) == TaskPaths(t, [])
            && Heard(events, [], QueueStart) == QueuePathsFrom(t.items, [], 0, false)
            && Heard(events, [], QueueEnd) == QueuePathsFrom(t.items, [], 0, true)
  {
    CompletesIff(t);
    CallsReached(t);
    KeptAll(TaskPaths(t, []), None, [], TaskRun);
    forall s: Sort | !s.TaskRun? ensures Heard(Trace(t, [], true), [], s) == Below(t, [], s) {
      EveryQueueHears(t, [], s);
      KeptAll(Below(t, [], s), None, [], s);
    }
  }

  /** So the four signals of the top-level queue fire task_count, task_count, queue_count and queue_count times, and
      each callable that is set is called once, in run order. */
  lemma CompleteRunCounts(t: Tree)
    requires t.Queue? && Countable(t) && forall q :: !Raises(t, q)
    ensures var events := Trace(t, [], true);
            && |Heard(events, [], TaskStart)| == |Heard(events, [], TaskEnd)| == TasksIn(t.items)
            && |Heard(events, [], QueueStart)| == |Heard(events, [], QueueEnd)| == QueuesIn(t.items)
            && Called(events) == WithCallable(t, TaskPaths(t, []))
  {
    CompleteRun(t);
    TaskPathsComplete(t, []);
    QueuePathsFromComplete(t, [], 0, false);
    QueuePathsFromComplete(t, [], 0, true);
    CallsCallables(t);
    assert t.items[0..] == t.items;
  }

  // ---------------------------------------------------------------- runs that a task cuts short

  /** The tasks before h completed, and h was the last one to start and to be called. */
  ghost predicate StopsAt(tasks: seq<Path>, h: Path, start: seq<Path>, call: seq<Path>, end: seq<Path>) {
    var n := |end|;
    n < |tasks| && tasks[n] == h && end == tasks[..n] && start == call == tasks[..n + 1]
  }

  /** In a list in run order, what is reached of a run that halts at its n-th entry. */
  lemma KeptInOrder(paths: seq<Path>, n: nat, a: Path, s: Sort)
    requires InRunOrder(paths) && n < |paths| && OfTasks(s)
    requires forall q :: q in paths ==> !(q < paths[n])
    ensures Kept(paths, Some(paths[n]), a, s) == if s.TaskEnd? then paths[..n] else paths[..n + 1]
  {
    var h := paths[n];
    assert paths == paths[..n] + ([h] + paths[n + 1..]);
    KeptConcat(paths[..n], [h] + paths[n + 1..], Some(h), a, s);
    KeptConcat([h], paths[n + 1..], Some(h), a, s);
    KeptOne(h, Some(h), a, s);
    EarlierIrreflexive(h, h);
    KeptBefore(paths, n, a, s);
    KeptAfter(paths, n, a, s);
  }

  lemma KeptBefore(paths: seq<Path>, n: nat, a: Path, s: Sort)
    requires InRunOrder(paths) && n < |paths|
    ensures Kept(paths[..n], Some(paths[n]), a, s) == paths[..n]
  {
    KeptAll(paths[..n], Some(paths[n]), a, s);
  }

  lemma KeptAfter(paths: seq<Path>, n: nat, a: Path, s: Sort)
    requires InRunOrder(paths) && n < |paths|
    requires forall q :: q in paths ==> !(q < paths[n])
    ensures Kept(paths[n + 1..], Some(paths[n]), a, s) == []
  {
    var h := paths[n];
    EarlierIrreflexive(h, h);
    forall q | q in paths[n + 1..] ensures !Reaches(q, Some(h), a, s) {
      var k :| n < k < |paths| && paths[k] == q;
      assert Earlier(h, q);
      EarlierAsymmetric(h, q);
      assert q in paths && q != h;
    }
    KeptNone(paths[n + 1..], Some(h), a, s);
  }

  /** No task contains another item. */
  lemma {:induction false} TaskIsLeaf(t: Tree, q: Path, h: Path)
    requires IsTask(t, q) && Has(t, h)
    ensures !(q < h)
  {
    if q < h {
      HasPrefix(t, q + [h[|q|]], h);
      SubChild(t, q, h[|q|]);
    }
  }

  /** When a run is cut short at a task, the task is the first that raises and no queue before it is uncountable; the
      tasks that completed are those before it, as many as the top-level queue heard complete; and it was the last one
      to start and to be called. */
  lemma StoppedRun(t: Tree)
    requires t.Queue? && Halt(t, true).Some? && IsTask(t, Halt(t, true).value)
    ensures var h := Halt(t, true).value;
            var events := Trace(t, [], true);
            var tasks := TaskPaths(t, []);
            var ended := Heard(events, [], TaskEnd);
            && Sub(t, h).work == Fails(ErrorRaise)
            && StopsAt(tasks, h, Heard(events, [], TaskStart), Heard(events, [], TaskRun), ended)
            && forall q :: q in ended <==> IsTask(t, q) && Earlier(q, h)
  {
    FirstToStop(t, true);
    var n := HaltsAtTask(t);
    var tasks, h := TaskPaths(t, []), Halt(t, true).value;
    CallsReached(t);
    EveryQueueHears(t, [], TaskStart);
    EveryQueueHears(t, [], TaskEnd);
    KeptInOrder(tasks, n, [], TaskRun);
    KeptInOrder(tasks, n, [], TaskStart);
    KeptInOrder(tasks, n, [], TaskEnd);
    TaskPathsComplete(t, []);
    forall q ensures q in tasks[..n] <==> IsTask(t, q) && Earlier(q, h) {
      BeforeInOrder(tasks, n, q);
      assert q[0..] == q;
    }
  }

  /** Which of the tasks, in run order, the run halts at. */
  lemma HaltsAtTask(t: Tree) returns (n: nat)
    requires Halt(t, true).Some? && IsTask(t, Halt(t, true).value)
    ensures var tasks := TaskPaths(t, []);
            && n < |tasks| && tasks[n] == Halt(t, true).value && InRunOrder(tasks)
            && forall q :: q in tasks ==> !(q < tasks[n])
  {
    var h := Halt(t, true).value;
    var tasks := TaskPaths(t, []);
    TaskPathsComplete(t, []);
    assert h[0..] == h;
    n :| 0 <= n < |tasks| && tasks[n] == h;
    forall q | q in tasks ensures !(q < h) {
      assert q[0..] == q;
      TaskIsLeaf(t, q, h);
    }
  }

  /** In a list in run order, the entries before the n-th are those earlier than it. */
  lemma BeforeInOrder(paths: seq<Path>, n: nat, q: Path)
    requires InRunOrder(paths) && n < |paths|
    ensures q in paths[..n] <==> q in paths && Earlier(q, paths[n])
  {
    if q in paths && Earlier(q, paths[n]) {
      var k :| 0 <= k < |paths| && paths[k] == q;
      EarlierIrreflexive(q, q);
      if k > n {
        EarlierAsymmetric(q, paths[n]);
      }
      assert paths[..n][k] == q;
    }
  }
}
