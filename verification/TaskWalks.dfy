/** What a task tree tells during a run, all signals in one order: every queue gets the notes of a walk through what is
    below it, as far as the run reached. */
module TaskWalks {
  import opened Prelude
  import opened TaskTree
  import opened RunOrder

  // ---------------------------------------------------------------- listening to a run

  datatype Sort = TaskStart | TaskRun | TaskEnd | QueueStart | QueueEnd

  datatype Note = Note(sort: Sort, item: Path)

  /** What a queue hears from one of its signals. */
  function SortOfKind(kind: Kind): Option<Sort> {
    match kind
    case TaskStarted => Some(TaskStart)
    case TaskCompleted => Some(TaskEnd)
    case QueueStarted => Some(QueueStart)
    case QueueCompleted => Some(QueueEnd)
    case _ => None
  }

  /** The note of an event at the queue a: an emission of one of its four signals about an item, or a call of run_task
      below it. */
  function NoteOf(e: Event, a: Path): seq<Note> {
    match e
    case Run(item, _) => if a < item then [Note(TaskRun, item)] else []
    case Emit(kind, at, item) =>
      if at == a && SortOfKind(kind).Some? then [Note(SortOfKind(kind).value, item)] else []
  }

  /** All that is heard at the queue a, in the order in which it happens. */
  function Notes(events: seq<Event>, a: Path): seq<Note> {
    if events == [] then [] else NoteOf(events[0], a) + Notes(events[1..], a)
  }

  lemma {:induction false} NotesConcat(x: seq<Event>, y: seq<Event>, a: Path)
    ensures Notes(x + y, a) == Notes(x, a) + Notes(y, a)
  {
    if x == [] {
      assert x + y == y;
    } else {
      assert (x + y)[1..] == x[1..] + y;
      NotesConcat(x[1..], y, a);
    }
  }

  lemma NotesOne(e: Event, a: Path)
    ensures Notes([e], a) == NoteOf(e, a)
  {
    assert [e][1..] == [];
  }

  /** The sort that an emission of `kind` by an item has for the queues above it. */
  function SortOf(kind: Kind, queue: bool): Sort {
    match SortOfKind(Lift(kind, queue))
    case Some(s) => s
    case None => TaskRun
  }

  /** Every queue from `at` up hears a nested emission once, and no other place does. */
  lemma {:induction false} NotesClimb(kind: Kind, at: Path, item: Path, a: Path)
    requires !Own(kind)
    ensures Notes(Cascade(kind, true, at, item), a) == if a <= at then [Note(SortOf(kind, true), item)] else []
    decreases |at|
  {
    NotesOne(Emit(kind, at, item), a);
    if at == [] {
      assert Cascade(kind, true, at, item) == [Emit(kind, at, item)];
    } else {
      NotesClimb(kind, Front(at), item, a);
      NotesConcat([Emit(kind, at, item)], Cascade(kind, true, Front(at), item), a);
      AtOrAbove(a, at);
      assert !(at <= Front(at));
    }
  }

  lemma NotesCascade(kind: Kind, queue: bool, p: Path, a: Path)
    requires Own(kind)
    ensures Notes(Cascade(kind, queue, p, p), a) == if a < p then [Note(SortOf(kind, queue), p)] else []
  {
    var e := Emit(kind, p, p);
    NotesOne(e, a);
    if p == [] {
      assert Cascade(kind, queue, p, p) == [e];
    } else {
      NotesClimb(Lift(kind, queue), Front(p), p, a);
      NotesConcat([e], Cascade(Lift(kind, queue), true, Front(p), p), a);
      AtOrAbove(a, p);
      assert !(p <= Front(p));
    }
  }

  // ---------------------------------------------------------------- what a run reaches

  /** What a complete run tells of the item at p: a queue is told of around its items, a task as started, called and
      completed. */
  function Walk(t: Tree, p: Path): seq<Note>
    decreases t
  {
    match t
    case Task(_, _) => [Note(TaskStart, p), Note(TaskRun, p), Note(TaskEnd, p)]
    case Queue(_, items) => [Note(QueueStart, p)] + WalkFrom(items, p, 0) + [Note(QueueEnd, p)]
  }

  function WalkFrom(items: seq<Tree>, p: Path, i: nat): seq<Note>
    requires i <= |items|
    decreases items, |items| - i
  {
    if i == |items| then [] else Walk(items[i], p + [i]) + WalkFrom(items, p, i + 1)
  }

  /** Whether the queue at a hears of the item at q, in a run that halts at `halt` or completes. What contains the
      halting item has started; the halting item has started too, but if it is a queue then its parent has no number
      to advance, and only the parent hears of it. */
  predicate Reaches(q: Path, halt: Option<Path>, a: Path, s: Sort) {
    match halt
    case None => true
    case Some(h) =>
      Earlier(q, h) ||
      (q <= h && (s.TaskStart? || s.TaskRun? || (s.QueueStart? && (q != h || (q != [] && a == Front(q))))))
  }

  /** The notes that the queue at a gets. */
  function Got(notes: seq<Note>, halt: Option<Path>, a: Path): seq<Note> {
    if notes == [] then []
    else (if Reaches(notes[0].item, halt, a, notes[0].sort) then [notes[0]] else []) + Got(notes[1..], halt, a)
  }

  lemma {:induction false} GotConcat(x: seq<Note>, y: seq<Note>, halt: Option<Path>, a: Path)
    ensures Got(x + y, halt, a) == Got(x, halt, a) + Got(y, halt, a)
  {
    if x == [] {
      assert x + y == y;
    } else {
      assert (x + y)[1..] == x[1..] + y;
      GotConcat(x[1..], y, halt, a);
    }
  }

  lemma GotThree(x: seq<Note>, y: seq<Note>, z: seq<Note>, halt: Option<Path>, a: Path)
    ensures Got(x + y + z, halt, a) == Got(x, halt, a) + Got(y, halt, a) + Got(z, halt, a)
  {
    GotConcat(x + y, z, halt, a);
    GotConcat(x, y, halt, a);
  }

  lemma {:induction false} GotAll(notes: seq<Note>, halt: Option<Path>, a: Path)
    requires forall n :: n in notes ==> Reaches(n.item, halt, a, n.sort)
    ensures Got(notes, halt, a) == notes
  {
    if notes != [] {
      assert forall n :: n in notes[1..] ==> n in notes;
      GotAll(notes[1..], halt, a);
    }
  }

  lemma {:induction false} GotNone(notes: seq<Note>, halt: Option<Path>, a: Path)
    requires forall n :: n in notes ==> !Reaches(n.item, halt, a, n.sort)
    ensures Got(notes, halt, a) == []
  {
    if notes != [] {
      assert forall n :: n in notes[1..] ==> n in notes;
      GotNone(notes[1..], halt, a);
    }
  }

  lemma GotOne(n: Note, halt: Option<Path>, a: Path)
    ensures Got([n], halt, a) == if Reaches(n.item, halt, a, n.sort) then [n] else []
  {
  }

  lemma {:induction false} WalkShape(t: Tree, p: Path)
    ensures forall n :: n in Walk(t, p) ==> p <= n.item
    decreases t, 0
  {
    if t.Queue? {
      WalkFromShape(t, p, 0);
    }
  }

  lemma {:induction false} WalkFromShape(t: Tree, p: Path, i: nat)
    requires t.Queue? && i <= |t.items|
    ensures forall n :: n in WalkFrom(t.items, p, i) ==> p < n.item && n.item[|p|] >= i
    decreases t, 0, |t.items| - i
  {
    if i < |t.items| {
      WalkShape(t.items[i], p + [i]);
      WalkFromShape(t, p, i + 1);
      forall n | n in Walk(t.items[i], p + [i]) ensures p < n.item && n.item[|p|] == i {
        assert n.item[|p|] == (p + [i])[|p|];
      }
    }
  }

  /** A halt inside the item at p, as seen from the top. */
  function At(p: Path, halt: Option<Path>): Option<Path> {
    match halt
    case None => None
    case Some(h) => Some(p + h)
  }

  lemma {:induction false} HaltFromShape(items: seq<Tree>, i: nat, counted: bool)
    requires i <= |items| && HaltFrom(items, i, counted).Some?
    ensures var h := HaltFrom(items, i, counted).value;
            && h != [] && i <= h[0] < |items| && Halt(items[h[0]], counted) == Some(h[1..])
            && forall j | i <= j < h[0] :: Halt(items[j], counted) == None
    decreases |items| - i
  {
    if Halt(items[i], counted) == None {
      HaltFromShape(items, i + 1, counted);
    } else {
      assert ([i] + Halt(items[i], counted).value)[1..] == Halt(items[i], counted).value;
    }
  }

  /** A run that gets past an item has reached all of it. */
  lemma PassedItem(t: Tree, p: Path, i: nat, a: Path)
    requires t.Queue? && i < |t.items| && Halt(t.items[i], TasksIn(t.items) > 0) == None
    ensures var halt := At(p, HaltFrom(t.items, i, TasksIn(t.items) > 0));
            var first := Walk(t.items[i], p + [i]);
            Got(first, halt, a) == first == Got(first, None, a)
  {
    var first := Walk(t.items[i], p + [i]);
    var halt := HaltFrom(t.items, i, TasksIn(t.items) > 0);
    WalkShape(t.items[i], p + [i]);
    if halt.Some? {
      HaltFromShape(t.items, i + 1, TasksIn(t.items) > 0);
      forall n | n in first ensures Reaches(n.item, At(p, halt), a, n.sort) {
        Apart(p, n.item, p + halt.value);
      }
    }
    GotAll(first, At(p, halt), a);
    GotAll(first, None, a);
  }

  /** A run that halts in an item reaches none of those after it. */
  lemma NotReached(t: Tree, p: Path, i: nat, a: Path)
    requires t.Queue? && i < |t.items| && Halt(t.items[i], TasksIn(t.items) > 0).Some?
    ensures Got(WalkFrom(t.items, p, i + 1), At(p, HaltFrom(t.items, i, TasksIn(t.items) > 0)), a) == []
  {
    var h := p + ([i] + Halt(t.items[i], TasksIn(t.items) > 0).value);
    var rest := WalkFrom(t.items, p, i + 1);
    WalkFromShape(t, p, i + 1);
    forall n | n in rest ensures !Reaches(n.item, Some(h), a, n.sort) {
      Apart(p, h, n.item);
    }
    GotNone(rest, Some(h), a);
  }

  // ---------------------------------------------------------------- what the queues around an item hear

  function FirstPart(t: Tree, p: Path): seq<Event> {
    Cascade(Started, t.Queue?, p, p)
  }

  function MiddlePart(t: Tree, p: Path): seq<Event> {
    if t.Task? then [Run(p, t.work != NotSet)] else TraceFrom(t.items, p, 0, TasksIn(t.items) > 0)
  }

  function LastPart(t: Tree, p: Path): seq<Event> {
    if Halt(t, true).Some? then [] else Cascade(Completed, t.Queue?, p, p)
  }

  lemma EnteredTrace(t: Tree, p: Path, counted: bool)
    requires t.Queue? ==> counted || p == []
    ensures Trace(t, p, counted) == Trace(t, p, true)
    ensures t.Queue? && counted ==> Halt(t, counted) == Halt(t, true)
  {
  }

  function StartOf(t: Tree): Sort {
    if t.Queue? then QueueStart else TaskStart
  }

  function EndOf(t: Tree): Sort {
    if t.Queue? then QueueEnd else TaskEnd
  }

  /** What an item tells when it is entered: its start, what is in it, and its end. */
  lemma NotesParts(t: Tree, p: Path, a: Path)
    ensures Notes(Trace(t, p, true), a) ==
            (if a < p then [Note(StartOf(t), p)] else []) + Notes(MiddlePart(t, p), a) +
            (if a < p && Halt(t, true) == None then [Note(EndOf(t), p)] else [])
  {
    TraceParts(t, p);
    NotesConcat(FirstPart(t, p) + MiddlePart(t, p), LastPart(t, p), a);
    NotesConcat(FirstPart(t, p), MiddlePart(t, p), a);
    NotesFirst(t, p, a);
    NotesLast(t, p, a);
  }

  lemma NotesFirst(t: Tree, p: Path, a: Path)
    ensures Notes(FirstPart(t, p), a) == if a < p then [Note(StartOf(t), p)] else []
  {
    NotesCascade(Started, t.Queue?, p, a);
  }

  lemma NotesLast(t: Tree, p: Path, a: Path)
    ensures Notes(LastPart(t, p), a) == if a < p && Halt(t, true) == None then [Note(EndOf(t), p)] else []
  {
    NotesCascade(Completed, t.Queue?, p, a);
  }

  lemma TraceParts(t: Tree, p: Path)
    ensures Trace(t, p, true) == FirstPart(t, p) + MiddlePart(t, p) + LastPart(t, p)
  {
  }

  lemma TaskNotes(t: Tree, p: Path, counted: bool, a: Path)
    requires t.Task? && a < p
    ensures Notes(Trace(t, p, counted), a) == Got(Walk(t, p), At(p, Halt(t, counted)), a)
  {
    EnteredTrace(t, p, counted);
    NotesParts(t, p, a);
    NotesOne(Run(p, t.work != NotSet), a);
    GotTask(t, p, a);
  }

  /** A task is heard of as started, then called, then completed if it does not raise. */
  lemma GotTask(t: Tree, p: Path, a: Path)
    requires t.Task?
    ensures Got(Walk(t, p), At(p, Halt(t, true)), a) ==
            [Note(TaskStart, p)] + [Note(TaskRun, p)] + if Halt(t, true) == None then [Note(TaskEnd, p)] else []
  {
    var halt := At(p, Halt(t, true));
    EarlierIrreflexive(p, p);
    assert p + [] == p;
    assert Walk(t, p) == [Note(TaskStart, p)] + [Note(TaskRun, p)] + [Note(TaskEnd, p)];
    GotThree([Note(TaskStart, p)], [Note(TaskRun, p)], [Note(TaskEnd, p)], halt, a);
    GotOne(Note(TaskStart, p), halt, a);
    GotOne(Note(TaskRun, p), halt, a);
    GotOne(Note(TaskEnd, p), halt, a);
  }

  /** A queue that cannot be counted is heard of by its parent only, and nothing in it is reached. */
  lemma BlockedNotes(t: Tree, p: Path, a: Path)
    requires t.Queue? && p != []
    ensures Notes(Trace(t, p, false), a) == if a == Front(p) then [Note(QueueStart, p)] else []
    ensures Got(WalkFrom(t.items, p, 0), At(p, Halt(t, false)), a) == []
  {
    NotesConcat([Emit(Started, p, p)], [Emit(QueueStarted, Front(p), p)], a);
    NotesOne(Emit(Started, p, p), a);
    NotesOne(Emit(QueueStarted, Front(p), p), a);
    WalkFromShape(t, p, 0);
    assert p + [] == p;
    var below := WalkFrom(t.items, p, 0);
    forall n | n in below ensures !Reaches(n.item, Some(p), a, n.sort) {
      EarlierIrreflexive(n.item, p);
    }
    GotNone(below, Some(p), a);
  }

  /** What is got of a queue: the queue itself around its items. */
  lemma GotQueue(t: Tree, p: Path, halt: Option<Path>, a: Path)
    requires t.Queue?
    ensures Got(Walk(t, p), halt, a) ==
            (if Reaches(p, halt, a, QueueStart) then [Note(QueueStart, p)] else []) +
            Got(WalkFrom(t.items, p, 0), halt, a) +
            (if Reaches(p, halt, a, QueueEnd) then [Note(QueueEnd, p)] else [])
  {
    GotThree([Note(QueueStart, p)], WalkFrom(t.items, p, 0), [Note(QueueEnd, p)], halt, a);
    GotOne(Note(QueueStart, p), halt, a);
    GotOne(Note(QueueEnd, p), halt, a);
  }

  /** Every queue around the item at p gets exactly the notes of what is reached of it. */
  lemma {:induction false} NotesAround(t: Tree, p: Path, counted: bool, a: Path)
    requires a < p
    ensures Notes(Trace(t, p, counted), a) == Got(Walk(t, p), At(p, Halt(t, counted)), a)
    decreases t, 0
  {
    if t.Task? {
      TaskNotes(t, p, counted, a);
    } else if counted {
      NotesAroundFrom(t, p, 0, a);
      EnteredNotes(t, p, a);
    } else {
      BlockedNotes(t, p, a);
      GotQueue(t, p, At(p, Halt(t, false)), a);
      EarlierIrreflexive(p, p);
      assert p + [] == p;
    }
  }

  lemma EnteredNotes(t: Tree, p: Path, a: Path)
    requires t.Queue? && a < p
    requires Notes(MiddlePart(t, p), a) == Got(WalkFrom(t.items, p, 0), At(p, Halt(t, true)), a)
    ensures Notes(Trace(t, p, true), a) == Got(Walk(t, p), At(p, Halt(t, true)), a)
  {
    NotesParts(t, p, a);
    GotQueue(t, p, At(p, Halt(t, true)), a);
    ReachesAround(t, p, a);
  }

  /** A queue that is entered has started, and it completes if nothing in it halts. */
  lemma ReachesAround(t: Tree, p: Path, a: Path)
    requires t.Queue?
    ensures Reaches(p, At(p, Halt(t, true)), a, QueueStart)
    ensures Reaches(p, At(p, Halt(t, true)), a, QueueEnd) <==> Halt(t, true) == None
  {
    if Halt(t, true).Some? {
      HaltFromShape(t.items, 0, TasksIn(t.items) > 0);
      EarlierIrreflexive(p, p + Halt(t, true).value);
    }
  }

  lemma {:induction false} NotesAroundFrom(t: Tree, p: Path, i: nat, a: Path)
    requires t.Queue? && i <= |t.items| && a <= p
    ensures var counted := TasksIn(t.items) > 0;
            Notes(TraceFrom(t.items, p, i, counted), a) ==
            Got(WalkFrom(t.items, p, i), At(p, HaltFrom(t.items, i, counted)), a)
    decreases t, 0, |t.items| - i
  {
    if i < |t.items| {
      var counted := TasksIn(t.items) > 0;
      ChildPrefix(a, p, i);
      NotesAround(t.items[i], p + [i], counted, a);
      if Halt(t.items[i], counted) == None {
        NotesAroundFrom(t, p, i + 1, a);
      }
      OneMoreItem(t, p, i, a);
    }
  }

  /** An item heard as far as it is reached, and those after it if the run gets there. */
  lemma OneMoreItem(t: Tree, p: Path, i: nat, a: Path)
    requires t.Queue? && i < |t.items|
    requires var counted := TasksIn(t.items) > 0;
             && Notes(Trace(t.items[i], p + [i], counted), a) ==
                Got(Walk(t.items[i], p + [i]), At(p + [i], Halt(t.items[i], counted)), a)
             && (Halt(t.items[i], counted) == None ==>
                   Notes(TraceFrom(t.items, p, i + 1, counted), a) ==
                   Got(WalkFrom(t.items, p, i + 1), At(p, HaltFrom(t.items, i + 1, counted)), a))
    ensures var counted := TasksIn(t.items) > 0;
            Notes(TraceFrom(t.items, p, i, counted), a) ==
            Got(WalkFrom(t.items, p, i), At(p, HaltFrom(t.items, i, counted)), a)
  {
    var counted := TasksIn(t.items) > 0;
    var first, rest := Walk(t.items[i], p + [i]), WalkFrom(t.items, p, i + 1);
    var halt := At(p, HaltFrom(t.items, i, counted));
    NotesNext(t, p, i, a);
    GotConcat(first, rest, halt, a);
    if Halt(t.items[i], counted) == None {
      PassedItem(t, p, i, a);
    } else {
      PathAssoc(p, i, Halt(t.items[i], counted).value);
      NotReached(t, p, i, a);
    }
  }

  lemma NotesNext(t: Tree, p: Path, i: nat, a: Path)
    requires t.Queue? && i < |t.items|
    ensures var counted := TasksIn(t.items) > 0;
            Notes(TraceFrom(t.items, p, i, counted), a) ==
            Notes(Trace(t.items[i], p + [i], counted), a) +
            if Halt(t.items[i], counted).Some? then [] else Notes(TraceFrom(t.items, p, i + 1, counted), a)
  {
    var counted := TasksIn(t.items) > 0;
    var rest := if Halt(t.items[i], counted).Some? then [] else TraceFrom(t.items, p, i + 1, counted);
    NotesConcat(Trace(t.items[i], p + [i], counted), rest, a);
  }

  // ---------------------------------------------------------------- what a queue hears of its own items

  /** A queue hears nothing of items that are neither inside it nor around it. */
  lemma {:induction false} NoNotes(t: Tree, p: Path, counted: bool, a: Path)
    requires !(a < p) && !(p <= a) && (counted || p != [])
    ensures Notes(Trace(t, p, counted), a) == []
    decreases t, 0
  {
    if t.Task? {
      EnteredTrace(t, p, counted);
      NotesParts(t, p, a);
      NotesOne(Run(p, t.work != NotSet), a);
    } else if counted {
      NoNotesFrom(t, p, 0, a);
      NotesParts(t, p, a);
    } else {
      BlockedNotes(t, p, a);
    }
  }

  lemma {:induction false} NoNotesFrom(t: Tree, p: Path, i: nat, a: Path)
    requires t.Queue? && i <= |t.items|
    requires !(a <= p) && forall j | i <= j < |t.items| :: !(p + [j] <= a)
    ensures Notes(TraceFrom(t.items, p, i, TasksIn(t.items) > 0), a) == []
    decreases t, 0, |t.items| - i
  {
    if i < |t.items| {
      ChildPrefix(a, p, i);
      NoNotes(t.items[i], p + [i], TasksIn(t.items) > 0, a);
      NoNotesFrom(t, p, i + 1, a);
      NotesNext(t, p, i, a);
    }
  }

  /** All that a complete run tells of what is below the queue n at a. */
  function WalkBelow(n: Tree, a: Path): seq<Note>
    requires n.Queue?
  {
    WalkFrom(n.items, a, 0)
  }

  ghost predicate AllBelow(notes: seq<Note>, a: Path) {
    forall n :: n in notes ==> a < n.item
  }

  /** A queue in the item at p gets exactly the notes of what is reached of what is below it. */
  lemma {:induction false} NotesWithin(t: Tree, p: Path, counted: bool, b: Path, a: Path)
    requires Has(t, b) && Sub(t, b).Queue? && (counted || p != []) && a == p + b
    ensures Notes(Trace(t, p, counted), a) == Got(WalkBelow(Sub(t, b), a), At(p, Halt(t, counted)), a)
    decreases t, 0
  {
    var below := WalkBelow(Sub(t, b), a);
    WalkFromShape(Sub(t, b), a, 0);
    if !counted {
      BlockedNotes(t, p, a);
      NothingBelow(below, p, a);
    } else {
      NotesParts(t, p, a);
      if b == [] {
        assert a == p;
        NotesAroundFrom(t, p, 0, p);
      } else {
        NotesWithinFrom(t, p, 0, b, a);
      }
    }
  }

  /** What is below a queue at which the run halts, or in it, is not reached. */
  lemma NothingBelow(below: seq<Note>, p: Path, a: Path)
    requires AllBelow(below, a) && p <= a
    ensures Got(below, At(p, Some([])), a) == []
  {
    assert p + [] == p;
    forall m | m in below ensures !Reaches(m.item, Some(p), a, m.sort) {
      EarlierIrreflexive(m.item, p);
    }
    GotNone(below, Some(p), a);
  }

  lemma {:induction false} NotesWithinFrom(t: Tree, p: Path, i: nat, b: Path, a: Path)
    requires t.Queue? && i <= |t.items|
    requires b != [] && Has(t, b) && Sub(t, b).Queue? && i <= b[0] && a == p + b
    ensures var counted := TasksIn(t.items) > 0;
            Notes(TraceFrom(t.items, p, i, counted), a) ==
            Got(WalkBelow(Sub(t, b), a), At(p, HaltFrom(t.items, i, counted)), a)
    decreases t, 0, |t.items| - i
  {
    var counted := TasksIn(t.items) > 0;
    var below := WalkBelow(Sub(t, b), a);
    WalkFromShape(Sub(t, b), a, 0);
    if i == b[0] {
      assert p + [i] + b[1..] == a;
      NotesWithin(t.items[i], p + [i], counted, b[1..], a);
      NotesHere(t, p, a, below);
    } else {
      if Halt(t.items[i], counted) == None {
        NotesWithinFrom(t, p, i + 1, b, a);
      }
      NotesLater(t, p, i, a, below);
    }
  }

  lemma NotesHere(t: Tree, p: Path, a: Path, below: seq<Note>)
    requires t.Queue? && p < a && a[|p|] < |t.items| && AllBelow(below, a)
    requires var counted := TasksIn(t.items) > 0;
             Notes(Trace(t.items[a[|p|]], p + [a[|p|]], counted), a) ==
             Got(below, At(p + [a[|p|]], Halt(t.items[a[|p|]], counted)), a)
    ensures var counted := TasksIn(t.items) > 0;
            Notes(TraceFrom(t.items, p, a[|p|], counted), a) == Got(below, At(p, HaltFrom(t.items, a[|p|], counted)), a)
  {
    NotesInItem(t, p, a, below);
    NotesNext(t, p, a[|p|], a);
  }

  lemma NotesLater(t: Tree, p: Path, i: nat, a: Path, below: seq<Note>)
    requires t.Queue? && p < a && i < a[|p|] && i < |t.items| && AllBelow(below, a)
    requires var counted := TasksIn(t.items) > 0;
             Halt(t.items[i], counted) == None ==>
               Notes(TraceFrom(t.items, p, i + 1, counted), a) ==
                 Got(below, At(p, HaltFrom(t.items, i + 1, counted)), a)
    ensures var counted := TasksIn(t.items) > 0;
            Notes(TraceFrom(t.items, p, i, counted), a) == Got(below, At(p, HaltFrom(t.items, i, counted)), a)
  {
    ApartFrom(p, i, a);
    NoNotes(t.items[i], p + [i], TasksIn(t.items) > 0, a);
    NotesNext(t, p, i, a);
    if Halt(t.items[i], TasksIn(t.items) > 0).Some? {
      HaltsBefore(t, p, i, a, below);
    }
  }

  /** The queue at a is in an item that the run has come to, and hears nothing of the items after it. */
  lemma NotesInItem(t: Tree, p: Path, a: Path, below: seq<Note>)
    requires t.Queue? && p < a && a[|p|] < |t.items| && AllBelow(below, a)
    ensures var counted := TasksIn(t.items) > 0;
            var i := a[|p|];
            && Got(below, At(p + [i], Halt(t.items[i], counted)), a) ==
               Got(below, At(p, HaltFrom(t.items, i, counted)), a)
            && Notes(TraceFrom(t.items, p, i + 1, counted), a) == []
  {
    var counted := TasksIn(t.items) > 0;
    var i := a[|p|];
    forall j | i < j < |t.items| ensures !(p + [j] <= a) {
      ApartFrom(p, j, a);
    }
    NoNotesFrom(t, p, i + 1, a);
    if Halt(t.items[i], counted).Some? {
      PathAssoc(p, i, Halt(t.items[i], counted).value);
    } else {
      PassedQueue(t, p, a, below);
    }
  }

  /** A run that gets past the item of the queue at a has reached all that is below that queue. */
  lemma PassedQueue(t: Tree, p: Path, a: Path, below: seq<Note>)
    requires t.Queue? && p < a && a[|p|] < |t.items| && AllBelow(below, a)
    requires Halt(t.items[a[|p|]], TasksIn(t.items) > 0) == None
    ensures Got(below, None, a) == Got(below, At(p, HaltFrom(t.items, a[|p|], TasksIn(t.items) > 0)), a)
  {
    var halt := HaltFrom(t.items, a[|p|], TasksIn(t.items) > 0);
    if halt.Some? {
      HaltFromShape(t.items, a[|p|], TasksIn(t.items) > 0);
      forall n | n in below ensures Reaches(n.item, At(p, halt), a, n.sort) {
        Apart(p, n.item, p + halt.value);
      }
    }
    GotAll(below, At(p, halt), a);
    GotAll(below, None, a);
  }

  /** A run that halts before it comes to the item of the queue at a reaches nothing below that queue. */
  lemma HaltsBefore(t: Tree, p: Path, i: nat, a: Path, below: seq<Note>)
    requires t.Queue? && p < a && i < a[|p|] && i < |t.items| && AllBelow(below, a)
    requires Halt(t.items[i], TasksIn(t.items) > 0).Some?
    ensures Got(below, At(p, HaltFrom(t.items, i, TasksIn(t.items) > 0)), a) == []
  {
    var h := p + ([i] + Halt(t.items[i], TasksIn(t.items) > 0).value);
    forall n | n in below ensures !Reaches(n.item, Some(h), a, n.sort) {
      Apart(p, h, n.item);
    }
    GotNone(below, Some(h), a);
  }

  lemma ApartFrom(p: Path, i: nat, a: Path)
    requires p < a && a[|p|] != i
    ensures !(p + [i] <= a) && !(a < p + [i])
  {
    assert (p + [i])[|p|] == i;
  }

  /** For every tree, every queue in it and every run, complete or cut short: the queue gets the notes of the walk
      through what is below it, as far as the run reached, in that order and no others. */
  lemma EveryQueueWalks(t: Tree, b: Path)
    requires Has(t, b) && Sub(t, b).Queue?
    ensures Notes(Trace(t, [], true), b) == Got(WalkBelow(Sub(t, b), b), Halt(t, true), b)
  {
    assert [] + b == b;
    NotesWithin(t, [], true, b, b);
    if Halt(t, true).Some? {
      assert [] + Halt(t, true).value == Halt(t, true).value;
    }
  }

  // ---------------------------------------------------------------- one emission

  /** An emission climbs: it is heard at the item, then at each queue around it, from the inside out. */
  lemma {:induction false} CascadeClimbs(kind: Kind, queue: bool, at: Path, item: Path)
    ensures |Cascade(kind, queue, at, item)| == |at| + 1
    ensures forall k | 0 <= k <= |at| ::
              Cascade(kind, queue, at, item)[k] ==
                Emit(if k == 0 then kind else Lift(kind, queue), at[..|at| - k], item)
    decreases |at|
  {
    assert at[..|at|] == at;
    if at != [] {
      var rest := Cascade(Lift(kind, queue), true, Front(at), item);
      CascadeClimbs(Lift(kind, queue), true, Front(at), item);
      forall k | 0 < k <= |at|
        ensures Cascade(kind, queue, at, item)[k] == Emit(Lift(kind, queue), at[..|at| - k], item)
      {
        assert Cascade(kind, queue, at, item)[k] == rest[k - 1];
        assert Front(at)[..|Front(at)| - (k - 1)] == at[..|at| - k];
      }
    }
  }
}
