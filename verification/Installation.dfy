/** The reports of an installation run: the progress messages and the counters in the log. */
module Installation {
  import opened Prelude
  import opened Text
  import opened TaskTree
  import opened RunOrder
  import opened TaskWalks
  import opened TaskRuns
  import InstallationTasks
  import TaskSummary
  import TreeBuilding

  // ---------------------------------------------------------------- the counters in the log

  datatype CounterError = StopIteration | NegativeCount

  /** What "%d/%d" prints. */
  function Fraction(index: nat, count: nat): string {
    Decimal(index) + "/" + Decimal(count)
  }

  /** What advancing a counter of `count` items gives when it is at `index`. */
  function NextText(index: nat, count: int): Result<string, CounterError> {
    if count < 0 then Err(NegativeCount)
    else if index <= count then Ok(Fraction(index, count)) else Err(StopIteration)
  }

  /** item_counter: a generator of the strings 1/n to n/n. */
  class ItemCounter {
    const count: int
    var index: nat
    var ended: bool // a generator that raised, or ran to its end, is exhausted

    constructor (count: int)
      ensures this.count == count && index == 1 && !ended
    {
      this.count, index, ended := count, 1, false;
    }

    method Next() returns (r: Result<string, CounterError>)
      modifies this
      ensures r == if old(ended) then Err(StopIteration) else NextText(old(index), count)
      ensures index == if r.Ok? then old(index) + 1 else old(index)
      ensures ended == r.Err?
    {
      if ended {
        return Err(StopIteration);
      }
      if count < 0 {
        ended := true;
        return Err(NegativeCount);
      }
      if index <= count {
        r := Ok(Fraction(index, count));
        index := index + 1;
      } else {
        ended := true;
        r := Err(StopIteration);
      }
    }
  }

  /** A counter made for `count` items gives 1/count to count/count and then ends for good; one made for a negative
      number raises ValueError and then ends for good. */
  method DrainCounter(count: int) returns (texts: seq<string>, end: CounterError, after: Result<string, CounterError>)
    ensures |texts| == (if count < 0 then 0 else count)
    ensures forall k | 0 <= k < |texts| :: texts[k] == Fraction(k + 1, count)
    ensures end == (if count < 0 then NegativeCount else StopIteration) && after == Err(StopIteration)
  {
    var counter := new ItemCounter(count);
    texts := [];
    var r := counter.Next();
    while r.Ok?
      invariant r == NextText(|texts| + 1, count) && counter.count == count && counter.ended == r.Err?
      invariant r.Ok? ==> counter.index == |texts| + 2
      invariant |texts| <= (if count < 0 then 0 else count)
      invariant forall k | 0 <= k < |texts| :: texts[k] == Fraction(k + 1, count)
      decreases count - |texts|
    {
      texts := texts + [r.value];
      r := counter.Next();
    }
    end := r.error;
    after := counter.Next();
  }

  // ---------------------------------------------------------------- the log

  /** One number for each of the three signals that are logged. */
  datatype Tally = Tally(queues: nat, started: nat, completed: nat) {
    function Of(s: Sort): nat {
      match s
      case QueueStart => queues
      case TaskStart => started
      case _ => completed
    }

    function Next(s: Sort): Tally {
      match s
      case QueueStart => this.(queues := queues + 1)
      case TaskStart => this.(started := started + 1)
      case _ => this.(completed := completed + 1)
    }
  }

  /** "Queue started", "Task started" or "Task completed", with the item and its counter. */
  datatype Line = Line(sort: Sort, item: Path, counter: string)

  predicate IsLogged(s: Sort) {
    s.QueueStart? || s.TaskStart? || s.TaskEnd?
  }

  /** The logged signal of the top-level queue that the event is, if it is one. */
  function Logged(e: Event): Option<Sort> {
    if IsHeard(e, [], QueueStart) then Some(QueueStart)
    else if IsHeard(e, [], TaskStart) then Some(TaskStart)
    else if IsHeard(e, [], TaskEnd) then Some(TaskEnd)
    else None
  }

  /** The lines that are logged while these events happen, if no counter runs out. */
  function Log(events: seq<Event>, counts: Tally, next: Tally): Option<seq<Line>>
  {
    if events == [] then Some([])
    else match Logged(events[0])
         case None => Log(events[1..], counts, next)
         case Some(s) =>
           match NextText(next.Of(s), counts.Of(s))
           case Err(_) => None
           case Ok(text) =>
             match Log(events[1..], counts, next.Next(s))
             case None => None
             case Some(lines) => Some([Line(s, events[0].item, text)] + lines)
  }

  function LinesOf(lines: seq<Line>, s: Sort): seq<Line> {
    if lines == [] then []
    else (if lines[0].sort == s then [lines[0]] else []) + LinesOf(lines[1..], s)
  }

  /** A line for each item, numbered from `index` on. */
  ghost predicate Numbered(lines: seq<Line>, items: seq<Path>, s: Sort, index: nat, count: nat) {
    && |lines| == |items|
    && forall k | 0 <= k < |items| :: lines[k] == Line(s, items[k], Fraction(index + k, count))
  }

  predicate HasRoom(events: seq<Event>, counts: Tally, next: Tally, s: Sort) {
    next.Of(s) + |Heard(events, [], s)| <= counts.Of(s) + 1
  }

  /** Every counter that is advanced has room for what is heard. */
  ghost predicate AllRoom(events: seq<Event>, counts: Tally, next: Tally) {
    forall s :: IsLogged(s) && Heard(events, [], s) != [] ==> HasRoom(events, counts, next, s)
  }

  lemma FirstLogged(events: seq<Event>, s: Sort)
    requires events != [] && IsLogged(s)
    ensures Heard(events, [], s) ==
            (if Logged(events[0]) == Some(s) then [events[0].item] else []) + Heard(events[1..], [], s)
  {
  }

  lemma {:induction false} LinesConcat(line: Line, lines: seq<Line>, s: Sort)
    ensures LinesOf([line] + lines, s) == (if line.sort == s then [line] else []) + LinesOf(lines, s)
  {
    assert ([line] + lines)[1..] == lines;
  }

  /** No counter runs out exactly when each has room for what is heard. */
  lemma {:induction false} LogIff(events: seq<Event>, counts: Tally, next: Tally)
    ensures Log(events, counts, next).Some? <==> AllRoom(events, counts, next)
  {
    if events != [] {
      forall s | IsLogged(s) ensures Heard(events, [], s) ==
        (if Logged(events[0]) == Some(s) then [events[0].item] else []) + Heard(events[1..], [], s)
      {
        FirstLogged(events, s);
      }
      match Logged(events[0])
      case None =>
        LogIff(events[1..], counts, next);
        forall s | IsLogged(s) ensures HasRoom(events, counts, next, s) == HasRoom(events[1..], counts, next, s) {
        }
      case Some(s) =>
        LogIff(events[1..], counts, next.Next(s));
        RoomNext(events, counts, next, s);
    }
  }

  lemma RoomNext(events: seq<Event>, counts: Tally, next: Tally, s: Sort)
    requires events != [] && Logged(events[0]) == Some(s)
    ensures AllRoom(events, counts, next) <==> next.Of(s) <= counts.Of(s) && AllRoom(events[1..], counts, next.Next(s))
  {
    forall r | IsLogged(r)
      ensures |Heard(events, [], r)| == |Heard(events[1..], [], r)| + if r == s then 1 else 0
    {
      FirstLogged(events, r);
    }
    if AllRoom(events, counts, next) {
      assert HasRoom(events, counts, next, s);
      forall r | IsLogged(r) && Heard(events[1..], [], r) != [] ensures HasRoom(events[1..], counts, next.Next(s), r) {
        assert HasRoom(events, counts, next, r);
      }
    }
    if next.Of(s) <= counts.Of(s) && AllRoom(events[1..], counts, next.Next(s)) {
      forall r | IsLogged(r) && Heard(events, [], r) != [] ensures HasRoom(events, counts, next, r) {
        assert Heard(events[1..], [], r) != [] ==> HasRoom(events[1..], counts, next.Next(s), r);
      }
    }
  }

  /** The lines of each signal are numbered consecutively, one for each item heard. */
  lemma {:induction false} LogNumbers(events: seq<Event>, counts: Tally, next: Tally, s: Sort)
    requires Log(events, counts, next).Some? && IsLogged(s)
    ensures Numbered(LinesOf(Log(events, counts, next).value, s), Heard(events, [], s), s, next.Of(s), counts.Of(s))
  {
    if events != [] {
      match Logged(events[0])
      case None =>
        LogNumbers(events[1..], counts, next, s);
        FirstLogged(events, s);
      case Some(r) =>
        var lines := LoggedNext(events, counts, next, r);
        LogNumbers(events[1..], counts, next.Next(r), s);
        NumberedFirst(events, lines, counts, next, r, s);
    }
  }

  lemma NumberedFirst(events: seq<Event>, lines: seq<Line>, counts: Tally, next: Tally, r: Sort, s: Sort)
    requires events != [] && Logged(events[0]) == Some(r) && IsLogged(s)
    requires Numbered(LinesOf(lines, s), Heard(events[1..], [], s), s, next.Next(r).Of(s), counts.Of(s))
    ensures Numbered(LinesOf([LineOf(events[0], counts, next, r)] + lines, s), Heard(events, [], s), s,
                     next.Of(s), counts.Of(s))
  {
    var line := LineOf(events[0], counts, next, r);
    FirstLogged(events, s);
    LinesConcat(line, lines, s);
    if r == s {
      assert next.Next(r).Of(s) == next.Of(s) + 1;
      NumberedNext(line, LinesOf(lines, s), Heard(events[1..], [], s), s, next.Of(s), counts.Of(s));
    } else {
      assert next.Next(r).Of(s) == next.Of(s);
      assert [] + LinesOf(lines, s) == LinesOf(lines, s);
      assert [] + Heard(events[1..], [], s) == Heard(events[1..], [], s);
    }
  }

  /** The line for an event whose counter has not run out. */
  function LineOf(e: Event, counts: Tally, next: Tally, r: Sort): Line {
    Line(r, e.item, Fraction(next.Of(r), counts.Of(r)))
  }

  lemma LoggedNext(events: seq<Event>, counts: Tally, next: Tally, r: Sort) returns (lines: seq<Line>)
    requires events != [] && Logged(events[0]) == Some(r) && Log(events, counts, next).Some?
    ensures Log(events[1..], counts, next.Next(r)) == Some(lines)
    ensures Log(events, counts, next) ==
            Some([LineOf(events[0], counts, next, r)] + lines)
  {
    lines := Log(events[1..], counts, next.Next(r)).value;
  }

  lemma NumberedNext(line: Line, lines: seq<Line>, items: seq<Path>, s: Sort, index: nat, count: nat)
    requires Numbered(lines, items, s, index + 1, count) && line == Line(s, line.item, Fraction(index, count))
    ensures Numbered([line] + lines, [line.item] + items, s, index, count)
  {
    forall k | 0 <= k < |items| + 1
      ensures ([line] + lines)[k] == Line(s, ([line.item] + items)[k], Fraction(index + k, count))
    {
      if k > 0 {
        assert ([line] + lines)[k] == lines[k - 1];
      }
    }
  }

  /** What the counters of a queue with these items are made for. */
  function CountsIn(items: seq<Tree>): Tally {
    Tally(QueuesIn(items), TasksIn(items), TasksIn(items))
  }

  lemma {:induction false} KeptAtMost(paths: seq<Path>, halt: Option<Path>, a: Path, s: Sort)
    ensures |Kept(paths, halt, a, s)| <= |paths|
  {
    if paths != [] {
      KeptAtMost(paths[1..], halt, a, s);
    }
  }

  /** The top-level queue never hears more than the counters were made for, however the run ends. */
  lemma CountersSuffice(t: Tree, s: Sort)
    requires t.Queue? && IsLogged(s)
    ensures |Heard(Trace(t, [], true), [], s)| <= CountsIn(t.items).Of(s)
  {
    EveryQueueHears(t, [], s);
    KeptAtMost(Below(t, [], s), Halt(t, true), [], s);
    TaskPathsFromComplete(t, [], 0);
    QueuePathsFromComplete(t, [], 0, false);
    assert t.items[0..] == t.items;
  }

  /** What a run of t logs. */
  function RunLog(t: Tree): Option<seq<Line>>
    requires t.Queue?
  {
    Log(Trace(t, [], true), CountsIn(t.items), Tally(1, 1, 1))
  }

  /** In no run does a counter run out, and each signal's lines are numbered from 1. */
  lemma LogOfRun(t: Tree)
    requires t.Queue?
    ensures RunLog(t).Some?
    ensures forall s :: IsLogged(s) ==>
              Numbered(LinesOf(RunLog(t).value, s), Heard(Trace(t, [], true), [], s), s, 1, CountsIn(t.items).Of(s))
  {
    var events := Trace(t, [], true);
    forall s | IsLogged(s) && Heard(events, [], s) != [] ensures HasRoom(events, CountsIn(t.items), Tally(1, 1, 1), s) {
      CountersSuffice(t, s);
    }
    LogIff(events, CountsIn(t.items), Tally(1, 1, 1));
    forall s | IsLogged(s)
      ensures Numbered(LinesOf(RunLog(t).value, s), Heard(Trace(t, [], true), [], s), s, 1, CountsIn(t.items).Of(s))
    {
      LogNumbers(events, CountsIn(t.items), Tally(1, 1, 1), s);
    }
  }

  /** The lines of one signal name these items, with the counters 1/n to n/n for their number n. */
  ghost predicate OneToAll(lines: seq<Line>, items: seq<Path>, s: Sort) {
    && |lines| == |items|
    && forall k | 0 <= k < |items| :: lines[k] == Line(s, items[k], Fraction(k + 1, |items|))
  }

  /** A successful run logs the start of each nested queue and the start and the completion of each task, in run
      order, each with the counters 1/n to n/n. */
  lemma LogOfSuccess(t: Tree)
    requires t.Queue? && Countable(t) && forall q :: !Raises(t, q)
    ensures RunLog(t).Some?
    ensures var lines := RunLog(t).value;
            && OneToAll(LinesOf(lines, QueueStart), QueuePathsFrom(t.items, [], 0, false), QueueStart)
            && OneToAll(LinesOf(lines, TaskStart), TaskPaths(t, []), TaskStart)
            && OneToAll(LinesOf(lines, TaskEnd), TaskPaths(t, []), TaskEnd)
  {
    LogOfRun(t);
    CompleteRun(t);
    CompleteRunCounts(t);
  }

  // ---------------------------------------------------------------- the progress queue

  datatype Message = Init(steps: nat) | Step | Status(queue: Path) | Complete

  /** The two queues of an installation report to the progress queue: the start of a nested queue as a
      status message and the end of a task as a step. */
  function Report(e: Event): seq<Message> {
    if e.Emit? && (e.at == [0] || e.at == [1]) then
      (if e.kind == QueueStarted then [Status(e.item)] else if e.kind == TaskCompleted then [Step] else [])
    else []
  }

  function Reports(events: seq<Event>): seq<Message> {
    if events == [] then [] else Report(events[0]) + Reports(events[1..])
  }

  /** What run_installation sends to the progress queue. */
  function Progress(t: Tree): seq<Message>
    requires t.Queue?
  {
    [Init(TasksIn(t.items))] + Reports(Trace(t, [], true)) + if Halt(t, true) == None then [Complete] else []
  }

  function Steps(messages: seq<Message>): nat {
    if messages == [] then 0 else (if messages[0].Step? then 1 else 0) + Steps(messages[1..])
  }

  lemma {:induction false} StepsConcat(x: seq<Message>, y: seq<Message>)
    ensures Steps(x + y) == Steps(x) + Steps(y)
  {
    if x == [] {
      assert x + y == y;
    } else {
      assert (x + y)[1..] == x[1..] + y;
      StepsConcat(x[1..], y);
    }
  }

  /** A step is sent for each task one of the two queues hears complete. */
  lemma {:induction false} StepsHeard(events: seq<Event>)
    ensures Steps(Reports(events)) == |Heard(events, [0], TaskEnd)| + |Heard(events, [1], TaskEnd)|
    ensures forall m | m in Reports(events) :: m.Step? || m.Status?
  {
    if events != [] {
      StepsHeard(events[1..]);
      StepsConcat(Report(events[0]), Reports(events[1..]));
    }
  }

  /** Two queues at the top of an installation, and nothing else. */
  predicate IsInstallation(t: Tree) {
    t.Queue? && |t.items| == 2 && t.items[0].Queue? && t.items[1].Queue?
  }

  /** What the top-level queue hears complete is what its two queues hear, however the run ends. */
  lemma StepsAreTasks(t: Tree)
    requires IsInstallation(t)
    ensures var events := Trace(t, [], true);
            Heard(events, [], TaskEnd) == Heard(events, [0], TaskEnd) + Heard(events, [1], TaskEnd)
  {
    EveryQueueHears(t, [], TaskEnd);
    PartHears(t, 0);
    PartHears(t, 1);
    assert [] + [0] == [0] && [] + [1] == [1];
    var first, second := TaskPaths(t.items[0], [0]), TaskPaths(t.items[1], [1]);
    assert TaskPathsFrom(t.items, [], 1) == second + [];
    assert second + [] == second;
    KeptConcat(first, second, Halt(t, true), [], TaskEnd);
  }

  lemma PartHears(t: Tree, i: nat)
    requires IsInstallation(t) && i < 2
    ensures Heard(Trace(t, [], true), [i], TaskEnd) == Kept(TaskPaths(t.items[i], [i]), Halt(t, true), [], TaskEnd)
  {
    assert [i][1..] == [];
    EveryQueueHears(t, [i], TaskEnd);
    KeptAnywhere(TaskPaths(t.items[i], [i]), Halt(t, true), [i], [], TaskEnd);
  }

  /** The messages for what one of the two queues hears: a status for each queue that starts in it, a step for each task
      that completes in it. */
  function MessagesOf(notes: seq<Note>): seq<Message> {
    if notes == [] then []
    else
      (match notes[0].sort
       case QueueStart => [Status(notes[0].item)]
       case TaskEnd => [Step]
       case _ => []) + MessagesOf(notes[1..])
  }

  lemma {:induction false} MessagesConcat(x: seq<Note>, y: seq<Note>)
    ensures MessagesOf(x + y) == MessagesOf(x) + MessagesOf(y)
  {
    if x == [] {
      assert x + y == y;
    } else {
      assert (x + y)[1..] == x[1..] + y;
      MessagesConcat(x[1..], y);
    }
  }

  lemma {:induction false} ReportsConcat(x: seq<Event>, y: seq<Event>)
    ensures Reports(x + y) == Reports(x) + Reports(y)
  {
    if x == [] {
      assert x + y == y;
    } else {
      assert (x + y)[1..] == x[1..] + y;
      ReportsConcat(x[1..], y);
    }
  }

  lemma ReportOfNote(e: Event, i: nat)
    requires i < 2 && NoteOf(e, [1 - i]) == []
    ensures Report(e) == MessagesOf(NoteOf(e, [i]))
  {
    assert [i][0] != [1 - i][0];
  }

  /** Events of which only one of the two queues hears. */
  lemma {:induction false} ReportsOfPart(events: seq<Event>, i: nat)
    requires i < 2 && Notes(events, [1 - i]) == []
    ensures Reports(events) == MessagesOf(Notes(events, [i]))
  {
    if events != [] {
      var rest := events[1..];
      assert NoteOf(events[0], [1 - i]) == [] && Notes(rest, [1 - i]) == [];
      ReportsOfPart(rest, i);
      ReportOfNote(events[0], i);
      MessagesConcat(NoteOf(events[0], [i]), Notes(rest, [i]));
    }
  }

  lemma TopIsSilent(kind: Kind)
    requires Own(kind)
    ensures Reports(Cascade(kind, true, [], [])) == []
  {
    assert Cascade(kind, true, [], []) == [Emit(kind, [], [])];
    assert [Emit(kind, [], [])][1..] == [];
  }

  /** One of the two queues alone. */
  lemma PartReports(t: Tree, i: nat)
    requires IsInstallation(t) && i < 2
    ensures var events := Trace(t.items[i], [i], TasksIn(t.items) > 0);
            Reports(events) == MessagesOf(Notes(events, [i]))
  {
    var events := Trace(t.items[i], [i], TasksIn(t.items) > 0);
    assert [1 - i][0] != [i][0];
    NoNotes(t.items[i], [i], TasksIn(t.items) > 0, [1 - i]);
    ReportsOfPart(events, i);
  }

  /** The trace of an installation: its start, its first queue, its second if the run gets there, and its end. */
  lemma InstallationTrace(t: Tree)
    requires IsInstallation(t)
    ensures var counted := TasksIn(t.items) > 0;
            var first, second := Trace(t.items[0], [0], counted), Trace(t.items[1], [1], counted);
            var items := first + if Halt(t.items[0], counted).Some? then [] else second;
            && TraceFrom(t.items, [], 0, counted) == items
            && Trace(t, [], true) == Cascade(Started, true, [], []) + items +
                                     if Halt(t, true).Some? then [] else Cascade(Completed, true, [], [])
  {
    var counted := TasksIn(t.items) > 0;
    assert [] + [0] == [0] && [] + [1] == [1];
    assert TraceFrom(t.items, [], 2, counted) == [];
    assert TraceFrom(t.items, [], 1, counted) == Trace(t.items[1], [1], counted) + [];
    assert Trace(t.items[1], [1], counted) + [] == Trace(t.items[1], [1], counted);
  }

  lemma InstallationReports(t: Tree)
    requires IsInstallation(t)
    ensures var counted := TasksIn(t.items) > 0;
            Reports(Trace(t, [], true)) ==
            MessagesOf(Notes(Trace(t.items[0], [0], counted), [0])) +
            if Halt(t.items[0], counted).Some? then [] else MessagesOf(Notes(Trace(t.items[1], [1], counted), [1]))
  {
    var counted := TasksIn(t.items) > 0;
    var first, second := Trace(t.items[0], [0], counted), Trace(t.items[1], [1], counted);
    var rest := if Halt(t.items[0], counted).Some? then [] else second;
    InstallationTrace(t);
    ReportsOfParts(first, rest, if Halt(t, true).Some? then [] else Cascade(Completed, true, [], []));
    PartReports(t, 0);
    PartReports(t, 1);
  }

  lemma ReportsOfParts(first: seq<Event>, rest: seq<Event>, end: seq<Event>)
    requires end == [] || end == Cascade(Completed, true, [], [])
    ensures Reports(Cascade(Started, true, [], []) + (first + rest) + end) == Reports(first) + Reports(rest)
  {
    var start := Cascade(Started, true, [], []);
    ReportsConcat(start + (first + rest), end);
    ReportsConcat(start, first + rest);
    ReportsConcat(first, rest);
    TopIsSilent(Started);
    TopIsSilent(Completed);
  }

  /** Exactly which messages every run sends, in order: the number of steps; for the first queue and then for the
      second, a status for each queue in it that starts and a step for each task in it that completes, as far as the
      run gets; and complete, if it does. */
  lemma ProgressIs(t: Tree)
    requires IsInstallation(t)
    ensures Progress(t) ==
            [Init(TasksIn(t.items))] +
            (MessagesOf(Got(WalkBelow(t.items[0], [0]), Halt(t, true), [0])) +
             MessagesOf(Got(WalkBelow(t.items[1], [1]), Halt(t, true), [1]))) +
            if Halt(t, true) == None then [Complete] else []
  {
    InstallationReports(t);
    PartNotes(t);
    EveryQueueWalks(t, [0]);
    EveryQueueWalks(t, [1]);
    assert [0][1..] == [] && [1][1..] == [];
  }

  /** What each of the two queues hears, it hears of its own run. */
  lemma PartNotes(t: Tree)
    requires IsInstallation(t)
    ensures var counted := TasksIn(t.items) > 0;
            && Notes(Trace(t, [], true), [0]) == Notes(Trace(t.items[0], [0], counted), [0])
            && Notes(Trace(t, [], true), [1]) ==
               if Halt(t.items[0], counted).Some? then [] else Notes(Trace(t.items[1], [1], counted), [1])
  {
    var counted := TasksIn(t.items) > 0;
    var first, second := Trace(t.items[0], [0], counted), Trace(t.items[1], [1], counted);
    var rest := if Halt(t.items[0], counted).Some? then [] else second;
    var end := if Halt(t, true).Some? then [] else Cascade(Completed, true, [], []);
    InstallationTrace(t);
    assert [1][0] != [0][0];
    NoNotes(t.items[0], [0], counted, [1]);
    NoNotes(t.items[1], [1], counted, [0]);
    NotesOfParts(first, rest, end, [0]);
    NotesOfParts(first, rest, end, [1]);
  }

  lemma NotesOfParts(first: seq<Event>, rest: seq<Event>, end: seq<Event>, a: Path)
    requires a != [] && (end == [] || end == Cascade(Completed, true, [], []))
    ensures Notes(Cascade(Started, true, [], []) + (first + rest) + end, a) == Notes(first, a) + Notes(rest, a)
  {
    var start := Cascade(Started, true, [], []);
    NotesConcat(start + (first + rest), end, a);
    NotesConcat(start, first + rest, a);
    NotesConcat(first, rest, a);
    NotesCascade(Started, true, [], a);
    NotesCascade(Completed, true, [], a);
  }

  /** A successful run sends init with the number of tasks, exactly that many steps, and complete at the end. */
  lemma ProgressOfSuccess(t: Tree)
    requires IsInstallation(t) && Countable(t) && forall q :: !Raises(t, q)
    ensures var messages := Progress(t);
            && messages[0] == Init(TasksIn(t.items)) && messages[|messages| - 1] == Complete
            && Steps(messages) == TasksIn(t.items)
            && forall m | m in messages[1..|messages| - 1] :: m.Step? || m.Status?
  {
    CompleteRun(t);
    CompleteRunCounts(t);
    StepsOfRun(t);
    var middle := Reports(Trace(t, [], true));
    assert Progress(t)[1..|Progress(t)| - 1] == middle;
  }

  /** A run that is cut short sends a step for each task before the one, or the queue, at which it stops, and never
      complete. */
  lemma ProgressOfFailure(t: Tree)
    requires IsInstallation(t) && Halt(t, true).Some?
    ensures var messages := Progress(t);
            && messages[0] == Init(TasksIn(t.items)) && Complete !in messages
            && Steps(messages) == |Kept(TaskPaths(t, []), Halt(t, true), [], TaskEnd)|
  {
    EveryQueueHears(t, [], TaskEnd);
    StepsOfRun(t);
  }

  /** When it stops at a task, as many steps are sent as there are tasks before that one. */
  lemma StepsOfFailure(t: Tree)
    requires IsInstallation(t) && Halt(t, true).Some? && IsTask(t, Halt(t, true).value)
    ensures var n := Steps(Progress(t));
            n < |TaskPaths(t, [])| == TasksIn(t.items) && TaskPaths(t, [])[n] == Halt(t, true).value
  {
    StoppedRun(t);
    StepsOfRun(t);
    TaskPathsComplete(t, []);
  }

  lemma StepsOfRun(t: Tree)
    requires IsInstallation(t)
    ensures Steps(Progress(t)) == |Heard(Trace(t, [], true), [], TaskEnd)|
    ensures forall m | m in Reports(Trace(t, [], true)) :: m.Step? || m.Status?
  {
    var middle := Reports(Trace(t, [], true));
    var last := if Halt(t, true) == None then [Complete] else [];
    StepsConcat([Init(TasksIn(t.items))] + middle, last);
    StepsConcat([Init(TasksIn(t.items))], middle);
    StepsHeard(Trace(t, [], true));
    StepsAreTasks(t);
  }

  // ---------------------------------------------------------------- the whole run

  /** The name of the queue that run_installation makes. */
  const TOP := "Complete installation queue"

  /** run_installation: build the queue of both parts, report the number of steps, log its contents and its
      progress while it runs, and report the end. */
  method RunInstallation(installation: Tree, configuration: Tree, ghost journal: InstallationTasks.Journal)
    returns (ok: bool, summary: string, ghost log: Option<seq<Line>>, ghost messages: seq<Message>)
    requires installation.Queue? && configuration.Queue? && journal.events == []
    modifies journal
    ensures var t := Queue(TOP, [installation, configuration]);
            && ok == (Halt(t, true) == None) && journal.events == Trace(t, [], true)
            && summary == TaskSummary.Summary(t, true)
            && log == RunLog(t) && messages == Progress(t)
  {
    ghost var t := Queue(TOP, [installation, configuration]);
    var queue, w := TreeBuilding.Build(Queue(TOP, [installation, configuration]), journal);
    var steps, queues;
    steps, queues, summary := Measure(queue, t, w);
    ok := TreeBuilding.StartTop(queue, t, w);
    log := Log(journal.events, Tally(queues, steps, steps), Tally(1, 1, 1));
    messages := [Init(steps)] + Reports(journal.events) + if ok then [Complete] else [];
  }

  /** The three properties of the queue that are read before it is started. */
  method Measure(queue: InstallationTasks.Item, ghost t: Tree, ghost w: InstallationTasks.World)
    returns (steps: nat, queues: nat, summary: string)
    requires t.Queue? && TreeBuilding.FreshTree(w, t, queue, w.journal)
    ensures TreeBuilding.FreshTree(w, t, queue, w.journal)
    ensures steps == TasksIn(t.items) && queues == QueuesIn(t.items) && summary == TaskSummary.Summary(t, true)
  {
    assert InstallationTasks.LocallyWired(w, [], queue);
    steps := queue.TaskCount(w, []);
    InstallationTasks.StillWired(w);
    queues := CountQueues(queue, t, w);
    summary := queue.Summary(w, []);
    InstallationTasks.StillWired(w);
  }

  method CountQueues(queue: InstallationTasks.Item, ghost t: Tree, ghost w: InstallationTasks.World)
    returns (queues: nat)
    requires t.Queue? && queue.isQueue && TreeBuilding.FreshTree(w, t, queue, w.journal)
    ensures TreeBuilding.FreshTree(w, t, queue, w.journal) && queues == QueuesIn(t.items)
  {
    queues := queue.QueueCount(w, []);
    InstallationTasks.StillWired(w);
  }
}
