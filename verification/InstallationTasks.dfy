/** Signals, tasks and task queues as objects, and the run of a task tree proved against TaskTree. */
module InstallationTasks {
  import opened Prelude
  import opened TaskTree
  import opened RunOrder
  import opened TaskWalks
  import opened TaskRuns
  import opened RunTallies
  import Text
  import TaskSummary

  /** A slot connected to a signal: a plain function, another signal's emit method, or one of the two
      counting methods of a task queue. */
  datatype Slot =
    | Function(id: nat)
    | Relay(target: Signal)
    | CountTask(queue: Item)
    | CountQueue(queue: Item)

  predicate IsMethod(s: Slot) {
    !s.Function?
  }

  function With(methods: seq<Slot>, s: Slot): seq<Slot> {
    if s in methods then methods else methods + [s]
  }

  /** The methods left after taking one out. */
  function Without(methods: seq<Slot>, s: Slot): seq<Slot>
  {
    if methods == [] then []
    else if methods[0] == s then Without(methods[1..], s)
    else [methods[0]] + Without(methods[1..], s)
  }

  /** The emissions so far, in order. Every function connected to a signal is called once for each of
      the signal's emissions, so the history of a signal is what its functions saw. */
  class Journal {
    ghost var events: seq<Event>
  }

  /** A tree of items as they sit in the heap: `at` maps each path of `t` to its object and `place`
      maps each object back. */
  datatype World = World(t: Tree, at: map<Path, Item>, place: map<Item, Path>, journal: Journal)

  class Signal {
    var functions: set<nat>
    var methods: seq<Slot>
    ghost const kind: Kind
    ghost var owner: Item?

    constructor (ghost kind: Kind)
      ensures functions == {} && methods == []
      ensures this.kind == kind && owner == null
    {
      functions, methods, owner := {}, [], null;
      this.kind := kind;
    }

    method Connect(s: Slot)
      modifies this`functions, this`methods
      ensures functions == if IsMethod(s) then old(functions) else old(functions) + {s.id}
      ensures methods == if IsMethod(s) then With(old(methods), s) else old(methods)
    {
      if IsMethod(s) {
        if s !in methods {
          methods := methods + [s];
        }
      } else {
        functions := functions + {s.id};
      }
    }

    method Disconnect(s: Slot)
      modifies this`functions, this`methods
      ensures functions == if IsMethod(s) then old(functions) else old(functions) - {s.id}
      ensures methods == if IsMethod(s) then Without(old(methods), s) else old(methods)
    {
      if IsMethod(s) {
        methods := Without(methods, s);
      } else if s.id in functions {
        functions := functions - {s.id};
      }
    }

    /** Call everything connected to this signal. The result is false when a callback raised. */
    method Emit(x: Item, ghost w: World, ghost a: Path, ghost px: Path) returns (ok: bool)
      requires Wired(w) && a in w.at && this == w.at[a].SignalOf(kind)
      requires px in w.at && x == w.at[px] && (Own(kind) ==> px == a) && CanTell(kind, x)
      requires Numbered(w, w.journal.events)
      requires Climbing(w, kind, a)
      modifies w.at.Values`taskNumber, w.at.Values`queueNumber, w.journal`events
      ensures Wired(w)
      ensures Numbered(w, w.journal.events)
      ensures ok == !Blocked(w.t, kind, a)
      ensures w.journal.events == old(w.journal.events) +
                                  if ok then Cascade(kind, w.at[a].isQueue, a, px)
                                  else Cut(kind, w.at[a].isQueue, a, px)
      decreases |a|, if Own(kind) then 1 else 0, 1
    {
      ghost var before := w.journal.events;
      w.journal.events := before + [TaskTree.Emit(kind, a, px)];
      BeginEmission(w, kind, a, px, before);
      var slots := methods;
      var i := 0;
      while i < |slots|
        invariant 0 <= i <= |slots|
        invariant Wired(w)
        invariant Reached(w, kind, a, px, before, i)
      {
        ok := Call(slots[i], x, w, a, px, before, i);
        if !ok {
          return;
        }
        i := i + 1;
      }
      ok := true;
      EndEmission(w, kind, a, px, before, i);
    }

    /** Call one connected method: count in the queue this signal belongs to, or emit in the queue above. */
    method Call(s: Slot, x: Item, ghost w: World, ghost a: Path, ghost px: Path, ghost before: seq<Event>, ghost i: nat)
      returns (ok: bool)
      requires Wired(w) && a in w.at && this == w.at[a].SignalOf(kind) && (w.at[a].isQueue || Own(kind))
      requires i < |methods| && s == methods[i]
      requires px in w.at && x == w.at[px] && (Own(kind) ==> px == a) && CanTell(kind, x)
      requires Reached(w, kind, a, px, before, i)
      requires Climbing(w, kind, a)
      modifies w.at.Values`taskNumber, w.at.Values`queueNumber, w.journal`events
      ensures Wired(w)
      ensures ok ==> Reached(w, kind, a, px, before, i + 1)
      ensures !ok ==> Interrupted(w, kind, a, px, before)
      decreases |a|, if Own(kind) then 1 else 0, 0
    {
      SlotShape(w, kind, a);
      if s.Relay? {
        RelayReady(w, kind, a);
        SlotShape(w, Lift(kind, w.at[a].isQueue), Front(a));
        ok := s.target.Emit(x, w, Front(a), px);
        if ok {
          RelayDone(w, kind, a, px, before, i);
        }
      } else {
        ok := Advance(s, w, a, px, before);
      }
    }

    method Advance(s: Slot, ghost w: World, ghost a: Path, ghost px: Path, ghost before: seq<Event>) returns (ok: bool)
      requires Wired(w) && a in w.at && w.at[a].isQueue && Counts(kind)
      requires s == if kind.TaskStarted? then CountTask(w.at[a]) else CountQueue(w.at[a])
      requires Reached(w, kind, a, px, before, 0)
      requires RunningUpTo(w, a)
      modifies w.at.Values`taskNumber, w.at.Values`queueNumber
      ensures Wired(w)
      ensures ok ==> Reached(w, kind, a, px, before, 1)
      ensures !ok ==> Interrupted(w, kind, a, px, before)
    {
      if s.CountTask? {
        ok := s.queue.TaskStartedCallback();
      } else {
        ok := s.queue.QueueStartedCallback();
      }
      StillWired(w);
      Counted(Emission(w, kind, a, px, before));
    }
  }

  class Item {
    const isQueue: bool
    const name: string
    const work: Work
    var running: bool
    var done: bool
    var parent: Item?
    var list: seq<Item>
    var taskNumber: Option<int>
    var queueNumber: Option<int>
    const started: Signal
    const completed: Signal
    const queueStarted: Signal
    const queueCompleted: Signal
    const taskStarted: Signal
    const taskCompleted: Signal

    ghost function SignalOf(kind: Kind): Signal {
      match kind
      case Started => started
      case Completed => completed
      case QueueStarted => queueStarted
      case QueueCompleted => queueCompleted
      case TaskStarted => taskStarted
      case TaskCompleted => taskCompleted
    }

    ghost function Signals(): set<Signal> {
      {started, completed, queueStarted, queueCompleted, taskStarted, taskCompleted}
    }

    /** Each signal knows which of the six it is, so no two are the same object. */
    ghost predicate Labelled() {
      && started.kind == Started && completed.kind == Completed
      && queueStarted.kind == QueueStarted && queueCompleted.kind == QueueCompleted
      && taskStarted.kind == TaskStarted && taskCompleted.kind == TaskCompleted
    }

    constructor (isQueue: bool, name: string, work: Work)
      ensures this.isQueue == isQueue && this.name == name && this.work == work
      ensures !running && !done && parent == null && list == [] && taskNumber == None && queueNumber == None
      ensures forall k: Kind :: fresh(SignalOf(k)) && SignalOf(k).kind == k && SignalOf(k).owner == this
      ensures forall k: Kind :: SignalOf(k).methods == if isQueue then Counter(this, k) else []
    {
      this.isQueue, this.name, this.work := isQueue, name, work;
      running, done, parent, list := false, false, null, [];
      taskNumber, queueNumber := None, None;
      started := new Signal(Started);
      completed := new Signal(Completed);
      queueStarted := new Signal(QueueStarted);
      queueCompleted := new Signal(QueueCompleted);
      taskStarted := new Signal(TaskStarted);
      taskCompleted := new Signal(TaskCompleted);
      new;
      started.owner, completed.owner := this, this;
      queueStarted.owner, queueCompleted.owner := this, this;
      taskStarted.owner, taskCompleted.owner := this, this;
      if isQueue {
        queueStarted.Connect(CountQueue(this));
        taskStarted.Connect(CountTask(this));
      }
    }

    /** Whether the item's signal takes part in the wiring to a parent queue. */
    predicate Relays(kind: Kind) {
      isQueue || Own(kind)
    }

    /** The parent setter: leave the previous parent, then connect to the new one. */
    method SetParent(queue: Item)
      requires Labelled()
      modifies this`parent, Signals()`methods, Signals()`functions
      ensures parent == queue
      ensures forall k: Kind :: SignalOf(k).methods ==
                                if Relays(k) then Rewired(this, k, old(parent), queue, old(SignalOf(k).methods))
                                else old(SignalOf(k).methods)
    {
      if parent != null {
        DisconnectFrom(parent);
      }
      parent := queue;
      ConnectTo(queue);
    }

    method DisconnectFrom(queue: Item)
      requires Labelled()
      modifies Signals()`methods, Signals()`functions
      ensures forall k: Kind :: SignalOf(k).methods ==
                                if Relays(k)
                                then Without(old(SignalOf(k).methods), Relay(queue.SignalOf(Lift(k, isQueue))))
                                else old(SignalOf(k).methods)
    {
      if isQueue {
        started.Disconnect(Relay(queue.queueStarted));
        completed.Disconnect(Relay(queue.queueCompleted));
        DisconnectNested(queue);
      } else {
        started.Disconnect(Relay(queue.taskStarted));
        completed.Disconnect(Relay(queue.taskCompleted));
      }
    }

    method DisconnectNested(queue: Item)
      requires Labelled()
      modifies Signals()`methods, Signals()`functions
      ensures forall k: Kind :: SignalOf(k).methods ==
                                if Own(k) then old(SignalOf(k).methods)
                                else Without(old(SignalOf(k).methods), Relay(queue.SignalOf(k)))
    {
      queueStarted.Disconnect(Relay(queue.queueStarted));
      queueCompleted.Disconnect(Relay(queue.queueCompleted));
      taskStarted.Disconnect(Relay(queue.taskStarted));
      taskCompleted.Disconnect(Relay(queue.taskCompleted));
    }

    method ConnectTo(queue: Item)
      requires Labelled()
      modifies Signals()`methods, Signals()`functions
      ensures forall k: Kind :: SignalOf(k).methods ==
                                if Relays(k)
                                then With(old(SignalOf(k).methods), Relay(queue.SignalOf(Lift(k, isQueue))))
                                else old(SignalOf(k).methods)
    {
      if isQueue {
        started.Connect(Relay(queue.queueStarted));
        completed.Connect(Relay(queue.queueCompleted));
        ConnectNested(queue);
      } else {
        started.Connect(Relay(queue.taskStarted));
        completed.Connect(Relay(queue.taskCompleted));
      }
    }

    method ConnectNested(queue: Item)
      requires Labelled()
      modifies Signals()`methods, Signals()`functions
      ensures forall k: Kind :: SignalOf(k).methods ==
                                if Own(k) then old(SignalOf(k).methods)
                                else With(old(SignalOf(k).methods), Relay(queue.SignalOf(k)))
    {
      queueStarted.Connect(Relay(queue.queueStarted));
      queueCompleted.Connect(Relay(queue.queueCompleted));
      taskStarted.Connect(Relay(queue.taskStarted));
      taskCompleted.Connect(Relay(queue.taskCompleted));
    }

    /** insert: a negative index counts from the end, and an index out of range is clamped. */
    method Insert(index: int, item: Item)
      requires item != this
      requires item.Labelled()
      modifies this`list, item`parent, item.Signals()`methods, item.Signals()`functions
      ensures var c := Clamp(index, |old(list)|);
              list == old(list)[..c] + [item] + old(list)[c..]
      ensures item.parent == this
      ensures forall k: Kind :: item.SignalOf(k).methods ==
                                if item.Relays(k)
                                then Rewired(item, k, old(item.parent), this, old(item.SignalOf(k).methods))
                                else old(item.SignalOf(k).methods)
    {
      item.SetParent(this);
      var c := Clamp(index, |list|);
      list := list[..c] + [item] + list[c..];
    }

    /** append */
    method Append(item: Item)
      requires item != this
      requires item.Labelled()
      modifies this`list, item`parent, item.Signals()`methods, item.Signals()`functions
      ensures list == old(list) + [item]
      ensures item.parent == this
      ensures forall k: Kind :: item.SignalOf(k).methods ==
                                if item.Relays(k)
                                then Rewired(item, k, old(item.parent), this, old(item.SignalOf(k).methods))
                                else old(item.SignalOf(k).methods)
    {
      item.SetParent(this);
      list := list + [item];
    }

    /** _task_started_cb: adding one to a number that was never set raises. */
    method TaskStartedCallback() returns (ok: bool)
      modifies this`taskNumber
      ensures ok == old(taskNumber).Some?
      ensures taskNumber == if ok then Some(old(taskNumber).value + 1) else None
    {
      if taskNumber == None {
        return false;
      }
      taskNumber := Some(taskNumber.value + 1);
      ok := true;
    }

    /** _queue_started_cb */
    method QueueStartedCallback() returns (ok: bool)
      modifies this`queueNumber
      ensures ok == old(queueNumber).Some?
      ensures queueNumber == if ok then Some(old(queueNumber).value + 1) else None
    {
      if queueNumber == None {
        return false;
      }
      queueNumber := Some(queueNumber.value + 1);
      ok := true;
    }

    /** task_count */
    method TaskCount(ghost w: World, ghost p: Path) returns (n: nat)
      requires Wired(w) && p in w.at && this == w.at[p] && isQueue
      ensures n == Tasks(Sub(w.t, p))
      decreases Sub(w.t, p)
    {
      LocalWiring(w, p);
      ghost var items := Sub(w.t, p).items;
      n := 0;
      for i := 0 to |list|
        invariant Wired(w)
        invariant n + TasksIn(items[i..]) == TasksIn(items)
      {
        ItemWiring(w, p, i);
        assert items[i..][1..] == items[i + 1..];
        if list[i].isQueue {
          var inner := list[i].TaskCount(w, p + [i]);
          n := n + inner;
        } else {
          n := n + 1;
        }
        StillWired(w);
      }
    }

    /** queue_count */
    method QueueCount(ghost w: World, ghost p: Path) returns (n: nat)
      requires Wired(w) && p in w.at && this == w.at[p] && isQueue
      ensures 1 + n == Queues(Sub(w.t, p))
      decreases Sub(w.t, p)
    {
      LocalWiring(w, p);
      ghost var items := Sub(w.t, p).items;
      n := 0;
      for i := 0 to |list|
        invariant Wired(w)
        invariant n + QueuesIn(items[i..]) == QueuesIn(items)
      {
        ItemWiring(w, p, i);
        assert items[i..][1..] == items[i + 1..];
        if list[i].isQueue {
          var inner := list[i].QueueCount(w, p + [i]);
          n := n + 1 + inner;
        }
        StillWired(w);
      }
    }

    /** summary */
    method Summary(ghost w: World, ghost p: Path) returns (s: string)
      requires Wired(w) && p in w.at && this == w.at[p]
      ensures s == TaskSummary.Summary(Sub(w.t, p), p == [])
      decreases Sub(w.t, p), 1
    {
      LocalWiring(w, p);
      if !isQueue {
        return "Task: " + name;
      }
      if parent == null {
        s := TopHeader(w, p);
      } else {
        s := "Task queue: " + name + "\n";
      }
      StillWired(w);
      var body := ItemLines(w, p);
      s := s + body;
      if parent == null {
        s := Text.StripNewlines(s);
      }
    }

    method TopHeader(ghost w: World, ghost p: Path) returns (s: string)
      requires Wired(w) && p in w.at && this == w.at[p] && isQueue
      ensures Sub(w.t, p).Queue? && s == TaskSummary.TopHeader(Sub(w.t, p))
    {
      LocalWiring(w, p);
      s := "Top-level task queue: " + name + "\n";
      var queues := QueueCount(w, p);
      s := s + ("Number of task queues: " + Text.Decimal(queues)) + "\n";
      StillWired(w);
      var tasks := TaskCount(w, p);
      s := s + ("Number of tasks: " + Text.Decimal(tasks)) + "\n";
      s := s + "Task & task group listing:" + "\n";
    }

    /** The lines of the items' summaries, each indented by one space. */
    method ItemLines(ghost w: World, ghost p: Path) returns (s: string)
      requires Wired(w) && p in w.at && this == w.at[p] && isQueue
      ensures Sub(w.t, p).Queue? && s == TaskSummary.ItemLines(Sub(w.t, p).items)
      decreases Sub(w.t, p), 0
    {
      LocalWiring(w, p);
      ghost var items := Sub(w.t, p).items;
      s := "";
      for i := 0 to |list|
        invariant Wired(w)
        invariant s + TaskSummary.ItemLines(items[i..]) == TaskSummary.ItemLines(items)
      {
        ItemWiring(w, p, i);
        assert items[i..][1..] == items[i + 1..];
        var inner := list[i].Summary(w, p + [i]);
        var lines := IndentLines(Text.SplitLines(inner));
        TextAssoc(s, lines, TaskSummary.ItemLines(items[i + 1..]));
        s := s + lines;
        StillWired(w);
      }
    }

    static method IndentLines(lines: seq<string>) returns (s: string)
      ensures s == TaskSummary.IndentedLines(lines)
    {
      s := "";
      for j := 0 to |lines|
        invariant s + TaskSummary.IndentedLines(lines[j..]) == TaskSummary.IndentedLines(lines)
      {
        assert lines[j..][1..] == lines[j + 1..];
        TextAssoc(s, " " + lines[j] + "\n", TaskSummary.IndentedLines(lines[j + 1..]));
        s := s + (" " + lines[j] + "\n");
      }
    }

    /** run_task: the result is false when the exception of the callable is raised again. */
    method RunTask(ghost w: World, ghost p: Path) returns (ok: bool)
      requires Wired(w) && Numbered(w, w.journal.events)
      modifies w.journal`events
      ensures Wired(w) && Numbered(w, w.journal.events)
      ensures w.journal.events == old(w.journal.events) + [Run(p, work != NotSet)]
      ensures ok <==> work != Fails(ErrorRaise)
    {
      NumberedMore(w, w.journal.events, Run(p, work != NotSet));
      w.journal.events := w.journal.events + [Run(p, work != NotSet)];
      StillWired(w);
      match work
      case NotSet => ok := true;
      case Returns => ok := true;
      case Fails(resolution) => ok := resolution != ErrorRaise;
    }

    /** start. The result is false when an exception left the method. */
    method Start(ghost w: World, ghost p: Path) returns (ok: bool)
      requires Wired(w) && p in w.at && this == w.at[p]
      requires Numbered(w, w.journal.events)
      requires running || done || Startable(w, p)
      modifies w.at.Values`running, w.at.Values`done, w.at.Values`taskNumber, w.at.Values`queueNumber, w.journal`events
      ensures Wired(w) && Numbered(w, w.journal.events)
      ensures if old(running || done)
              then ok && w.journal.events == old(w.journal.events) && forall x | x in w.at.Values :: unchanged(x)
              else Ran(w, p, old(w.journal.events), ok) && AllCount(w, Uncounted(w.t, p))
      decreases Sub(w.t, p), 3
    {
      if running || done {
        ok := true;
        return;
      }
      ghost var before := w.journal.events;
      if isQueue {
        ok := StartQueue(w, p);
      } else {
        ok := StartTask(w, p);
      }
      RanCounts(w, p, before, ok);
    }

    method StartTask(ghost w: World, ghost p: Path) returns (ok: bool)
      requires Wired(w) && p in w.at && this == w.at[p] && !isQueue
      requires Numbered(w, w.journal.events)
      requires !running && !done && Startable(w, p)
      modifies w.at.Values`running, w.at.Values`done, w.at.Values`taskNumber, w.at.Values`queueNumber, w.journal`events
      ensures Wired(w) && Numbered(w, w.journal.events)
      ensures Ran(w, p, old(w.journal.events), ok)
      decreases Sub(w.t, p), 0
    {
      ghost var before := w.journal.events;
      BeforeStart(w, p);
      TaskCounted(w, p);
      running := true;
      BeginItem(Place(w, p));
      ok := started.Emit(this, w, p, p);
      ok := RunAndComplete(w, p, before);
    }

    /** The second half of a task's start, after its started signal. */
    method RunAndComplete(ghost w: World, ghost p: Path, ghost before: seq<Event>) returns (ok: bool)
      requires Wired(w) && p in w.at && this == w.at[p] && !isQueue
      requires Numbered(w, w.journal.events) && Begun(w, p) && Climbing(w, Completed, p)
      requires Tallied(w.t, Arriving(p), before) && w.journal.events == before + Cascade(Started, false, p, p)
      modifies w.at.Values`running, w.at.Values`done, w.at.Values`taskNumber, w.at.Values`queueNumber, w.journal`events
      ensures Wired(w) && Numbered(w, w.journal.events)
      ensures Ran(w, p, before, ok)
    {
      DuringTask(w, p);
      ok := RunTask(w, p);
      if !ok {
        TaskStops(w, p, before);
        return;
      }
      ok := completed.Emit(this, w, p, p);
      TaskAlone(w, p);
      label Completed:
      running, done := false, true;
      EndItem@Completed(Place(w, p));
      TaskEnds(w, p, before);
    }

    method StartQueue(ghost w: World, ghost p: Path) returns (ok: bool)
      requires Wired(w) && p in w.at && this == w.at[p] && isQueue
      requires Numbered(w, w.journal.events)
      requires !running && !done && Startable(w, p)
      modifies w.at.Values`running, w.at.Values`done, w.at.Values`taskNumber, w.at.Values`queueNumber, w.journal`events
      ensures Wired(w) && Numbered(w, w.journal.events)
      ensures Ran(w, p, old(w.journal.events), ok)
      decreases Sub(w.t, p), 2
    {
      ghost var before := w.journal.events;
      MarkRunning(w, p);
      ok := started.Emit(this, w, p, p);
      if !ok {
        QueueBlocked(w, p, before);
        return;
      }
      QueueEntered(w, p);
      ok := StartItems(w, p, before);
    }

    /** The locked part of a queue's start. */
    method MarkRunning(ghost w: World, ghost p: Path)
      requires Wired(w) && p in w.at && this == w.at[p] && isQueue
      requires Numbered(w, w.journal.events)
      requires !running && !done && Startable(w, p)
      modifies w.at.Values`running, w.at.Values`done, w.at.Values`taskNumber, w.at.Values`queueNumber
      ensures Wired(w) && Numbered(w, w.journal.events)
      ensures Begun(w, p) && Climbing(w, Started, p) && started.kind == Started
      ensures running
      ensures (taskNumber, queueNumber) == if Tasks(Sub(w.t, p)) > 0 then (Some(0), Some(0)) else (None, None)
    {
      BeforeStart(w, p);
      running := true;
      var n := TaskCount(w, p);
      if n > 0 {
        taskNumber, queueNumber := Some(0), Some(0);
      } // an empty task queue is only logged
      BeginItem(Place(w, p));
    }

    /** The second half of a queue's start, after its started signal. */
    method StartItems(ghost w: World, ghost p: Path, ghost before: seq<Event>) returns (ok: bool)
      requires Wired(w) && p in w.at && this == w.at[p] && isQueue
      requires Numbered(w, w.journal.events) && Begun(w, p)
      requires ParentCounted(w.t, p) && CountedAbove(w, p)
      requires Tallied(w.t, Arriving(p), before) && w.journal.events == before + Cascade(Started, true, p, p)
      modifies w.at.Values`running, w.at.Values`done, w.at.Values`taskNumber, w.at.Values`queueNumber, w.journal`events
      ensures Wired(w) && Numbered(w, w.journal.events)
      ensures Ran(w, p, before, ok)
      decreases Sub(w.t, p), 1
    {
      FirstItem(w, p, before);
      ghost var begun := w.journal.events;
      var i := 0;
      while i < |list|
        invariant 0 <= i <= |list|
        invariant Wired(w) && Numbered(w, w.journal.events)
        invariant ItemsDone(w, p, begun, i)
      {
        ok := StartItem(i, w, p, before, begun);
        if !ok {
          return;
        }
        i := i + 1;
      }
      ok := CompleteQueue(w, p, before, begun);
    }

    method StartItem(i: nat, ghost w: World, ghost p: Path, ghost before: seq<Event>, ghost begun: seq<Event>)
      returns (ok: bool)
      requires Wired(w) && p in w.at && this == w.at[p] && isQueue && i < |list|
      requires Numbered(w, w.journal.events) && ItemsDone(w, p, begun, i)
      requires ParentCounted(w.t, p) && CountedAbove(w, p)
      requires begun == before + Cascade(Started, true, p, p)
      modifies w.at.Values`running, w.at.Values`done, w.at.Values`taskNumber, w.at.Values`queueNumber, w.journal`events
      ensures Wired(w) && Numbered(w, w.journal.events)
      ensures if ok then ItemsDone(w, p, begun, i + 1) else Ran(w, p, before, false)
      decreases Sub(w.t, p), 0
    {
      ItemReady(w, p, i);
      ghost var sofar := w.journal.events;
      ok := list[i].Start(w, p + [i]);
      if ok {
        ItemDone(w, p, begun, sofar, i);
      } else {
        ItemStops(w, p, before, begun, sofar, i);
      }
    }

    method CompleteQueue(ghost w: World, ghost p: Path, ghost before: seq<Event>, ghost begun: seq<Event>)
      returns (ok: bool)
      requires Wired(w) && p in w.at && this == w.at[p] && isQueue
      requires Numbered(w, w.journal.events) && ItemsDone(w, p, begun, |list|)
      requires ParentCounted(w.t, p) && CountedAbove(w, p)
      requires begun == before + Cascade(Started, true, p, p)
      modifies w.at.Values`running, w.at.Values`done, w.at.Values`taskNumber, w.at.Values`queueNumber, w.journal`events
      ensures Wired(w) && Numbered(w, w.journal.events)
      ensures Ran(w, p, before, ok)
    {
      ItemsFinishing(w, p, begun);
      running, done := false, true;
      taskNumber, queueNumber := None, None;
      EndItem(Place(w, p));
      ghost var now := w.journal.events;
      ok := completed.Emit(this, w, p, p);
      QueueEnds(w, p, before, now);
    }
  }

  /** What everything that is connected to a signal finds when it is told of an item: an item starts while it runs; a
      task completes while it still runs, a queue when it is done. A queue that is done has no numbers (Numbered). */
  predicate CanTell(kind: Kind, x: Item)
    reads x`running, x`done
  {
    match kind
    case Started => x.running && !x.done
    case TaskStarted => !x.isQueue && x.running && !x.done
    case QueueStarted => x.isQueue && x.running && !x.done
    case Completed => if x.isQueue then !x.running && x.done else x.running && !x.done
    case TaskCompleted => !x.isQueue && x.running && !x.done
    case QueueCompleted => x.isQueue && !x.running && x.done
  }

  lemma TextAssoc(a: string, b: string, c: string)
    ensures a + b + c == a + (b + c)
  {
  }

  // ---------------------------------------------------------------- the wiring

  ghost function SignalsOf(items: set<Item>): set<Signal> {
    set x: Item, k: Kind | x in items :: x.SignalOf(k)
  }

  /** What a signal of an item relays to: the matching signal of the parent queue, if any. */
  ghost function Up(x: Item, kind: Kind): seq<Slot>
    reads x`parent
  {
    if x.parent == null then [] else [Relay(x.parent.SignalOf(Lift(kind, x.isQueue)))]
  }

  /** The two kinds of signal that advance the numbers of the queue they belong to. */
  predicate Counts(kind: Kind) {
    kind.TaskStarted? || kind.QueueStarted?
  }

  ghost function Counter(x: Item, kind: Kind): seq<Slot> {
    match kind
    case TaskStarted => [CountTask(x)]
    case QueueStarted => [CountQueue(x)]
    case _ => []
  }

  /** The methods of a signal after its item moved from one parent to another. */
  ghost function Rewired(x: Item, kind: Kind, before: Item?, queue: Item, methods: seq<Slot>): seq<Slot> {
    var up := Lift(kind, x.isQueue);
    With(if before == null then methods else Without(methods, Relay(before.SignalOf(up))), Relay(queue.SignalOf(up)))
  }

  /** Where list.insert puts an item in a list of n. */
  function Clamp(index: int, n: nat): (c: nat)
    ensures 0 <= index <= n ==> c == index
    ensures index < 0 <= n + index ==> c == n + index
    ensures index > n ==> c == n
    ensures n + index < 0 ==> c == 0
  {
    if index < 0 then (if index + n < 0 then 0 else index + n) else if index > n then n else index
  }

  ghost predicate SignalWired(x: Item, kind: Kind)
    reads x`parent, x.SignalOf(kind)`methods, x.SignalOf(kind)`owner
  {
    var s := x.SignalOf(kind);
    s.owner == x && s.kind == kind &&
    (x.isQueue || Own(kind) ==> s.methods == Counter(x, kind) + Up(x, kind))
  }

  ghost predicate LocallyWired(w: World, p: Path, x: Item)
    requires Has(w.t, p)
    reads x`parent, x`list, SignalsOf({x})`methods, SignalsOf({x})`owner
  {
    var n := Sub(w.t, p);
    && x in w.place && w.place[x] == p
    && x.isQueue == n.Queue? && x.name == n.name
    && (n.Task? ==> x.work == n.work)
    && (n.Queue? ==> |x.list| == |n.items| &&
                     forall i: nat :: i < |n.items| ==> p + [i] in w.at && x.list[i] == w.at[p + [i]])
    && (if p == [] then x.parent == null else Front(p) in w.at && x.parent == w.at[Front(p)])
    && forall k: Kind :: SignalWired(x, k)
  }

  ghost predicate Wired(w: World)
    reads w.at.Values`parent, w.at.Values`list, SignalsOf(w.at.Values)`methods, SignalsOf(w.at.Values)`owner
  {
    (forall p: Path :: p in w.at <==> Has(w.t, p)) &&
    forall p: Path {:trigger LocallyWired(w, p, w.at[p])} :: p in w.at ==> LocallyWired(w, p, w.at[p])
  }

  lemma LocalWiring(w: World, a: Path)
    requires Wired(w) && a in w.at
    ensures Has(w.t, a) && LocallyWired(w, a, w.at[a])
    ensures forall k: Kind :: w.at[a].SignalOf(k).kind == k
    ensures a != [] ==> Front(a) in w.at && Sub(w.t, Front(a)).Queue? && Front(a) < a
  {
    assert LocallyWired(w, a, w.at[a]);
    forall k: Kind ensures w.at[a].SignalOf(k).kind == k {
      assert SignalWired(w.at[a], k);
    }
    if a != [] {
      SubFront(w.t, a);
    }
  }

  /** Running the items changes none of the wiring. */
  twostate lemma StillWired(w: World)
    requires old(Wired(w))
    requires forall x | x in w.at.Values :: old(x.parent) == x.parent && old(x.list) == x.list
    requires forall s | s in SignalsOf(w.at.Values) :: old(s.methods) == s.methods && old(s.owner) == s.owner
    ensures Wired(w)
  {
  }

  // ---------------------------------------------------------------- the numbers

  /** How often the signal `kind` of the item at p was emitted. */
  ghost function Count(events: seq<Event>, kind: Kind, p: Path): nat {
    if events == [] then 0
    else
      var e := events[|events| - 1];
      Count(events[..|events| - 1], kind, p) + if e.Emit? && e.kind == kind && e.at == p then 1 else 0
  }

  lemma CountMore(events: seq<Event>, e: Event)
    ensures forall k, p :: Count(events + [e], k, p) ==
                           Count(events, k, p) + if e.Emit? && e.kind == k && e.at == p then 1 else 0
  {
    assert (events + [e])[..|events|] == events;
  }

  /** A running queue with tasks numbers what started below it; every other queue has no numbers. */
  ghost predicate NumbersAgree(x: Item, n: Tree, tasks: nat, queues: nat)
    reads x`running, x`done, x`taskNumber, x`queueNumber
  {
    && (if x.running && n.Queue? && Tasks(n) > 0
        then x.taskNumber == Some(tasks) && x.queueNumber == Some(queues)
        else x.taskNumber == None && x.queueNumber == None)
    && (!x.running && !x.done ==> tasks == queues == 0)
  }

  ghost predicate NumbersAt(w: World, events: seq<Event>, p: Path)
    requires p in w.at && Has(w.t, p)
    reads w.at.Values`running, w.at.Values`done, w.at.Values`taskNumber, w.at.Values`queueNumber
  {
    NumbersAgree(w.at[p], Sub(w.t, p), Count(events, TaskStarted, p), Count(events, QueueStarted, p))
  }

  ghost predicate Numbered(w: World, events: seq<Event>)
    requires forall p: Path :: p in w.at ==> Has(w.t, p)
    reads w.at.Values`running, w.at.Values`done, w.at.Values`taskNumber, w.at.Values`queueNumber
  {
    forall p: Path {:trigger NumbersAt(w, events, p)} :: p in w.at ==> NumbersAt(w, events, p)
  }

  lemma NumberedMore(w: World, events: seq<Event>, e: Event)
    requires forall p: Path :: p in w.at ==> Has(w.t, p)
    requires Numbered(w, events) && !(e.Emit? && Counts(e.kind))
    ensures Numbered(w, events + [e])
  {
    CountMore(events, e);
    forall p: Path | p in w.at ensures NumbersAt(w, events + [e], p) {
      assert NumbersAt(w, events, p);
    }
  }

  // ---------------------------------------------------------------- the numbers, by the items' own states

  /** How many of these items were started. */
  ghost function StartedItems(w: World, paths: seq<Path>): nat
    reads w.at.Values`running, w.at.Values`done
  {
    if paths == [] then 0
    else (if paths[0] in w.at && (w.at[paths[0]].running || w.at[paths[0]].done) then 1 else 0) +
         StartedItems(w, paths[1..])
  }

  /** The numbers of the queue at b, if it runs and has tasks, are those of the tasks and the queues below it that were
      started, except for `missed` of the queues. */
  ghost predicate CountsStarted(w: World, b: Path, missed: nat)
    requires b in w.at && IsQueue(w.t, b)
    reads w.at.Values`running, w.at.Values`done, w.at.Values`taskNumber, w.at.Values`queueNumber
  {
    var x, n := w.at[b], Sub(w.t, b);
    x.running && Tasks(n) > 0 ==>
      && x.taskNumber == Some(StartedItems(w, Below(n, b, TaskStart)))
      && x.queueNumber == Some(StartedItems(w, Below(n, b, QueueStart)) - missed)
  }

  ghost predicate AllCount(w: World, missed: nat)
    reads w.at.Values`running, w.at.Values`done, w.at.Values`taskNumber, w.at.Values`queueNumber
  {
    forall b: Path {:trigger CountsStarted(w, b, missed)} ::
      b in w.at && IsQueue(w.t, b) ==> CountsStarted(w, b, missed)
  }

  /** A run that starts the item at p misses a queue when it stops at one: the queues above that queue's parent are not
      told. */
  function Uncounted(t: Tree, p: Path): nat
    requires Has(t, p)
  {
    var halt := Halt(Sub(t, p), ParentCounted(t, p));
    if halt.Some? && IsQueue(t, p + halt.value) then 1 else 0
  }

  lemma {:induction false} CountIsHeard(events: seq<Event>, p: Path)
    ensures Count(events, TaskStarted, p) == |Heard(events, p, TaskStart)|
    ensures Count(events, QueueStarted, p) == |Heard(events, p, QueueStart)|
  {
    if events != [] {
      var init, e := events[..|events| - 1], events[|events| - 1];
      assert events == init + [e];
      CountIsHeard(init, p);
      HeardConcat(init, [e], p, TaskStart);
      HeardConcat(init, [e], p, QueueStart);
      HeardOne(e, p, TaskStart);
      HeardOne(e, p, QueueStart);
    }
  }

  lemma {:induction false} StartedIsShown(w: World, paths: seq<Path>, m: Moment)
    requires forall q :: q in paths ==> q in w.at && Shows(w.at[q], StatusAt(q, m))
    ensures StartedItems(w, paths) == StartedAmong(paths, m)
  {
    if paths != [] {
      assert forall q :: q in paths[1..] ==> q in paths;
      StartedIsShown(w, paths[1..], m);
    }
  }

  /** A run that stops at a queue stops in a queue without tasks. */
  lemma StopsUncounted(t: Tree, p: Path)
    requires Has(t, p) && Uncounted(t, p) == 1
    ensures var h := p + Halt(Sub(t, p), ParentCounted(t, p)).value;
            h != [] && IsQueue(t, h) && Has(t, Front(h)) && Tasks(Sub(t, Front(h))) == 0
  {
    var h := Halt(Sub(t, p), ParentCounted(t, p)).value;
    FirstToStop(Sub(t, p), ParentCounted(t, p));
    SubSub(t, p, h);
    if h == [] {
      assert p + h == p && !ParentCounted(t, p);
      SubFront(t, p);
    } else {
      assert Front(p + h) == p + Front(h);
      SubFront(Sub(t, p), h);
      SubSub(t, p, Front(h));
    }
  }

  /** A queue with tasks that still runs at a stop has missed exactly the queue at which the run stopped, if it did. */
  lemma MissedIs(t: Tree, p: Path, b: Path)
    requires Has(t, p) && Halt(Sub(t, p), ParentCounted(t, p)).Some? && IsQueue(t, b) && Tasks(Sub(t, b)) > 0
    requires b <= p + Halt(Sub(t, p), ParentCounted(t, p)).value
    ensures Missed(t, Stopping(p + Halt(Sub(t, p), ParentCounted(t, p)).value), b) == Uncounted(t, p)
  {
    var h := p + Halt(Sub(t, p), ParentCounted(t, p)).value;
    if Uncounted(t, p) == 1 {
      StopsUncounted(t, p);
      SubFront(t, h);
      TasksOfItem(Sub(t, Front(h)).items, h[|h| - 1]);
      assert b != h && b != Front(h);
    }
  }

  lemma CountsAt(w: World, events: seq<Event>, m: Moment, b: Path)
    requires Wired(w) && Numbered(w, events) && Tallied(w.t, m, events)
    requires forall q: Path :: q in w.at ==> Shows(w.at[q], StatusAt(q, m))
    requires b in w.at && IsQueue(w.t, b)
    ensures CountsStarted(w, b, Missed(w.t, m, b))
  {
    assert Tally(w.t, m, events, b) && NumbersAt(w, events, b);
    LocalWiring(w, b);
    CountIsHeard(events, b);
    forall q | q in Below(Sub(w.t, b), b, TaskStart) || q in Below(Sub(w.t, b), b, QueueStart) ensures q in w.at {
      BelowIs(w.t, b, q);
    }
    StartedIsShown(w, Below(Sub(w.t, b), b, TaskStart), m);
    StartedIsShown(w, Below(Sub(w.t, b), b, QueueStart), m);
  }

  /** When an item has completed, and when a run was cut short: the numbers count what was started. */
  lemma RanCounts(w: World, p: Path, before: seq<Event>, ok: bool)
    requires Wired(w) && p in w.at && Numbered(w, w.journal.events) && Ran(w, p, before, ok)
    ensures AllCount(w, Uncounted(w.t, p))
  {
    var halt := Halt(Sub(w.t, p), ParentCounted(w.t, p));
    var m := if ok then Departing(p) else Stopping(p + halt.value);
    forall b: Path | b in w.at && IsQueue(w.t, b) ensures CountsStarted(w, b, Uncounted(w.t, p)) {
      CountsAt(w, w.journal.events, m, b);
      assert Shows(w.at[b], StatusAt(b, m));
      if !ok && w.at[b].running && Tasks(Sub(w.t, b)) > 0 {
        MissedIs(w.t, p, b);
      }
    }
  }

  // ---------------------------------------------------------------- when an emission raises

  /** Every queue that contains a has tasks, so its numbers are set when it runs. */
  ghost predicate CountedAbove(w: World, a: Path)
    requires forall p: Path :: p in w.at ==> Has(w.t, p)
  {
    forall b: Path :: b in w.at && b < a ==> Tasks(Sub(w.t, b)) > 0
  }

  ghost predicate RunningUpTo(w: World, a: Path)
    reads w.at.Values`running
  {
    forall b: Path :: b in w.at && b <= a ==> w.at[b].running
  }

  /** The item at a, and all that contain it, are in a state in which its signal can be emitted. */
  ghost predicate Climbing(w: World, kind: Kind, a: Path)
    requires a in w.at && forall p: Path :: p in w.at ==> Has(w.t, p)
    reads w.at.Values`running
  {
    if Own(kind) then a == [] || (CountedAbove(w, Front(a)) && RunningUpTo(w, Front(a)))
    else w.at[a].isQueue && CountedAbove(w, a) && RunningUpTo(w, a)
  }

  /** The queue whose number the emission advances first has no numbers. */
  predicate Blocked(t: Tree, kind: Kind, a: Path)
    requires Has(t, a)
  {
    if Counts(kind) then Tasks(Sub(t, a)) == 0
    else kind.Started? && a != [] && Has(t, Front(a)) && Tasks(Sub(t, Front(a))) == 0
  }

  function Cut(kind: Kind, queue: bool, a: Path, item: Path): seq<Event> {
    [TaskTree.Emit(kind, a, item)] +
    (if Own(kind) && a != [] then [TaskTree.Emit(Lift(kind, queue), Front(a), item)] else [])
  }

  // ---------------------------------------------------------------- one emission, slot by slot

  /** The methods connected to a signal, in the order they are called. */
  lemma SlotShape(w: World, kind: Kind, a: Path)
    requires Wired(w) && a in w.at && (w.at[a].isQueue || Own(kind))
    ensures a != [] ==> Front(a) in w.at && w.at[Front(a)].isQueue
    ensures var x := w.at[a];
            x.SignalOf(kind).kind == kind &&
            x.SignalOf(kind).methods ==
            Counter(x, kind) +
            if a == [] then [] else [Relay(w.at[Front(a)].SignalOf(Lift(kind, x.isQueue)))]
  {
    LocalWiring(w, a);
    if a != [] {
      LocalWiring(w, Front(a));
    }
    assert SignalWired(w.at[a], kind);
  }

  /** How far an emission has come after its first i slots. */
  ghost predicate Reached(w: World, kind: Kind, a: Path, px: Path, before: seq<Event>, i: nat)
    requires a in w.at && forall p: Path :: p in w.at ==> Has(w.t, p)
    reads w.at.Values`running, w.at.Values`done, w.at.Values`taskNumber, w.at.Values`queueNumber, w.journal`events
  {
    var counting := if Counts(kind) then 1 else 0;
    && w.journal.events == before +
       (if i <= counting then [TaskTree.Emit(kind, a, px)] else Cascade(kind, w.at[a].isQueue, a, px))
    && Numbered(w, if i < counting then before else w.journal.events)
    && (i > 0 ==> !Blocked(w.t, kind, a))
  }

  /** A counting method raised. */
  ghost predicate Interrupted(w: World, kind: Kind, a: Path, px: Path, before: seq<Event>)
    requires a in w.at && forall p: Path :: p in w.at ==> Has(w.t, p)
    reads w.at.Values`running, w.at.Values`done, w.at.Values`taskNumber, w.at.Values`queueNumber, w.journal
  {
    && Numbered(w, w.journal.events)
    && Blocked(w.t, kind, a)
    && w.journal.events == before + Cut(kind, w.at[a].isQueue, a, px)
  }

  lemma BeginEmission(w: World, kind: Kind, a: Path, px: Path, before: seq<Event>)
    requires a in w.at && forall p: Path :: p in w.at ==> Has(w.t, p)
    requires Numbered(w, before)
    requires w.journal.events == before + [TaskTree.Emit(kind, a, px)]
    ensures Reached(w, kind, a, px, before, 0)
  {
    if !Counts(kind) {
      NumberedMore(w, before, TaskTree.Emit(kind, a, px));
    }
  }

  lemma EndEmission(w: World, kind: Kind, a: Path, px: Path, before: seq<Event>, i: nat)
    requires Wired(w) && a in w.at && (w.at[a].isQueue || Own(kind))
    requires i == |w.at[a].SignalOf(kind).methods|
    requires Reached(w, kind, a, px, before, i)
    ensures Numbered(w, w.journal.events) && !Blocked(w.t, kind, a)
    ensures w.journal.events == before + Cascade(kind, w.at[a].isQueue, a, px)
  {
    SlotShape(w, kind, a);
  }

  datatype Emission = Emission(w: World, kind: Kind, a: Path, px: Path, before: seq<Event>)

  function Number(tasks: Option<int>, queues: Option<int>, kind: Kind): Option<int> {
    if kind.TaskStarted? then tasks else queues
  }

  /** The counting method of the queue at e.a was called, and nothing else happened. */
  twostate lemma Counted(e: Emission)
    requires Wired(e.w) && e.a in e.w.at && e.w.at[e.a].isQueue && Counts(e.kind)
    requires old(Reached(e.w, e.kind, e.a, e.px, e.before, 0))
    requires RunningUpTo(e.w, e.a)
    requires forall y | y in e.w.at.Values && y != e.w.at[e.a] :: unchanged(y)
    requires old(e.w.journal.events) == e.w.journal.events
    requires var x := e.w.at[e.a];
             && old(x.running) == x.running && old(x.done) == x.done
             && (if e.kind.TaskStarted? then old(x.queueNumber) == x.queueNumber else old(x.taskNumber) == x.taskNumber)
             && var was := Number(old(x.taskNumber), old(x.queueNumber), e.kind);
                Number(x.taskNumber, x.queueNumber, e.kind) == if was == None then None else Some(was.value + 1)
    ensures var was := old(Number(e.w.at[e.a].taskNumber, e.w.at[e.a].queueNumber, e.kind));
            if was.Some? then Reached(e.w, e.kind, e.a, e.px, e.before, 1)
            else Interrupted(e.w, e.kind, e.a, e.px, e.before)
  {
    CountMore(e.before, TaskTree.Emit(e.kind, e.a, e.px));
    LocalWiring(e.w, e.a);
    assert old(NumbersAt(e.w, e.before, e.a));
    forall p: Path | p in e.w.at ensures NumbersAt(e.w, e.w.journal.events, p) {
      LocalWiring(e.w, p);
      assert e.w.at[p] in e.w.at.Values;
      assert old(NumbersAt(e.w, e.before, p));
    }
  }

  lemma RelayReady(w: World, kind: Kind, a: Path)
    requires Wired(w) && a in w.at && a != [] && (w.at[a].isQueue || Own(kind))
    requires Climbing(w, kind, a)
    ensures Front(a) in w.at && Climbing(w, Lift(kind, w.at[a].isQueue), Front(a))
    ensures Blocked(w.t, Lift(kind, w.at[a].isQueue), Front(a)) <==> Own(kind) && Blocked(w.t, kind, a)
  {
    LocalWiring(w, a);
    LocalWiring(w, Front(a));
  }

  lemma RelayDone(w: World, kind: Kind, a: Path, px: Path, before: seq<Event>, i: nat)
    requires a in w.at && a != [] && forall p: Path :: p in w.at ==> Has(w.t, p)
    requires i >= if Counts(kind) then 1 else 0
    requires w.journal.events ==
             before + [TaskTree.Emit(kind, a, px)] + Cascade(Lift(kind, w.at[a].isQueue), true, Front(a), px)
    requires Numbered(w, w.journal.events) && !Blocked(w.t, kind, a)
    ensures Reached(w, kind, a, px, before, i + 1)
  {
    assert w.journal.events == before + Cascade(kind, w.at[a].isQueue, a, px);
  }

  // ---------------------------------------------------------------- the states during a run

  ghost predicate Shows(x: Item, s: Status)
    reads x`running, x`done
  {
    x.running == s.Running? && x.done == s.Done?
  }

  /** The run has come to p: nothing at or after p was started. */
  ghost predicate Entered(w: World, p: Path)
    reads w.at.Values`running, w.at.Values`done
  {
    forall q: Path :: q in w.at ==> Shows(w.at[q], Entering(q, p))
  }

  /** The item at p is running and nothing below it was started. */
  ghost predicate Begun(w: World, p: Path)
    reads w.at.Values`running, w.at.Values`done
  {
    forall q: Path :: q in w.at ==> Shows(w.at[q], if q == p then Status.Running else Entering(q, p))
  }

  /** Everything below p has completed, and p is still running. */
  ghost predicate Finishing(w: World, p: Path)
    reads w.at.Values`running, w.at.Values`done
  {
    forall q: Path :: q in w.at ==> Shows(w.at[q], if q == p then Status.Running else Leaving(q, p))
  }

  /** The item at p has completed. */
  ghost predicate Left(w: World, p: Path)
    reads w.at.Values`running, w.at.Values`done
  {
    forall q: Path :: q in w.at ==> Shows(w.at[q], Leaving(q, p))
  }

  /** The run was cut short at h. */
  ghost predicate Stopped(w: World, h: Path)
    reads w.at.Values`running, w.at.Values`done
  {
    forall q: Path :: q in w.at ==> Shows(w.at[q], Halted(q, h))
  }

  /** The enclosing queue has numbers to advance. */
  predicate ParentCounted(t: Tree, p: Path)
    requires Has(t, p)
  {
    p == [] || (Has(t, Front(p)) && Tasks(Sub(t, Front(p))) > 0)
  }

  /** A run from the top has come to p. */
  ghost predicate Startable(w: World, p: Path)
    requires p in w.at && forall q: Path :: q in w.at ==> Has(w.t, q)
    reads w.at.Values`running, w.at.Values`done, w.journal`events
  {
    && Entered(w, p) && (p == [] || CountedAbove(w, Front(p)))
    && Tallied(w.t, Arriving(p), w.journal.events)
  }

  /** What starting the item at p does to the whole tree. */
  ghost predicate Ran(w: World, p: Path, before: seq<Event>, ok: bool)
    requires p in w.at && forall q: Path :: q in w.at ==> Has(w.t, q)
    reads w.at.Values`running, w.at.Values`done, w.journal
  {
    var counted := ParentCounted(w.t, p);
    var halt := Halt(Sub(w.t, p), counted);
    && ok == halt.None?
    && w.journal.events == before + Trace(Sub(w.t, p), p, counted)
    && (if ok then Left(w, p) else Stopped(w, p + halt.value))
    && Tallied(w.t, if ok then Departing(p) else Stopping(p + halt.value), w.journal.events)
  }

  datatype Place = Place(w: World, p: Path)

  lemma BeforeStart(w: World, p: Path)
    requires Wired(w) && p in w.at && Numbered(w, w.journal.events) && !w.at[p].running
    ensures Has(w.t, p) && LocallyWired(w, p, w.at[p])
    ensures w.at[p].taskNumber == None && w.at[p].queueNumber == None
    ensures w.at[p].started.kind == Started && w.at[p].completed.kind == Completed
  {
    LocalWiring(w, p);
    assert NumbersAt(w, w.journal.events, p);
    assert w.at[p].SignalOf(Started).kind == Started && w.at[p].SignalOf(Completed).kind == Completed;
  }

  /** The item at e.p was marked as running and its numbers were set, and nothing else changed. */
  twostate lemma BeginItem(e: Place)
    requires old(Wired(e.w)) && e.p in e.w.at
    requires old(Numbered(e.w, e.w.journal.events) && Startable(e.w, e.p))
    requires old(e.w.journal.events) == e.w.journal.events
    requires forall y | y in e.w.at.Values && y != e.w.at[e.p] :: unchanged(y)
    requires forall s | s in SignalsOf(e.w.at.Values) :: unchanged(s)
    requires var x := e.w.at[e.p];
             && x.running && !x.done
             && old(x.parent) == x.parent && old(x.list) == x.list
             && var n := if x.isQueue && Tasks(Sub(e.w.t, e.p)) > 0 then Some(0) else None;
                x.taskNumber == n && x.queueNumber == n
    ensures Wired(e.w) && Numbered(e.w, e.w.journal.events)
    ensures Begun(e.w, e.p) && Climbing(e.w, Started, e.p)
  {
    StillWired(e.w);
    LocalWiring(e.w, e.p);
    EarlierIrreflexive(e.p, e.p);
    assert old(NumbersAt(e.w, e.w.journal.events, e.p));
    assert old(Shows(e.w.at[e.p], Entering(e.p, e.p)));
    forall q: Path | q in e.w.at
      ensures NumbersAt(e.w, e.w.journal.events, q)
      ensures Shows(e.w.at[q], if q == e.p then Status.Running else Entering(q, e.p))
    {
      LocalWiring(e.w, q);
      assert e.w.at[q] in e.w.at.Values;
      assert old(NumbersAt(e.w, e.w.journal.events, q));
      assert old(Shows(e.w.at[q], Entering(q, e.p)));
    }
  }

  /** The item at e.p was marked as done and lost its numbers, and nothing else changed. */
  twostate lemma EndItem(e: Place)
    requires old(Wired(e.w)) && e.p in e.w.at
    requires old(Numbered(e.w, e.w.journal.events) && Finishing(e.w, e.p))
    requires old(e.w.journal.events) == e.w.journal.events
    requires forall y | y in e.w.at.Values && y != e.w.at[e.p] :: unchanged(y)
    requires forall s | s in SignalsOf(e.w.at.Values) :: unchanged(s)
    requires var x := e.w.at[e.p];
             && !x.running && x.done
             && old(x.parent) == x.parent && old(x.list) == x.list
             && x.taskNumber == None && x.queueNumber == None
    ensures Wired(e.w) && Numbered(e.w, e.w.journal.events) && Left(e.w, e.p)
  {
    StillWired(e.w);
    LocalWiring(e.w, e.p);
    forall q: Path | q in e.w.at
      ensures NumbersAt(e.w, e.w.journal.events, q) && Shows(e.w.at[q], Leaving(q, e.p))
    {
      LocalWiring(e.w, q);
      assert e.w.at[q] in e.w.at.Values;
      assert old(NumbersAt(e.w, e.w.journal.events, q));
      assert old(Shows(e.w.at[q], if q == e.p then Status.Running else Leaving(q, e.p)));
    }
  }

  /** Nothing lies below a task. */
  lemma TaskAlone(w: World, p: Path)
    requires Wired(w) && p in w.at && !w.at[p].isQueue && Begun(w, p) && Numbered(w, w.journal.events)
    ensures Finishing(w, p)
    ensures w.at[p].taskNumber == None && w.at[p].queueNumber == None
  {
    LocalWiring(w, p);
    assert NumbersAt(w, w.journal.events, p);
    forall q: Path | q in w.at && p < q ensures false {
      HasPrefix(w.t, p + [q[|p|]], q);
      SubChild(w.t, p, q[|p|]);
    }
  }

  lemma TaskCounted(w: World, p: Path)
    requires Wired(w) && p in w.at && !w.at[p].isQueue
    ensures ParentCounted(w.t, p) && !Blocked(w.t, Started, p)
  {
    LocalWiring(w, p);
    if p != [] {
      SubFront(w.t, p);
      TasksOfItem(Sub(w.t, Front(p)).items, p[|p| - 1]);
    }
  }

  lemma TaskStops(w: World, p: Path, before: seq<Event>)
    requires Wired(w) && p in w.at && !w.at[p].isQueue && TaskRaises(w.at[p].work)
    requires Begun(w, p) && Tallied(w.t, Arriving(p), before)
    requires w.journal.events == before + Cascade(Started, false, p, p) + [Run(p, w.at[p].work != NotSet)]
    ensures Ran(w, p, before, false)
  {
    LocalWiring(w, p);
    TaskCounted(w, p);
    EarlierIrreflexive(p, p);
    assert p + [] == p;
    TaskRan(Sub(w.t, p), p, before);
    TallyCalled(w.t, p, before, w.at[p].work != NotSet);
  }

  lemma QueueBlocked(w: World, p: Path, before: seq<Event>)
    requires Wired(w) && p in w.at && w.at[p].isQueue && Blocked(w.t, Started, p)
    requires Begun(w, p) && Tallied(w.t, Arriving(p), before) && w.journal.events == before + Cut(Started, true, p, p)
    ensures Ran(w, p, before, false)
  {
    LocalWiring(w, p);
    EarlierIrreflexive(p, p);
    assert p + [] == p;
    TallyBlocked(w.t, p, before);
  }

  lemma QueueEntered(w: World, p: Path)
    requires Wired(w) && p in w.at && !Blocked(w.t, Started, p) && (p == [] || CountedAbove(w, Front(p)))
    ensures ParentCounted(w.t, p) && CountedAbove(w, p)
  {
    LocalWiring(w, p);
    forall b: Path | b in w.at && b < p ensures Tasks(Sub(w.t, b)) > 0 {
      assert b == p[..|b|] == Front(p)[..|b|];
      assert b == Front(p) || b < Front(p);
    }
  }

  lemma DuringTask(w: World, p: Path)
    requires Wired(w) && p in w.at
    ensures Has(w.t, p) && LocallyWired(w, p, w.at[p])
    ensures w.at[p].completed.kind == Completed
  {
    LocalWiring(w, p);
    assert w.at[p].SignalOf(Completed).kind == Completed;
  }

  lemma TaskEnds(w: World, p: Path, before: seq<Event>)
    requires Wired(w) && p in w.at && !w.at[p].isQueue && !TaskRaises(w.at[p].work)
    requires Left(w, p) && Tallied(w.t, Arriving(p), before)
    requires w.journal.events ==
             before + Cascade(Started, false, p, p) + [Run(p, w.at[p].work != NotSet)] + Cascade(Completed, false, p, p)
    ensures Ran(w, p, before, true)
  {
    LocalWiring(w, p);
    TaskCounted(w, p);
    TaskRan(Sub(w.t, p), p, before);
    TallyTask(w.t, p, before, w.at[p].work != NotSet);
  }

  /** The first i items of the queue at p have completed. */
  ghost predicate ItemsDone(w: World, p: Path, begun: seq<Event>, i: nat)
    requires p in w.at && forall q: Path :: q in w.at ==> Has(w.t, q)
    reads w.at.Values`running, w.at.Values`done, w.journal
  {
    && Sub(w.t, p).Queue? && i <= |Sub(w.t, p).items|
    && Entered(w, p + [i])
    && CameTo(Sub(w.t, p).items, p, begun, w.journal.events, i)
    && Tallied(w.t, Arriving(p + [i]), w.journal.events)
  }

  lemma FirstItem(w: World, p: Path, before: seq<Event>)
    requires Wired(w) && p in w.at && w.at[p].isQueue && Begun(w, p)
    requires Tallied(w.t, Arriving(p), before) && w.journal.events == before + Cascade(Started, true, p, p)
    ensures ItemsDone(w, p, w.journal.events, 0)
  {
    LocalWiring(w, p);
    TallyFirst(w.t, p, before);
    forall q: Path | q in w.at ensures Shows(w.at[q], Entering(q, p + [0])) {
      EnterFirstItem(q, p);
    }
  }

  lemma ItemReady(w: World, p: Path, i: nat)
    requires Wired(w) && p in w.at && w.at[p].isQueue && i < |w.at[p].list| && Entered(w, p + [i]) && CountedAbove(w, p)
    requires Tallied(w.t, Arriving(p + [i]), w.journal.events)
    ensures p + [i] in w.at && w.at[p].list[i] == w.at[p + [i]] && Startable(w, p + [i])
    ensures !w.at[p + [i]].running && !w.at[p + [i]].done
    ensures Sub(w.t, p).Queue? && i < |Sub(w.t, p).items| && Sub(w.t, p + [i]) == Sub(w.t, p).items[i]
  {
    ItemWiring(w, p, i);
    assert Front(p + [i]) == p;
    EarlierIrreflexive(p + [i], p + [i]);
    assert Shows(w.at[p + [i]], Entering(p + [i], p + [i]));
  }

  lemma ItemDone(w: World, p: Path, begun: seq<Event>, sofar: seq<Event>, i: nat)
    requires Wired(w) && p in w.at && Sub(w.t, p).Queue? && i < |Sub(w.t, p).items|
    requires CameTo(Sub(w.t, p).items, p, begun, sofar, i)
    requires p + [i] in w.at && Ran(w, p + [i], sofar, true)
    ensures ItemsDone(w, p, begun, i + 1)
  {
    SubChild(w.t, p, i);
    assert Front(p + [i]) == p;
    forall q: Path | q in w.at ensures Shows(w.at[q], Entering(q, p + [i + 1])) {
      NextItem(q, p, i);
    }
    ItemRan(Sub(w.t, p).items, p, begun, sofar, i);
    TallyNext(w.t, p, i, w.journal.events);
  }

  lemma ItemStops(w: World, p: Path, before: seq<Event>, begun: seq<Event>, sofar: seq<Event>, i: nat)
    requires Wired(w) && p in w.at && Sub(w.t, p).Queue? && i < |Sub(w.t, p).items| && ParentCounted(w.t, p)
    requires begun == before + Cascade(Started, true, p, p)
    requires CameTo(Sub(w.t, p).items, p, begun, sofar, i)
    requires p + [i] in w.at && Ran(w, p + [i], sofar, false)
    ensures Ran(w, p, before, false)
  {
    SubChild(w.t, p, i);
    assert Front(p + [i]) == p;
    var items := Sub(w.t, p).items;
    var h := Halt(items[i], TasksIn(items) > 0).value;
    PathAssoc(p, i, h);
    ItemHalted(Sub(w.t, p), p, before, sofar, i);
  }

  lemma ItemsFinishing(w: World, p: Path, begun: seq<Event>)
    requires Wired(w) && p in w.at && w.at[p].isQueue && ItemsDone(w, p, begun, |w.at[p].list|)
    requires CountedAbove(w, p)
    ensures Finishing(w, p) && Climbing(w, Completed, p) && !Blocked(w.t, Completed, p)
    ensures Sub(w.t, p).Queue? && CameTo(Sub(w.t, p).items, p, begun, w.journal.events, |Sub(w.t, p).items|)
    ensures Tallied(w.t, Arriving(p + [|Sub(w.t, p).items|]), w.journal.events)
    ensures w.at[p].completed.kind == Completed
  {
    LocalWiring(w, p);
    DuringTask(w, p);
    forall q: Path | q in w.at ensures Shows(w.at[q], if q == p then Status.Running else Leaving(q, p)) {
      LastItem(w.t, q, p);
    }
  }

  lemma QueueEnds(w: World, p: Path, before: seq<Event>, now: seq<Event>)
    requires Wired(w) && p in w.at && Sub(w.t, p).Queue? && ParentCounted(w.t, p) && Left(w, p)
    requires CameTo(Sub(w.t, p).items, p, before + Cascade(Started, true, p, p), now, |Sub(w.t, p).items|)
    requires Tallied(w.t, Arriving(p + [|Sub(w.t, p).items|]), now)
    requires w.journal.events == now + Cascade(Completed, true, p, p)
    ensures Ran(w, p, before, true)
  {
    AllItemsRan(Sub(w.t, p), p, before, now);
    TallyLast(w.t, p, now);
  }

  lemma ItemWiring(w: World, p: Path, i: nat)
    requires Wired(w) && p in w.at && w.at[p].isQueue && i < |w.at[p].list|
    ensures Sub(w.t, p).Queue? && |w.at[p].list| == |Sub(w.t, p).items|
    ensures p + [i] in w.at && w.at[p].list[i] == w.at[p + [i]]
    ensures Sub(w.t, p + [i]) == Sub(w.t, p).items[i] && w.at[p + [i]].isQueue == Sub(w.t, p).items[i].Queue?
  {
    LocalWiring(w, p);
    SubChild(w.t, p, i);
    LocalWiring(w, p + [i]);
  }

  // ---------------------------------------------------------------- connecting and moving

  lemma {:induction false} WithoutIs(methods: seq<Slot>, s: Slot)
    ensures forall m :: m in Without(methods, s) <==> m in methods && m != s
  {
    if methods != [] {
      WithoutIs(methods[1..], s);
      assert methods == [methods[0]] + methods[1..];
    }
  }

  /** A signal of an item that is moved from one queue to another is relayed to the new queue and no longer to the old
      one; nothing else that is connected to it changes. */
  lemma MovedIs(x: Item, kind: Kind, before: Item?, queue: Item, methods: seq<Slot>, s: Slot)
    ensures s in Rewired(x, kind, before, queue, methods) <==>
            s == Relay(queue.SignalOf(Lift(kind, x.isQueue))) ||
            (s in methods && (before == null || s != Relay(before.SignalOf(Lift(kind, x.isQueue)))))
  {
    if before != null {
      WithoutIs(methods, Relay(before.SignalOf(Lift(kind, x.isQueue))));
    }
  }
}
