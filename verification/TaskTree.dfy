/** The installation tasks as values: a tree of tasks and task queues, what a run of it emits and where
    a run stops. A node is named by its path from the top-level queue. */
module TaskTree {
  import opened Prelude

  /** What the error handler decides about an exception raised by a task. */
  datatype Resolution = ErrorRaise | ErrorContinue

  /** The callable of a task, seen through what calling it does. */
  datatype Work = NotSet | Returns | Fails(resolution: Resolution)

  datatype Tree =
    | Task(name: string, work: Work)
    | Queue(name: string, items: seq<Tree>)

  type Path = seq<nat>

  predicate Has(t: Tree, p: Path) {
    p == [] || (t.Queue? && p[0] < |t.items| && Has(t.items[p[0]], p[1..]))
  }

  function Sub(t: Tree, p: Path): Tree
    requires Has(t, p)
  {
    if p == [] then t else Sub(t.items[p[0]], p[1..])
  }

  function Front(p: Path): Path
    requires p != []
  {
    p[..|p| - 1]
  }

  lemma AtOrAbove(a: Path, at: Path)
    requires at != []
    ensures a <= at <==> a == at || a <= Front(at)
  {
    if a <= at && |a| < |at| {
      assert a == at[..|a|] == Front(at)[..|a|];
    }
    if a <= Front(at) {
      assert a == Front(at)[..|a|] == at[..|a|];
    }
  }

  /** A node's children are reached by one more step. */
  lemma {:induction false} SubChild(t: Tree, p: Path, i: nat)
    ensures Has(t, p + [i]) <==> Has(t, p) && Sub(t, p).Queue? && i < |Sub(t, p).items|
    ensures Has(t, p + [i]) ==> Sub(t, p + [i]) == Sub(t, p).items[i]
    decreases p
  {
    if p == [] {
      assert (p + [i])[1..] == [];
    } else {
      assert (p + [i])[1..] == p[1..] + [i];
      if t.Queue? && p[0] < |t.items| {
        SubChild(t.items[p[0]], p[1..], i);
      }
    }
  }

  lemma {:induction false} SubFront(t: Tree, p: Path)
    requires p != [] && Has(t, p)
    ensures Has(t, Front(p)) && Sub(t, Front(p)).Queue? && p[|p| - 1] < |Sub(t, Front(p)).items|
    ensures Sub(t, p) == Sub(t, Front(p)).items[p[|p| - 1]]
  {
    assert Front(p) + [p[|p| - 1]] == p;
    SubChild(t, Front(p), p[|p| - 1]);
  }

  lemma {:induction false} SubSub(t: Tree, b: Path, r: Path)
    requires Has(t, b)
    ensures Has(t, b + r) <==> Has(Sub(t, b), r)
    ensures Has(t, b + r) ==> Sub(t, b + r) == Sub(Sub(t, b), r)
    decreases b
  {
    if b == [] {
      assert [] + r == r;
    } else {
      assert (b + r)[1..] == b[1..] + r;
      SubSub(t.items[b[0]], b[1..], r);
    }
  }

  // ---------------------------------------------------------------- counts

  /** The tasks at or below an item. */
  function Tasks(t: Tree): nat {
    if t.Task? then 1 else TasksIn(t.items)
  }

  function TasksIn(items: seq<Tree>): nat {
    if items == [] then 0 else Tasks(items[0]) + TasksIn(items[1..])
  }

  /** The queues at or below an item. */
  function Queues(t: Tree): nat {
    if t.Task? then 0 else 1 + QueuesIn(t.items)
  }

  function QueuesIn(items: seq<Tree>): nat {
    if items == [] then 0 else Queues(items[0]) + QueuesIn(items[1..])
  }

  lemma {:induction false} TasksOfItem(items: seq<Tree>, i: nat)
    requires i < |items|
    ensures Tasks(items[i]) <= TasksIn(items)
  {
    if i > 0 {
      TasksOfItem(items[1..], i - 1);
    }
  }

  // ---------------------------------------------------------------- where a run stops

  predicate TaskRaises(work: Work) {
    work == Fails(ErrorRaise)
  }

  /** The item at which starting t raises, relative to t. The counters of the enclosing queue are set
      only when it has tasks (`counted`); a queue that starts inside a queue with unset counters raises
      when that queue tries to advance its current queue number. */
  function Halt(t: Tree, counted: bool): Option<Path>
    decreases t
  {
    match t
    case Task(_, work) => if TaskRaises(work) then Some([]) else None
    case Queue(_, items) => if !counted then Some([]) else HaltFrom(items, 0, TasksIn(items) > 0)
  }

  function HaltFrom(items: seq<Tree>, i: nat, counted: bool): Option<Path>
    requires i <= |items|
    decreases items, |items| - i
  {
    if i == |items| then None
    else match Halt(items[i], counted)
         case Some(h) => Some([i] + h)
         case None => HaltFrom(items, i + 1, counted)
  }

  // ---------------------------------------------------------------- what a run emits

  datatype Kind = Started | Completed | QueueStarted | QueueCompleted | TaskStarted | TaskCompleted

  datatype Event =
    | Emit(kind: Kind, at: Path, item: Path) // the signal `kind` of the item at `at` is emitted about `item`
    | Run(item: Path, called: bool)          // run_task is called for a task, and calls its callable if one is set

  predicate Own(kind: Kind) {
    kind.Started? || kind.Completed?
  }

  /** The signal of the enclosing queue that re-emits a signal of an item. */
  function Lift(kind: Kind, queue: bool): Kind {
    match kind
    case Started => if queue then QueueStarted else TaskStarted
    case Completed => if queue then QueueCompleted else TaskCompleted
    case other => other
  }

  /** An emission at `at` and the re-emissions it causes in every queue above. */
  function Cascade(kind: Kind, queue: bool, at: Path, item: Path): seq<Event>
    decreases |at|
  {
    [Emit(kind, at, item)] +
    (if at == [] then [] else Cascade(Lift(kind, queue), true, Front(at), item))
  }

  /** Everything that starting the item t at path p emits. */
  function Trace(t: Tree, p: Path, counted: bool): seq<Event>
    decreases t
  {
    match t
    case Task(_, work) =>
      Cascade(Started, false, p, p) + [Run(p, work != NotSet)] +
      (if TaskRaises(work) then [] else Cascade(Completed, false, p, p))
    case Queue(_, items) =>
      if !counted && p != [] then [Emit(Started, p, p), Emit(QueueStarted, Front(p), p)]
      else
        Cascade(Started, true, p, p) + TraceFrom(items, p, 0, TasksIn(items) > 0) +
        (if HaltFrom(items, 0, TasksIn(items) > 0).Some? then [] else Cascade(Completed, true, p, p))
  }

  function TraceFrom(items: seq<Tree>, p: Path, i: nat, counted: bool): seq<Event>
    requires i <= |items|
    decreases items, |items| - i
  {
    if i == |items| then []
    else Trace(items[i], p + [i], counted) +
         (if Halt(items[i], counted).Some? then [] else TraceFrom(items, p, i + 1, counted))
  }

  /** A run of the items of the queue at p has emitted `now`, having begun at `begun`, and comes to item i. */
  ghost predicate CameTo(items: seq<Tree>, p: Path, begun: seq<Event>, now: seq<Event>, i: nat)
    requires i <= |items|
  {
    var counted := TasksIn(items) > 0;
    && HaltFrom(items, i, counted) == HaltFrom(items, 0, counted)
    && now + TraceFrom(items, p, i, counted) == begun + TraceFrom(items, p, 0, counted)
  }

  lemma Assoc(a: seq<Event>, b: seq<Event>, c: seq<Event>)
    ensures a + b + c == a + (b + c)
  {
  }

  lemma PathAssoc(p: Path, i: nat, h: Path)
    ensures p + [i] + h == p + ([i] + h)
  {
  }

  lemma ItemRan(items: seq<Tree>, p: Path, begun: seq<Event>, sofar: seq<Event>, i: nat)
    requires i < |items| && CameTo(items, p, begun, sofar, i)
    ensures var counted := TasksIn(items) > 0;
            var now := sofar + Trace(items[i], p + [i], counted);
            match Halt(items[i], counted)
            case None => CameTo(items, p, begun, now, i + 1)
            case Some(h) =>
              HaltFrom(items, 0, counted) == Some([i] + h) && now == begun + TraceFrom(items, p, 0, counted)
  {
    var counted := TasksIn(items) > 0;
    var rest := if Halt(items[i], counted).Some? then [] else TraceFrom(items, p, i + 1, counted);
    Assoc(sofar, Trace(items[i], p + [i], counted), rest);
  }

  /** The trace of a task, from its three parts. */
  lemma TaskRan(t: Tree, p: Path, before: seq<Event>)
    requires t.Task?
    ensures before + Trace(t, p, true) ==
            before + Cascade(Started, false, p, p) + [Run(p, t.work != NotSet)] +
            if TaskRaises(t.work) then [] else Cascade(Completed, false, p, p)
  {
    var last := if TaskRaises(t.work) then [] else Cascade(Completed, false, p, p);
    Assoc(before, Cascade(Started, false, p, p), [Run(p, t.work != NotSet)]);
    Assoc(before, Cascade(Started, false, p, p) + [Run(p, t.work != NotSet)], last);
  }

  /** The trace of a queue that was entered, from the trace of its items. */
  lemma QueueRan(t: Tree, p: Path, before: seq<Event>)
    requires t.Queue?
    ensures var counted := TasksIn(t.items) > 0;
            before + Trace(t, p, true) ==
            before + Cascade(Started, true, p, p) + TraceFrom(t.items, p, 0, counted) +
            if HaltFrom(t.items, 0, counted).Some? then [] else Cascade(Completed, true, p, p)
  {
    var counted := TasksIn(t.items) > 0;
    var last := if HaltFrom(t.items, 0, counted).Some? then [] else Cascade(Completed, true, p, p);
    Assoc(before, Cascade(Started, true, p, p), TraceFrom(t.items, p, 0, counted));
    Assoc(before, Cascade(Started, true, p, p) + TraceFrom(t.items, p, 0, counted), last);
  }

  lemma ItemHalted(t: Tree, p: Path, before: seq<Event>, sofar: seq<Event>, i: nat)
    requires t.Queue? && i < |t.items| && CameTo(t.items, p, before + Cascade(Started, true, p, p), sofar, i)
    requires Halt(t.items[i], TasksIn(t.items) > 0).Some?
    ensures Halt(t, true) == Some([i] + Halt(t.items[i], TasksIn(t.items) > 0).value)
    ensures sofar + Trace(t.items[i], p + [i], TasksIn(t.items) > 0) == before + Trace(t, p, true)
  {
    ItemRan(t.items, p, before + Cascade(Started, true, p, p), sofar, i);
    QueueRan(t, p, before);
  }

  lemma AllItemsRan(t: Tree, p: Path, before: seq<Event>, now: seq<Event>)
    requires t.Queue? && CameTo(t.items, p, before + Cascade(Started, true, p, p), now, |t.items|)
    ensures HaltFrom(t.items, 0, TasksIn(t.items) > 0) == None
    ensures now + Cascade(Completed, true, p, p) == before + Trace(t, p, true)
  {
    QueueRan(t, p, before);
    assert now + [] == now;
  }

  // ---------------------------------------------------------------- the states of the items

  datatype Status = Fresh | Running | Done

  /** q comes before p in run order and does not contain it. */
  predicate Earlier(q: Path, p: Path) {
    q != [] && p != [] && (q[0] < p[0] || (q[0] == p[0] && Earlier(q[1..], p[1..])))
  }

  lemma {:induction false} EarlierChild(q: Path, p: Path, i: nat)
    ensures Earlier(q, p + [i]) <==> Earlier(q, p) || (p < q && q[|p|] < i)
    decreases p
  {
    if p == [] {
    } else {
      assert (p + [i])[1..] == p[1..] + [i];
      if q != [] && q[0] == p[0] {
        EarlierChild(q[1..], p[1..], i);
        assert p < q <==> p[1..] < q[1..] by {
          assert p == [p[0]] + p[1..] && q == [q[0]] + q[1..];
        }
      }
    }
  }

  /** Nothing is earlier than itself, or than what contains it. */
  lemma {:induction false} EarlierIrreflexive(q: Path, p: Path)
    requires q <= p || p <= q
    ensures !Earlier(q, p)
  {
    if q != [] && p != [] {
      assert q[0] == p[0];
      EarlierIrreflexive(q[1..], p[1..]);
    }
  }

  /** The state of the item at q when the run reaches p, before p is started. */
  function Entering(q: Path, p: Path): Status {
    if q < p then Running else if Earlier(q, p) then Done else Fresh
  }

  /** The state of the item at q when p has just completed. */
  function Leaving(q: Path, p: Path): Status {
    if q < p then Running else if p <= q || Earlier(q, p) then Done else Fresh
  }

  /** The state of the item at q when the run was cut short at h. */
  function Halted(q: Path, h: Path): Status {
    if q <= h then Running else if Earlier(q, h) then Done else Fresh
  }

  lemma EnterFirstItem(q: Path, p: Path)
    ensures Entering(q, p + [0]) == if q == p then Running else Entering(q, p)
  {
    EarlierChild(q, p, 0);
    ChildPrefix(q, p, 0);
    EarlierIrreflexive(p, p);
  }

  lemma NextItem(q: Path, p: Path, i: nat)
    ensures Leaving(q, p + [i]) == Entering(q, p + [i + 1])
  {
    EarlierChild(q, p, i);
    EarlierChild(q, p, i + 1);
    ChildPrefix(q, p, i);
    ChildPrefix(q, p, i + 1);
    assert p + [i] <= q <==> p < q && q[|p|] == i;
  }

  lemma LastItem(t: Tree, q: Path, p: Path)
    requires Has(t, q) && Has(t, p) && Sub(t, p).Queue?
    ensures Entering(q, p + [|Sub(t, p).items|]) == if q == p then Running else Leaving(q, p)
  {
    var n := |Sub(t, p).items|;
    EarlierChild(q, p, n);
    ChildPrefix(q, p, n);
    EarlierIrreflexive(p, p);
    if p < q {
      HasPrefix(t, p + [q[|p|]], q);
      SubChild(t, p, q[|p|]);
    }
  }

  lemma ChildPrefix(q: Path, p: Path, i: nat)
    ensures q < p + [i] <==> q <= p
  {
    if q < p + [i] {
      assert q == (p + [i])[..|q|] == p[..|q|];
    }
  }

  lemma {:induction false} HasPrefix(t: Tree, p: Path, q: Path)
    requires p <= q && Has(t, q)
    ensures Has(t, p)
  {
    if p != [] {
      assert p[1..] <= q[1..];
      HasPrefix(t.items[p[0]], p[1..], q[1..]);
    }
  }
}
