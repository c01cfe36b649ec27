/** Run order: the tasks of a tree depth first and left to right, and its queues before or after what they contain. */
module RunOrder {
  import opened TaskTree

  // ---------------------------------------------------------------- the tasks

  /** The tasks at or below the item at p, depth first and left to right. */
  function TaskPaths(t: Tree, p: Path): seq<Path>
    decreases t
  {
    if t.Task? then [p] else TaskPathsFrom(t.items, p, 0)
  }

  function TaskPathsFrom(items: seq<Tree>, p: Path, i: nat): seq<Path>
    requires i <= |items|
    decreases items, |items| - i
  {
    if i == |items| then [] else TaskPaths(items[i], p + [i]) + TaskPathsFrom(items, p, i + 1)
  }

  predicate IsTask(t: Tree, q: Path) {
    Has(t, q) && Sub(t, q).Task?
  }

  ghost predicate InRunOrder(paths: seq<Path>) {
    forall i, j :: 0 <= i < j < |paths| ==> Earlier(paths[i], paths[j])
  }

  lemma {:induction false} EarlierBranch(p: Path, x: Path, y: Path)
    requires p < x && p < y && x[|p|] < y[|p|]
    ensures Earlier(x, y)
  {
    if p != [] {
      assert x[0] == p[0] == y[0];
      assert p[1..] < x[1..] && p[1..] < y[1..];
      EarlierBranch(p[1..], x[1..], y[1..]);
    }
  }

  /** TaskPaths lists each task of the tree once, in run order, and nothing else. */
  lemma {:induction false} TaskPathsComplete(t: Tree, p: Path)
    ensures |TaskPaths(t, p)| == Tasks(t)
    ensures InRunOrder(TaskPaths(t, p))
    ensures forall q :: q in TaskPaths(t, p) <==> p <= q && IsTask(t, q[|p|..])
    decreases t, 0
  {
    match t
    case Task(_, _) =>
      forall q ensures q in [p] <==> p <= q && IsTask(t, q[|p|..]) {
        if q == p {
          assert q[|p|..] == [];
        } else if p <= q {
          assert q[|p|..] != [];
        }
      }
    case Queue(_, items) =>
      TaskPathsFromComplete(t, p, 0);
      assert items[0..] == items;
      forall q ensures p <= q && IsTask(t, q[|p|..]) <==> BelowFrom(t, p, 0, q) {
        if p <= q && IsTask(t, q[|p|..]) {
          assert q != p;
        }
      }
  }

  /** q is a task of the queue t at p, in item i or a later one. */
  predicate BelowFrom(t: Tree, p: Path, i: nat, q: Path) {
    p < q && q[|p|] >= i && IsTask(t, q[|p|..])
  }

  lemma {:induction false} TaskPathsFromComplete(t: Tree, p: Path, i: nat)
    requires t.Queue? && i <= |t.items|
    ensures |TaskPathsFrom(t.items, p, i)| == TasksIn(t.items[i..])
    ensures InRunOrder(TaskPathsFrom(t.items, p, i))
    ensures forall q :: q in TaskPathsFrom(t.items, p, i) <==> BelowFrom(t, p, i, q)
    decreases t, 0, |t.items| - i
  {
    if i < |t.items| {
      assert t.items[i..][1..] == t.items[i + 1..];
      TaskPathsComplete(t.items[i], p + [i]);
      TaskPathsFromComplete(t, p, i + 1);
      var x, y := TaskPaths(t.items[i], p + [i]), TaskPathsFrom(t.items, p, i + 1);
      forall q ensures q in x + y <==> BelowFrom(t, p, i, q) {
        if p < q && q[|p|] == i {
          assert p + [i] <= q && q[|p|..][1..] == q[|p| + 1..];
        }
      }
      forall k, l | 0 <= k < |x| && 0 <= l < |y| ensures Earlier(x[k], y[l]) {
        assert x[k] in x && y[l] in y;
        EarlierBranch(p, x[k], y[l]);
      }
    }
  }

  // ---------------------------------------------------------------- the queues

  /** The queues at or below the item at p, each before those it contains; or each after them. */
  function QueuePaths(t: Tree, p: Path, ending: bool): seq<Path>
    decreases t
  {
    if t.Task? then []
    else if ending then QueuePathsFrom(t.items, p, 0, ending) + [p]
    else [p] + QueuePathsFrom(t.items, p, 0, ending)
  }

  function QueuePathsFrom(items: seq<Tree>, p: Path, i: nat, ending: bool): seq<Path>
    requires i <= |items|
    decreases items, |items| - i
  {
    if i == |items| then [] else QueuePaths(items[i], p + [i], ending) + QueuePathsFrom(items, p, i + 1, ending)
  }

  predicate IsQueue(t: Tree, q: Path) {
    Has(t, q) && Sub(t, q).Queue?
  }

  ghost predicate Distinct(paths: seq<Path>) {
    forall i, j :: 0 <= i < j < |paths| ==> paths[i] != paths[j]
  }

  lemma DistinctBoth(x: seq<Path>, y: seq<Path>)
    requires Distinct(x) && Distinct(y) && forall q :: q in x ==> q !in y
    ensures Distinct(x + y)
  {
    forall i, j | 0 <= i < j < |x + y| ensures (x + y)[i] != (x + y)[j] {
      if i < |x| <= j {
        assert x[i] in x && y[j - |x|] in y;
      }
    }
  }

  /** q is a queue of the queue t at p, in item i or a later one. */
  predicate QueueFrom(t: Tree, p: Path, i: nat, q: Path) {
    p < q && q[|p|] >= i && IsQueue(t, q[|p|..])
  }

  /** QueuePaths lists each queue of the tree once, and nothing else. */
  lemma {:induction false} QueuePathsComplete(t: Tree, p: Path, ending: bool)
    ensures |QueuePaths(t, p, ending)| == Queues(t)
    ensures Distinct(QueuePaths(t, p, ending))
    ensures forall q :: q in QueuePaths(t, p, ending) <==> p <= q && IsQueue(t, q[|p|..])
    decreases t, 0
  {
    match t
    case Task(_, _) =>
      forall q ensures !(p <= q && IsQueue(t, q[|p|..])) {
      }
    case Queue(_, items) =>
      QueuePathsFromComplete(t, p, 0, ending);
      assert items[0..] == items;
      var below := QueuePathsFrom(items, p, 0, ending);
      DistinctBoth(if ending then below else [p], if ending then [p] else below);
      forall q ensures p <= q && IsQueue(t, q[|p|..]) <==> q == p || QueueFrom(t, p, 0, q) {
        if q == p {
          assert q[|p|..] == [];
        }
      }
  }

  lemma {:induction false} QueuePathsFromComplete(t: Tree, p: Path, i: nat, ending: bool)
    requires t.Queue? && i <= |t.items|
    ensures |QueuePathsFrom(t.items, p, i, ending)| == QueuesIn(t.items[i..])
    ensures Distinct(QueuePathsFrom(t.items, p, i, ending))
    ensures forall q :: q in QueuePathsFrom(t.items, p, i, ending) <==> QueueFrom(t, p, i, q)
    decreases t, 0, |t.items| - i
  {
    if i < |t.items| {
      assert t.items[i..][1..] == t.items[i + 1..];
      QueuePathsComplete(t.items[i], p + [i], ending);
      QueuePathsFromComplete(t, p, i + 1, ending);
      var x, y := QueuePaths(t.items[i], p + [i], ending), QueuePathsFrom(t.items, p, i + 1, ending);
      forall q ensures q in x <==> p < q && q[|p|] == i && IsQueue(t, q[|p|..]) {
        if p < q && q[|p|] == i {
          assert p + [i] <= q && q[|p|..][1..] == q[|p| + 1..];
        }
      }
      DistinctBoth(x, y);
    }
  }

  // ---------------------------------------------------------------- what comes before

  lemma {:induction false} EarlierAsymmetric(q: Path, p: Path)
    requires Earlier(q, p)
    ensures !Earlier(p, q)
  {
    if q[0] == p[0] {
      EarlierAsymmetric(q[1..], p[1..]);
    }
  }

  /** What is below an earlier item is earlier, and neither contains the other. */
  lemma Apart(p: Path, x: Path, y: Path)
    requires p < x && p < y && x[|p|] < y[|p|]
    ensures Earlier(x, y) && !Earlier(y, x) && !(x <= y) && !(y <= x)
  {
    EarlierBranch(p, x, y);
    EarlierAsymmetric(x, y);
  }
}
