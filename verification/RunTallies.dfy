/** What the queues have been told by a moment of a run, counted against the items that have started by then. */
module RunTallies {
  import opened Prelude
  import opened TaskTree
  import opened RunOrder
  import opened TaskWalks
  import opened TaskRuns

  /** The run comes to p; it has begun p and nothing below it; it has completed p; it was cut short at p. */
  datatype Moment = Arriving(p: Path) | Beginning(p: Path) | Departing(p: Path) | Stopping(p: Path)

  function StatusAt(q: Path, m: Moment): Status {
    match m
    case Arriving(p) => Entering(q, p)
    case Beginning(p) => if q == p then Status.Running else Entering(q, p)
    case Departing(p) => Leaving(q, p)
    case Stopping(p) => Halted(q, p)
  }

  predicate HasStarted(q: Path, m: Moment) {
    !StatusAt(q, m).Fresh?
  }

  function StartedAmong(paths: seq<Path>, m: Moment): nat {
    if paths == [] then 0 else (if HasStarted(paths[0], m) then 1 else 0) + StartedAmong(paths[1..], m)
  }

  /** The queue at which a run stops has started, but of the queues around it only its parent was told. */
  function Missed(t: Tree, m: Moment, b: Path): nat {
    if m.Stopping? && IsQueue(t, m.p) && b < m.p && b != Front(m.p) then 1 else 0
  }

  /** The queue at b has been told of as many starts as tasks and queues below it have started. */
  ghost predicate Tally(t: Tree, m: Moment, events: seq<Event>, b: Path)
    requires IsQueue(t, b)
  {
    && |Heard(events, b, TaskStart)| == StartedAmong(Below(Sub(t, b), b, TaskStart), m)
    && |Heard(events, b, QueueStart)| + Missed(t, m, b) == StartedAmong(Below(Sub(t, b), b, QueueStart), m)
  }

  ghost predicate Tallied(t: Tree, m: Moment, events: seq<Event>) {
    forall b: Path {:trigger Tally(t, m, events, b)} :: IsQueue(t, b) ==> Tally(t, m, events, b)
  }

  // ---------------------------------------------------------------- counting what has started

  lemma {:induction false} SameStarted(paths: seq<Path>, m: Moment, m': Moment)
    requires forall q :: q in paths ==> (HasStarted(q, m) <==> HasStarted(q, m'))
    ensures StartedAmong(paths, m) == StartedAmong(paths, m')
  {
    if paths != [] {
      assert forall q :: q in paths[1..] ==> q in paths;
      SameStarted(paths[1..], m, m');
    }
  }

  /** One more item has started. */
  lemma {:induction false} OneStarted(paths: seq<Path>, m: Moment, m': Moment, x: Path)
    requires Distinct(paths) && !HasStarted(x, m) && HasStarted(x, m')
    requires forall q :: q in paths && q != x ==> (HasStarted(q, m) <==> HasStarted(q, m'))
    ensures StartedAmong(paths, m') == StartedAmong(paths, m) + if x in paths then 1 else 0
  {
    if paths != [] {
      var rest := paths[1..];
      assert forall i | 0 <= i < |rest| :: rest[i] == paths[i + 1];
      assert forall q :: q in paths <==> q == paths[0] || q in rest;
      if x == paths[0] {
        assert x !in rest;
        SameStarted(rest, m, m');
      } else {
        OneStarted(rest, m, m', x);
      }
    }
  }

  lemma {:induction false} NoneStarted(paths: seq<Path>, m: Moment)
    requires forall q :: q in paths ==> !HasStarted(q, m)
    ensures StartedAmong(paths, m) == 0
  {
    if paths != [] {
      assert forall q :: q in paths[1..] ==> q in paths;
      NoneStarted(paths[1..], m);
    }
  }

  /** The tasks, and the queues, below a queue. */
  lemma BelowIs(t: Tree, b: Path, q: Path)
    requires IsQueue(t, b)
    ensures q in Below(Sub(t, b), b, TaskStart) <==> b < q && IsTask(t, q)
    ensures q in Below(Sub(t, b), b, QueueStart) <==> b < q && IsQueue(t, q)
  {
    TaskPathsFromComplete(Sub(t, b), b, 0);
    QueuePathsFromComplete(Sub(t, b), b, 0, false);
    if b < q {
      assert q == b + q[|b|..];
      SubSub(t, b, q[|b|..]);
    }
  }

  lemma BelowDistinct(n: Tree, b: Path)
    requires n.Queue?
    ensures Distinct(Below(n, b, TaskStart)) && Distinct(Below(n, b, QueueStart))
  {
    TaskPathsFromComplete(n, b, 0);
    QueuePathsFromComplete(n, b, 0, false);
    var paths := Below(n, b, TaskStart);
    forall i, j | 0 <= i < j < |paths| ensures paths[i] != paths[j] {
      EarlierIrreflexive(paths[i], paths[i]);
    }
  }

  // ---------------------------------------------------------------- from moment to moment

  /** The same items have started, and no start was told. */
  lemma TallyStays(t: Tree, m: Moment, m': Moment, events: seq<Event>, more: seq<Event>)
    requires Tallied(t, m, events)
    requires forall q :: Has(t, q) ==> (HasStarted(q, m) <==> HasStarted(q, m'))
    requires forall b :: IsQueue(t, b) ==> Missed(t, m, b) == Missed(t, m', b)
    requires forall b :: Heard(more, b, TaskStart) == [] && Heard(more, b, QueueStart) == []
    ensures Tallied(t, m', events + more)
  {
    forall b: Path | IsQueue(t, b) ensures Tally(t, m', events + more, b) {
      assert Tally(t, m, events, b);
      HeardConcat(events, more, b, TaskStart);
      HeardConcat(events, more, b, QueueStart);
      forall q ensures q in Below(Sub(t, b), b, TaskStart) || q in Below(Sub(t, b), b, QueueStart) ==> Has(t, q) {
        BelowIs(t, b, q);
      }
      SameStarted(Below(Sub(t, b), b, TaskStart), m, m');
      SameStarted(Below(Sub(t, b), b, QueueStart), m, m');
    }
  }

  lemma TallyMoves(t: Tree, m: Moment, m': Moment, events: seq<Event>)
    requires Tallied(t, m, events)
    requires forall q :: Has(t, q) ==> (HasStarted(q, m) <==> HasStarted(q, m'))
    requires forall b :: IsQueue(t, b) ==> Missed(t, m, b) == Missed(t, m', b)
    ensures Tallied(t, m', events)
  {
    TallyStays(t, m, m', events, []);
    assert events + [] == events;
  }

  /** The item at p has started, and so much was told of it to each queue. */
  lemma TallyBegins(t: Tree, p: Path, m': Moment, events: seq<Event>, more: seq<Event>)
    requires Has(t, p) && Tallied(t, Arriving(p), events)
    requires forall q :: HasStarted(q, m') <==> HasStarted(q, Beginning(p))
    requires forall b :: |Heard(more, b, TaskStart)| == if b < p && IsTask(t, p) then 1 else 0
    requires forall b :: IsQueue(t, b) ==>
                           |Heard(more, b, QueueStart)| + Missed(t, m', b) == if b < p && IsQueue(t, p) then 1 else 0
    ensures Tallied(t, m', events + more)
  {
    forall b: Path | IsQueue(t, b) ensures Tally(t, m', events + more, b) {
      assert Tally(t, Arriving(p), events, b);
      TallyOne(t, p, m', events, more, b);
    }
  }

  lemma TallyOne(t: Tree, p: Path, m': Moment, events: seq<Event>, more: seq<Event>, b: Path)
    requires Has(t, p) && IsQueue(t, b) && Tally(t, Arriving(p), events, b)
    requires forall q :: HasStarted(q, m') <==> HasStarted(q, Beginning(p))
    requires |Heard(more, b, TaskStart)| == if b < p && IsTask(t, p) then 1 else 0
    requires |Heard(more, b, QueueStart)| + Missed(t, m', b) == if b < p && IsQueue(t, p) then 1 else 0
    ensures Tally(t, m', events + more, b)
  {
    EarlierIrreflexive(p, p);
    HeardConcat(events, more, b, TaskStart);
    HeardConcat(events, more, b, QueueStart);
    BelowIs(t, b, p);
    BelowDistinct(Sub(t, b), b);
    OneStarted(Below(Sub(t, b), b, TaskStart), Arriving(p), m', p);
    OneStarted(Below(Sub(t, b), b, QueueStart), Arriving(p), m', p);
  }

  /** The start of a run. */
  lemma TallyStart(t: Tree)
    ensures Tallied(t, Arriving([]), [])
  {
    forall b: Path | IsQueue(t, b) ensures Tally(t, Arriving([]), [], b) {
      NoneStarted(Below(Sub(t, b), b, TaskStart), Arriving([]));
      NoneStarted(Below(Sub(t, b), b, QueueStart), Arriving([]));
    }
  }

  lemma StartedIsHeard(t: Tree, p: Path, b: Path)
    requires Has(t, p)
    ensures var more := Cascade(Started, Sub(t, p).Queue?, p, p);
            && |Heard(more, b, TaskStart)| == (if b < p && IsTask(t, p) then 1 else 0)
            && |Heard(more, b, QueueStart)| == (if b < p && IsQueue(t, p) then 1 else 0)
  {
    HeardCascade(Started, Sub(t, p).Queue?, p, b, TaskStart);
    HeardCascade(Started, Sub(t, p).Queue?, p, b, QueueStart);
  }

  /** An item tells the queues around it that it has started. */
  lemma TallyStarted(t: Tree, p: Path, before: seq<Event>)
    requires Has(t, p) && Tallied(t, Arriving(p), before)
    ensures Tallied(t, Beginning(p), before + Cascade(Started, Sub(t, p).Queue?, p, p))
  {
    var more := Cascade(Started, Sub(t, p).Queue?, p, p);
    forall b
      ensures |Heard(more, b, TaskStart)| == if b < p && IsTask(t, p) then 1 else 0
      ensures |Heard(more, b, QueueStart)| == if b < p && IsQueue(t, p) then 1 else 0
    {
      StartedIsHeard(t, p, b);
    }
    TallyBegins(t, p, Beginning(p), before, more);
  }

  /** A task is called. */
  lemma TallyCalled(t: Tree, p: Path, before: seq<Event>, called: bool)
    requires IsTask(t, p) && Tallied(t, Arriving(p), before)
    ensures Tallied(t, Stopping(p), before + Cascade(Started, false, p, p) + [Run(p, called)])
  {
    TallyStarted(t, p, before);
    forall b ensures Heard([Run(p, called)], b, TaskStart) == [] && Heard([Run(p, called)], b, QueueStart) == [] {
      HeardOne(Run(p, called), b, TaskStart);
      HeardOne(Run(p, called), b, QueueStart);
    }
    TallyStays(t, Beginning(p), Stopping(p), before + Cascade(Started, false, p, p), [Run(p, called)]);
  }

  lemma CompletedTellsNoStart(queue: bool, p: Path, b: Path)
    ensures Heard(Cascade(Completed, queue, p, p), b, TaskStart) == []
    ensures Heard(Cascade(Completed, queue, p, p), b, QueueStart) == []
  {
    HeardCascade(Completed, queue, p, b, TaskStart);
    HeardCascade(Completed, queue, p, b, QueueStart);
  }

  /** A task completes. */
  lemma TallyTask(t: Tree, p: Path, before: seq<Event>, called: bool)
    requires IsTask(t, p) && Tallied(t, Arriving(p), before)
    ensures Tallied(t, Departing(p),
                    before + Cascade(Started, false, p, p) + [Run(p, called)] + Cascade(Completed, false, p, p))
  {
    TallyCalled(t, p, before, called);
    forall b ensures Heard(Cascade(Completed, false, p, p), b, TaskStart) == []
             ensures Heard(Cascade(Completed, false, p, p), b, QueueStart) == []
    {
      CompletedTellsNoStart(false, p, b);
    }
    forall q | Has(t, q) ensures HasStarted(q, Stopping(p)) <==> HasStarted(q, Departing(p)) {
      TaskIsLeaf(t, p, q);
    }
    TallyStays(t, Stopping(p), Departing(p), before + Cascade(Started, false, p, p) + [Run(p, called)],
               Cascade(Completed, false, p, p));
  }

  /** A queue that cannot be counted tells its parent only. */
  lemma TallyBlocked(t: Tree, p: Path, before: seq<Event>)
    requires IsQueue(t, p) && p != [] && Tallied(t, Arriving(p), before)
    ensures Tallied(t, Stopping(p), before + [Emit(Started, p, p), Emit(QueueStarted, Front(p), p)])
  {
    var more := [Emit(Started, p, p), Emit(QueueStarted, Front(p), p)];
    forall b
      ensures Heard(more, b, TaskStart) == [] && Heard(more, b, QueueStart) == if b == Front(p) then [p] else []
    {
      assert more[1..] == [Emit(QueueStarted, Front(p), p)];
      HeardOne(Emit(QueueStarted, Front(p), p), b, TaskStart);
      HeardOne(Emit(QueueStarted, Front(p), p), b, QueueStart);
    }
    TallyBegins(t, p, Stopping(p), before, more);
  }

  /** A queue comes to its first item. */
  lemma TallyFirst(t: Tree, p: Path, before: seq<Event>)
    requires IsQueue(t, p) && Tallied(t, Arriving(p), before)
    ensures Tallied(t, Arriving(p + [0]), before + Cascade(Started, true, p, p))
  {
    TallyStarted(t, p, before);
    forall q ensures HasStarted(q, Beginning(p)) <==> HasStarted(q, Arriving(p + [0])) {
      EnterFirstItem(q, p);
    }
    TallyMoves(t, Beginning(p), Arriving(p + [0]), before + Cascade(Started, true, p, p));
  }

  /** It goes on to the next item. */
  lemma TallyNext(t: Tree, p: Path, i: nat, events: seq<Event>)
    requires Tallied(t, Departing(p + [i]), events)
    ensures Tallied(t, Arriving(p + [i + 1]), events)
  {
    forall q ensures HasStarted(q, Departing(p + [i])) <==> HasStarted(q, Arriving(p + [i + 1])) {
      NextItem(q, p, i);
    }
    TallyMoves(t, Departing(p + [i]), Arriving(p + [i + 1]), events);
  }

  /** It completes after its last item. */
  lemma TallyLast(t: Tree, p: Path, events: seq<Event>)
    requires IsQueue(t, p) && Tallied(t, Arriving(p + [|Sub(t, p).items|]), events)
    ensures Tallied(t, Departing(p), events + Cascade(Completed, true, p, p))
  {
    var last := p + [|Sub(t, p).items|];
    forall b ensures Heard(Cascade(Completed, true, p, p), b, TaskStart) == []
             ensures Heard(Cascade(Completed, true, p, p), b, QueueStart) == []
    {
      CompletedTellsNoStart(true, p, b);
    }
    forall q | Has(t, q) ensures HasStarted(q, Arriving(last)) <==> HasStarted(q, Departing(p)) {
      LastItem(t, q, p);
    }
    TallyStays(t, Arriving(last), Departing(p), events, Cascade(Completed, true, p, p));
  }
}
