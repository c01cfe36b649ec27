/** Finishing driver disk requests: several processes append to a shared file, read it again, and the last one
    raises the flag. First the protocol over lines, then the one over files, which refines it. */
module DriverDiskRuns {
  import opened Prelude
  import opened TextFiles
  import opened DriverDisk

  type Pid = nat

  /** Where a process is: before marking its request, before reading the finished requests, having read them,
      before writing the flag, or done. */
  datatype Phase = Marking | Reading | Comparing | Writing | Returned

  /** all_finished, of the two lists it reads. */
  predicate AllIn(todo: seq<string>, finished: seq<string>) {
    forall i {:trigger todo[i]} :: 0 <= i < |todo| ==> todo[i] in finished
  }

  // ---------------------------------------------------------------- the protocol over lines

  /** A process: the lines that make up its request, where it is, and the finished lines it has read. */
  datatype Worker = Worker(lines: seq<string>, phase: Phase, finished: seq<string>)

  datatype Board = Board(finished: seq<string>, done: bool, workers: map<Pid, Worker>)

  const EMPTY_BOARD := Board([], false, map[])

  datatype Move = Join(p: Pid, lines: seq<string>) | Work(p: Pid)

  function Put(b: Board, p: Pid, w: Worker): Board {
    b.(workers := b.workers[p := w])
  }

  /** The next step of a process in finish: mark its lines, read what is finished, compare, raise the flag. */
  function Worked(todo: seq<string>, b: Board, p: Pid): Option<Board>
    requires p in b.workers
  {
    var w := b.workers[p];
    match w.phase
    case Marking => Some(Put(b, p, w.(phase := Reading)).(finished := b.finished + w.lines))
    case Reading => Some(Put(b, p, w.(phase := Comparing, finished := b.finished)))
    case Comparing => Some(Put(b, p, w.(phase := if AllIn(todo, w.finished) then Writing else Returned)))
    case Writing => Some(Put(b, p, w.(phase := Returned)).(done := true))
    case Returned => None
  }

  function Moved(todo: seq<string>, b: Board, move: Move): Option<Board> {
    match move
    case Join(p, lines) => if p in b.workers then None else Some(Put(b, p, Worker(lines, Marking, [])))
    case Work(p) => if p in b.workers then Worked(todo, b, p) else None
  }

  function Play(todo: seq<string>, b: Board, moves: seq<Move>): Option<Board>
    decreases moves
  {
    if moves == [] then Some(b)
    else match Moved(todo, b, moves[0])
         case None => None
         case Some(b') => Play(todo, b', moves[1..])
  }

  predicate HasMarked(b: Board, p: Pid) {
    p in b.workers && b.workers[p].phase != Marking
  }

  ghost predicate MarkedIn(b: Board, line: string) {
    exists p :: HasMarked(b, p) && line in b.workers[p].lines
  }

  /** What a process has read was finished by then, its own lines included; it only returns with the flag down
      if something was missing. */
  ghost predicate WorkerOk(todo: seq<string>, b: Board, w: Worker) {
    && (w.phase != Marking ==> AllIn(w.lines, b.finished))
    && (w.phase != Marking && w.phase != Reading ==> w.finished <= b.finished && AllIn(w.lines, w.finished))
    && (w.phase == Writing ==> AllIn(todo, w.finished))
    && (w.phase == Returned ==> b.done || !AllIn(todo, w.finished))
  }

  ghost predicate Inv(todo: seq<string>, b: Board) {
    && (forall line {:trigger MarkedIn(b, line)} :: line in b.finished ==> MarkedIn(b, line))
    && (forall p {:trigger b.workers[p]} :: p in b.workers ==> WorkerOk(todo, b, b.workers[p]))
    && (b.done ==> AllIn(todo, b.finished))
  }

  lemma MarkedNext(todo: seq<string>, b: Board, move: Move, line: string)
    requires Inv(todo, b) && Moved(todo, b, move).Some? && line in Moved(todo, b, move).value.finished
    ensures MarkedIn(Moved(todo, b, move).value, line)
  {
    var b' := Moved(todo, b, move).value;
    if line in b.finished {
      assert MarkedIn(b, line);
      var p :| HasMarked(b, p) && line in b.workers[p].lines;
      assert HasMarked(b', p);
    } else {
      assert HasMarked(b', move.p);
    }
  }

  lemma WorkerKept(todo: seq<string>, b: Board, b': Board, w: Worker)
    requires WorkerOk(todo, b, w) && b.finished <= b'.finished && (b.done ==> b'.done)
    ensures WorkerOk(todo, b', w)
  {
  }

  lemma WorkerNext(todo: seq<string>, b: Board, move: Move, p: Pid)
    requires Inv(todo, b) && Moved(todo, b, move).Some? && p in Moved(todo, b, move).value.workers
    ensures WorkerOk(todo, Moved(todo, b, move).value, Moved(todo, b, move).value.workers[p])
  {
    var b' := Moved(todo, b, move).value;
    if p in b.workers && move != Work(p) {
      WorkerKept(todo, b, b', b.workers[p]);
    }
  }

  lemma MoveKeepsInv(todo: seq<string>, b: Board, move: Move)
    requires Inv(todo, b) && Moved(todo, b, move).Some?
    ensures Inv(todo, Moved(todo, b, move).value)
  {
    var b' := Moved(todo, b, move).value;
    forall line | line in b'.finished ensures MarkedIn(b', line) {
      MarkedNext(todo, b, move, line);
    }
    forall p | p in b'.workers ensures WorkerOk(todo, b', b'.workers[p]) {
      WorkerNext(todo, b, move, p);
    }
    if move.Work? && b.workers[move.p].phase == Writing {
      assert WorkerOk(todo, b, b.workers[move.p]);
    }
  }

  lemma {:induction false} PlayKeepsInv(todo: seq<string>, b: Board, moves: seq<Move>)
    requires Inv(todo, b) && Play(todo, b, moves).Some?
    ensures Inv(todo, Play(todo, b, moves).value)
    decreases moves
  {
    if moves != [] {
      MoveKeepsInv(todo, b, moves[0]);
      PlayKeepsInv(todo, Moved(todo, b, moves[0]).value, moves[1..]);
    }
  }

  predicate Finished(b: Board, p: Pid) {
    p in b.workers && b.workers[p].phase == Returned
  }

  /** A process for the line has returned. */
  ghost predicate FinishedFor(b: Board, line: string) {
    exists p :: Finished(b, p) && line in b.workers[p].lines
  }

  /** Of two processes that returned, the one that read more has read what the other did. */
  lemma OneReadAll(todo: seq<string>, b: Board, p: Pid, q: Pid)
    requires Inv(todo, b) && Finished(b, p) && Finished(b, q)
    ensures b.workers[p].finished <= b.workers[q].finished || b.workers[q].finished <= b.workers[p].finished
  {
    var x, y := b.workers[p].finished, b.workers[q].finished;
    assert x == b.finished[..|x|] && y == b.finished[..|y|];
  }

  lemma ReadOwn(todo: seq<string>, b: Board, p: Pid, line: string)
    requires Inv(todo, b) && Finished(b, p) && line in b.workers[p].lines
    ensures line in b.workers[p].finished
  {
    var own := b.workers[p].lines;
    var i :| 0 <= i < |own| && own[i] == line;
  }

  lemma AllInNext(lines: seq<string>, k: nat, x: seq<string>, y: seq<string>)
    requires 0 < k <= |lines| && AllIn(lines[..k - 1], x) && x <= y && lines[k - 1] in y
    ensures AllIn(lines[..k], y)
  {
    forall i {:trigger lines[..k][i]} | 0 <= i < k ensures lines[..k][i] in y {
      if i < k - 1 {
        assert lines[..k - 1][i] in x;
      }
    }
  }

  ghost predicate AllFinished(b: Board, lines: seq<string>) {
    forall i {:trigger FinishedFor(b, lines[i])} :: 0 <= i < |lines| ==> FinishedFor(b, lines[i])
  }

  /** One more line: the later reader of two has read it as well. */
  lemma LaterReader(todo: seq<string>, b: Board, k: nat, p: Pid) returns (last: Pid)
    requires Inv(todo, b) && 0 < k <= |todo| && Finished(b, p) && AllIn(todo[..k - 1], b.workers[p].finished)
    requires FinishedFor(b, todo[k - 1])
    ensures Finished(b, last) && AllIn(todo[..k], b.workers[last].finished)
  {
    var r :| Finished(b, r) && todo[k - 1] in b.workers[r].lines;
    OneReadAll(todo, b, p, r);
    ReadOwn(todo, b, r, todo[k - 1]);
    last := if |b.workers[r].finished| <= |b.workers[p].finished| then p else r;
    AllInNext(todo, k, b.workers[p].finished, b.workers[last].finished);
  }

  /** Of the processes that returned for the first k lines, the last one to read has read them all. */
  lemma {:induction false} LastReader(todo: seq<string>, b: Board, k: nat, q: Pid) returns (p: Pid)
    requires Inv(todo, b) && k <= |todo| && Finished(b, q) && AllFinished(b, todo)
    ensures Finished(b, p) && AllIn(todo[..k], b.workers[p].finished)
  {
    p := q;
    if k > 0 {
      p := LastReader(todo, b, k - 1, q);
      assert FinishedFor(b, todo[k - 1]);
      p := LaterReader(todo, b, k, p);
    }
  }

  lemma DoneWhenAllFinished(todo: seq<string>, b: Board, q: Pid)
    requires Inv(todo, b) && Finished(b, q) && AllFinished(b, todo)
    ensures b.done
  {
    var p := LastReader(todo, b, |todo|, q);
    assert todo[..|todo|] == todo;
    assert WorkerOk(todo, b, b.workers[p]);
  }

  // ---------------------------------------------------------------- the protocol over files

  /** A process, and the finished requests it has read. */
  datatype Process = Process(request: string, phase: Phase, finished: seq<string>)

  /** The two files, and the processes. The requests to do are fixed before any process runs. */
  datatype State = State(finished: string, done: string, processes: map<Pid, Process>)

  const INITIAL := State("", "", map[])

  datatype Step = Begin(p: Pid, request: string) | Advance(p: Pid)

  function Go(s: State, p: Pid, phase: Phase): State
    requires p in s.processes
  {
    s.(processes := s.processes[p := s.processes[p].(phase := phase)])
  }

  /** The next step of a process in finish: append its request, read what is finished, compare, raise the flag. */
  function AdvanceProcess(todo: string, s: State, p: Pid): Option<State>
    requires p in s.processes
  {
    var process := s.processes[p];
    match process.phase
    case Marking => Some(Go(s, p, Reading).(finished := AppendLine(s.finished, process.request)))
    case Reading =>
      Some(s.(processes := s.processes[p := process.(phase := Comparing, finished := ReadLines(s.finished))]))
    case Comparing => Some(Go(s, p, if AllIn(ReadLines(todo), process.finished) then Writing else Returned))
    case Writing => Some(Go(s, p, Returned).(done := AppendLine(s.done, "true")))
    case Returned => None
  }

  /** The state after a step, if the step can happen. */
  function Next(todo: string, s: State, step: Step): Option<State> {
    match step
    case Begin(p, request) =>
      if p in s.processes then None else Some(s.(processes := s.processes[p := Process(request, Marking, [])]))
    case Advance(p) => if p in s.processes then AdvanceProcess(todo, s, p) else None
  }

  function Run(todo: string, s: State, steps: seq<Step>): Option<State>
    decreases steps
  {
    if steps == [] then Some(s)
    else match Next(todo, s, steps[0])
         case None => None
         case Some(s') => Run(todo, s', steps[1..])
  }

  // ---------------------------------------------------------------- the files refine the lines

  function WorkerOf(process: Process): Worker {
    Worker(LinesOf(process.request), process.phase, process.finished)
  }

  function BoardOf(s: State): Board {
    Board(ReadLines(s.finished), s.done != "", map p | p in s.processes :: WorkerOf(s.processes[p]))
  }

  function MoveOf(step: Step): Move {
    match step
    case Begin(p, request) => Join(p, LinesOf(request))
    case Advance(p) => Work(p)
  }

  lemma BoardPut(s: State, s': State, p: Pid, process: Process)
    requires s'.processes == s.processes[p := process]
    ensures BoardOf(s').workers == BoardOf(s).workers[p := WorkerOf(process)]
  {
  }

  /** Each step over the files is the same step over the lines they hold. */
  lemma StepRefines(todo: string, s: State, step: Step)
    requires Terminated(s.finished) && Next(todo, s, step).Some?
    ensures Terminated(Next(todo, s, step).value.finished)
    ensures Moved(ReadLines(todo), BoardOf(s), MoveOf(step)) == Some(BoardOf(Next(todo, s, step).value))
  {
    var s' := Next(todo, s, step).value;
    BoardPut(s, s', step.p, s'.processes[step.p]);
    if step.Advance? && s.processes[step.p].phase == Marking {
      ReadAfterAppend(s.finished, s.processes[step.p].request);
    } else if step.Advance? && s.processes[step.p].phase == Writing {
      assert Row("true") != "";
    }
  }

  function MovesOf(steps: seq<Step>): seq<Move> {
    if steps == [] then [] else [MoveOf(steps[0])] + MovesOf(steps[1..])
  }

  lemma {:induction false} RunRefines(todo: string, s: State, steps: seq<Step>)
    requires Terminated(s.finished) && Run(todo, s, steps).Some?
    ensures Play(ReadLines(todo), BoardOf(s), MovesOf(steps)) == Some(BoardOf(Run(todo, s, steps).value))
    decreases steps
  {
    if steps != [] {
      StepRefines(todo, s, steps[0]);
      RunRefines(todo, Next(todo, s, steps[0]).value, steps[1..]);
      assert MovesOf(steps)[1..] == MovesOf(steps[1..]);
    }
  }

  lemma EmptyBoard(todo: seq<string>)
    ensures BoardOf(INITIAL) == EMPTY_BOARD && Inv(todo, EMPTY_BOARD)
  {
    assert ReadLines("") == [];
  }

  /** What every run over the files keeps, in terms of the lines they hold. */
  lemma RunKeepsInv(todo: string, steps: seq<Step>)
    requires Run(todo, INITIAL, steps).Some?
    ensures Inv(ReadLines(todo), BoardOf(Run(todo, INITIAL, steps).value))
  {
    EmptyBoard(ReadLines(todo));
    RunRefines(todo, INITIAL, steps);
    PlayKeepsInv(ReadLines(todo), EMPTY_BOARD, MovesOf(steps));
  }

  // ---------------------------------------------------------------- whole runs

  /** A process has marked a request that is, or holds, this line. */
  ghost predicate MarkedAs(s: State, line: string) {
    exists p :: p in s.processes && s.processes[p].phase != Marking && line in LinesOf(s.processes[p].request)
  }

  /** In every interleaving the flag is raised only when every line to do was marked by a process for it. */
  lemma DoneOnlyWhenFinished(todo: string, steps: seq<Step>, line: string)
    requires Run(todo, INITIAL, steps).Some?
    requires Run(todo, INITIAL, steps).value.done != "" && line in ReadLines(todo)
    ensures MarkedAs(Run(todo, INITIAL, steps).value, line)
  {
    RunKeepsInv(todo, steps);
    var b := BoardOf(Run(todo, INITIAL, steps).value);
    var i :| 0 <= i < |ReadLines(todo)| && ReadLines(todo)[i] == line;
    assert MarkedIn(b, line);
    var p :| HasMarked(b, p) && line in b.workers[p].lines;
  }

  /** A process for the line has returned. */
  ghost predicate ReturnedFor(s: State, line: string) {
    exists p :: p in s.processes && s.processes[p].phase == Returned && line in LinesOf(s.processes[p].request)
  }

  /** Once a process has returned for every line to do (and one at all), the flag is up, whatever the interleaving was
      and whichever other processes are still under way. */
  lemma DoneWhenAllReturned(todo: string, steps: seq<Step>, q: Pid)
    requires Run(todo, INITIAL, steps).Some?
    requires var s := Run(todo, INITIAL, steps).value;
             q in s.processes && s.processes[q].phase == Returned &&
             forall line :: line in ReadLines(todo) ==> ReturnedFor(s, line)
    ensures Run(todo, INITIAL, steps).value.done != ""
  {
    RunKeepsInv(todo, steps);
    var s := Run(todo, INITIAL, steps).value;
    var lines, b := ReadLines(todo), BoardOf(s);
    forall i {:trigger lines[i]} | 0 <= i < |lines| ensures FinishedFor(b, lines[i]) {
      ReturnedIsFinished(s, lines[i]);
    }
    DoneWhenAllFinished(lines, b, q);
  }

  lemma ReturnedIsFinished(s: State, line: string)
    requires ReturnedFor(s, line)
    ensures FinishedFor(BoardOf(s), line)
  {
    var p :| p in s.processes && s.processes[p].phase == Returned && line in LinesOf(s.processes[p].request);
    assert Finished(BoardOf(s), p);
  }

  // ---------------------------------------------------------------- requests without line breaks

  ghost predicate CleanRequests(s: State) {
    forall p :: p in s.processes ==> NoNewline(s.processes[p].request)
  }

  ghost predicate MarkedRequest(s: State, request: string) {
    exists p :: p in s.processes && s.processes[p].phase != Marking && s.processes[p].request == request
  }

  ghost predicate ReturnedRequest(s: State, request: string) {
    exists p :: p in s.processes && s.processes[p].phase == Returned && s.processes[p].request == request
  }

  /** The flag is raised only when every request to do was marked by a process for it. */
  lemma DoneOnlyWhenMarked(todo: string, steps: seq<Step>, request: string)
    requires Run(todo, INITIAL, steps).Some? && CleanRequests(Run(todo, INITIAL, steps).value)
    requires Run(todo, INITIAL, steps).value.done != "" && request in ReadLines(todo)
    ensures MarkedRequest(Run(todo, INITIAL, steps).value, request)
  {
    var s := Run(todo, INITIAL, steps).value;
    DoneOnlyWhenFinished(todo, steps, request);
    var p :| p in s.processes && s.processes[p].phase != Marking && request in LinesOf(s.processes[p].request);
    CleanRequest(s.processes[p].request);
  }

  /** Once a process has returned for every request to do (and one at all), the flag is up. */
  lemma DoneWhenRequestsReturned(todo: string, steps: seq<Step>, q: Pid)
    requires Run(todo, INITIAL, steps).Some? && CleanRequests(Run(todo, INITIAL, steps).value)
    requires var s := Run(todo, INITIAL, steps).value;
             q in s.processes && s.processes[q].phase == Returned &&
             forall request :: request in ReadLines(todo) ==> ReturnedRequest(s, request)
    ensures Run(todo, INITIAL, steps).value.done != ""
  {
    var s := Run(todo, INITIAL, steps).value;
    forall line | line in ReadLines(todo) ensures ReturnedFor(s, line) {
      var p :| p in s.processes && s.processes[p].phase == Returned && s.processes[p].request == line;
      CleanRequest(line);
    }
    DoneWhenAllReturned(todo, steps, q);
  }
}
